/** Option and Result values shared by every module of the model. */
module Wrappers {

  datatype Option<+T> = None | Some(value: T)
  {
    function GetOr(default: T): T {
      match this
      case Some(v) => v
      case None => default
    }
  }

  /** The outcome of an operation that may stop with an error message
      (the Python scripts raise SystemExit with a message). */
  datatype Result<+T> = Ok(value: T) | Err(msg: string)
}

/** The parts of Python's `str` behaviour that the scripts rely on:
    the whitespace set of `str.isspace` (also the set matched by `\s`),
    `strip`, `split`, `join`, `int()` and `str(int)`. */
module Text {
  import opened Wrappers

  /** Taking one more element of a sequence appends that element. */
  lemma TakeOneMore<T>(s: seq<T>, i: nat)
    requires i < |s|
    ensures s[..i + 1] == s[..i] + [s[i]]
  {
  }

  /** Python's `str.isspace` for one character (and the `\s` class of `re`). */
  predicate IsSpace(c: char) {
    ('\t' <= c <= '\r') || ('\U{1C}' <= c <= '\U{1F}') || c == ' ' || c == '\U{85}' || c == '\U{A0}'
    || c == '\U{1680}' || ('\U{2000}' <= c <= '\U{200A}') || c == '\U{2028}' || c == '\U{2029}'
    || c == '\U{202F}' || c == '\U{205F}' || c == '\U{3000}'
  }

  predicate IsDigit(c: char) { '0' <= c <= '9' }

  predicate IsAsciiLetter(c: char) { ('a' <= c <= 'z') || ('A' <= c <= 'Z') }

  /** The `\w` class restricted to ASCII. */
  predicate IsWordChar(c: char) { IsAsciiLetter(c) || IsDigit(c) || c == '_' }

  /** `s.isdigit()` restricted to ASCII digits. */
  predicate AllDigits(s: string) {
    |s| > 0 && forall i :: 0 <= i < |s| ==> IsDigit(s[i])
  }

  predicate NoSpace(s: string) {
    forall i :: 0 <= i < |s| ==> !IsSpace(s[i])
  }

  function LowerChar(c: char): char {
    if 'A' <= c <= 'Z' then (c as int + 32) as char else c
  }

  function UpperChar(c: char): char {
    if 'a' <= c <= 'z' then (c as int - 32) as char else c
  }

  /** `s.lower()` on ASCII letters; every other character is kept. */
  function Lower(s: string): (r: string)
    ensures |r| == |s|
    ensures forall i :: 0 <= i < |s| ==> r[i] == LowerChar(s[i])
  {
    if s == [] then [] else [LowerChar(s[0])] + Lower(s[1..])
  }

  /** `s.upper()` on ASCII letters; every other character is kept. */
  function Upper(s: string): (r: string)
    ensures |r| == |s|
    ensures forall i :: 0 <= i < |s| ==> r[i] == UpperChar(s[i])
  {
    if s == [] then [] else [UpperChar(s[0])] + Upper(s[1..])
  }

  lemma LowerAppend(a: string, b: string)
    ensures Lower(a + b) == Lower(a) + Lower(b)
  {
    var l, la, lb := Lower(a + b), Lower(a), Lower(b);
    assert |l| == |la + lb|;
    forall i | 0 <= i < |l| ensures l[i] == (la + lb)[i] {
      if i < |a| {
        assert (a + b)[i] == a[i] && (la + lb)[i] == la[i];
      } else {
        assert (a + b)[i] == b[i - |a|] && (la + lb)[i] == lb[i - |a|];
      }
    }
  }

  /** `s.lstrip()`. */
  function LStrip(s: string): (r: string)
    ensures |r| <= |s|
  {
    if |s| > 0 && IsSpace(s[0]) then LStrip(s[1..]) else s
  }

  /** `s.lstrip()` drops a run of blanks from the front and nothing else. */
  lemma {:induction false} LStripSpec(s: string)
    ensures LStrip(s) == s[|s| - |LStrip(s)|..]
    ensures LStrip(s) == [] || !IsSpace(LStrip(s)[0])
    ensures forall i :: 0 <= i < |s| - |LStrip(s)| ==> IsSpace(s[i])
    decreases |s|
  {
    if |s| > 0 && IsSpace(s[0]) {
      LStripSpec(s[1..]);
      assert s[1..][|s| - 1 - |LStrip(s)|..] == s[|s| - |LStrip(s)|..];
      forall i | 0 <= i < |s| - |LStrip(s)| ensures IsSpace(s[i]) {
        if i > 0 { assert s[i] == s[1..][i - 1]; }
      }
    }
  }

  /** `s.rstrip()`. */
  function RStrip(s: string): (r: string)
    ensures |r| <= |s|
  {
    if |s| > 0 && IsSpace(s[|s| - 1]) then RStrip(s[..|s| - 1]) else s
  }

  /** `s.rstrip()` drops a run of blanks from the back and nothing else. */
  lemma {:induction false} RStripSpec(s: string)
    ensures RStrip(s) == s[..|RStrip(s)|]
    ensures RStrip(s) == [] || !IsSpace(RStrip(s)[|RStrip(s)| - 1])
    ensures forall i :: |RStrip(s)| <= i < |s| ==> IsSpace(s[i])
    decreases |s|
  {
    if |s| > 0 && IsSpace(s[|s| - 1]) {
      RStripSpec(s[..|s| - 1]);
      assert s[..|s| - 1][..|RStrip(s)|] == s[..|RStrip(s)|];
      forall i | |RStrip(s)| <= i < |s| ensures IsSpace(s[i]) {
        if i < |s| - 1 { assert s[i] == s[..|s| - 1][i]; }
      }
    }
  }

  /** `s.strip()`. */
  function Strip(s: string): (r: string)
    ensures |r| <= |s|
  {
    RStrip(LStrip(s))
  }

  /** `s.strip()` has no blank at either end. */
  lemma StripEnds(s: string)
    ensures Strip(s) == [] || (!IsSpace(Strip(s)[0]) && !IsSpace(Strip(s)[|Strip(s)| - 1]))
  {
    var l := LStrip(s);
    LStripSpec(s);
    RStripSpec(l);
    var r := RStrip(l);
    if r != [] {
      assert r[0] == l[0];
    }
  }

  lemma StripOfNonSpaceEnds(s: string)
    requires s == [] || (!IsSpace(s[0]) && !IsSpace(s[|s| - 1]))
    ensures Strip(s) == s
  {
  }

  /** Stripping keeps out a character that was not there. */
  lemma StripKeepsOut(s: string, c: char)
    requires !HasChar(s, c)
    ensures !HasChar(Strip(s), c)
  {
    var l := LStrip(s);
    LStripSpec(s);
    RStripSpec(l);
    assert !HasChar(l, c) by {
      forall j | 0 <= j < |l| ensures l[j] != c { assert l[j] == s[|s| - |l| + j]; }
    }
    var r := RStrip(l);
    forall j | 0 <= j < |r| ensures r[j] != c { assert r[j] == l[j]; }
  }

  /** How many ASCII digits start `s`. */
  function LeadDigits(s: string): (n: nat)
    ensures n <= |s|
    ensures forall j :: 0 <= j < n ==> IsDigit(s[j])
    ensures n < |s| ==> !IsDigit(s[n])
  {
    if s == [] || !IsDigit(s[0]) then 0 else 1 + LeadDigits(s[1..])
  }

  /** `s.strip(c)` for a single character `c`. */
  function StripChar(s: string, c: char): (r: string)
    ensures |r| <= |s|
  {
    RStripChar(LStripChar(s, c), c)
  }

  function LStripChar(s: string, c: char): (r: string)
    ensures |r| <= |s|
  {
    if |s| > 0 && s[0] == c then LStripChar(s[1..], c) else s
  }

  /** `s.lstrip(c)` drops a run of `c` from the front and nothing else. */
  lemma {:induction false} LStripCharSpec(s: string, c: char)
    ensures LStripChar(s, c) == s[|s| - |LStripChar(s, c)|..]
    ensures LStripChar(s, c) == [] || LStripChar(s, c)[0] != c
    decreases |s|
  {
    if |s| > 0 && s[0] == c {
      LStripCharSpec(s[1..], c);
      assert s[1..][|s| - 1 - |LStripChar(s, c)|..] == s[|s| - |LStripChar(s, c)|..];
    }
  }

  function RStripChar(s: string, c: char): (r: string)
    ensures |r| <= |s|
  {
    if |s| > 0 && s[|s| - 1] == c then RStripChar(s[..|s| - 1], c) else s
  }

  /** `s.rstrip(c)` drops a run of `c` from the back and nothing else. */
  lemma {:induction false} RStripCharSpec(s: string, c: char)
    ensures RStripChar(s, c) == s[..|RStripChar(s, c)|]
    ensures RStripChar(s, c) == [] || RStripChar(s, c)[|RStripChar(s, c)| - 1] != c
    decreases |s|
  {
    if |s| > 0 && s[|s| - 1] == c {
      RStripCharSpec(s[..|s| - 1], c);
      assert s[..|s| - 1][..|RStripChar(s, c)|] == s[..|RStripChar(s, c)|];
    }
  }

  /** `t in s` for strings. */
  predicate Contains(s: string, t: string) {
    exists i | 0 <= i <= |s| - |t| :: OccursAt(s, t, i)
  }

  predicate HasChar(s: string, c: char) {
    exists i :: 0 <= i < |s| && s[i] == c
  }

  /** A character of `a + b` comes from `a` or from `b`. */
  lemma NoCharAppend(a: string, b: string)
    ensures forall c :: HasChar(a + b, c) ==> HasChar(a, c) || HasChar(b, c)
  {
    forall c | HasChar(a + b, c) ensures HasChar(a, c) || HasChar(b, c) {
      var j :| 0 <= j < |a + b| && (a + b)[j] == c;
      if j < |a| { assert a[j] == c; } else { assert b[j - |a|] == c; }
    }
  }

  /** `s.find(t) >= 0` witnessed at a given index. */
  predicate OccursAt(s: string, t: string, i: int) {
    0 <= i && i + |t| <= |s| && s[i..i + |t|] == t
  }

  lemma ContainsAt(s: string, t: string, i: int)
    requires OccursAt(s, t, i)
    ensures Contains(s, t)
  {
  }

  /** `s.startswith(t)`. */
  predicate StartsWith(s: string, t: string) {
    |t| <= |s| && s[..|t|] == t
  }

  /** `s.endswith(t)`. */
  predicate EndsWith(s: string, t: string) {
    |t| <= |s| && s[|s| - |t|..] == t
  }

  /** `s.replace(pat, repl)` for a non-empty `pat`: occurrences are found left to right
      and do not overlap. */
  function ReplaceAll(s: string, pat: string, repl: string): (r: string)
    requires |pat| > 0
    decreases |s|
  {
    if |s| < |pat| then s
    else if s[..|pat|] == pat then repl + ReplaceAll(s[|pat|..], pat, repl)
    else [s[0]] + ReplaceAll(s[1..], pat, repl)
  }

  /** Replacing a character that does not occur changes nothing. */
  lemma {:induction false} ReplaceAbsent(s: string, c: char, repl: string)
    requires !HasChar(s, c)
    ensures ReplaceAll(s, [c], repl) == s
    decreases |s|
  {
    if |s| >= 1 {
      assert s[..1] != [c] by { assert s[0] != c; }
      assert !HasChar(s[1..], c) by {
        forall i | 0 <= i < |s| - 1 ensures s[1..][i] != c { assert s[1..][i] == s[i + 1]; }
      }
      ReplaceAbsent(s[1..], c, repl);
    }
  }

  /** Replacing one character works character by character, so it distributes over `+`. */
  lemma {:induction false} ReplaceCharAppend(a: string, b: string, c: char, repl: string)
    ensures ReplaceAll(a + b, [c], repl) == ReplaceAll(a, [c], repl) + ReplaceAll(b, [c], repl)
    decreases |a|
  {
    if a == [] {
      assert a + b == b;
    } else {
      assert (a + b)[1..] == a[1..] + b;
      assert (a + b)[..1] == a[..1];
      ReplaceCharAppend(a[1..], b, c, repl);
    }
  }

  /** The first index at or after `from` holding `c`, if any. */
  function FindFrom(s: string, c: char, from: nat): (r: Option<nat>)
    ensures r.Some? ==> from <= r.value < |s| && s[r.value] == c
    ensures r.Some? ==> forall j :: from <= j < r.value ==> s[j] != c
    ensures r.None? ==> forall j :: from <= j < |s| ==> s[j] != c
    decreases |s| - from
  {
    if from >= |s| then None
    else if s[from] == c then Some(from)
    else FindFrom(s, c, from + 1)
  }

  /** Completeness of `FindFrom`: it finds the first occurrence. */
  lemma FindFromFirst(s: string, c: char, from: nat, q: nat)
    requires from <= q < |s| && s[q] == c
    requires forall j :: from <= j < q ==> s[j] != c
    ensures FindFrom(s, c, from) == Some(q)
  {
  }

  /** `s.rfind(c)`; -1 when `c` does not occur. */
  function RFind(s: string, c: char): (r: int)
    ensures -1 <= r < |s|
    ensures r >= 0 ==> s[r] == c
    ensures forall j :: r < j < |s| ==> s[j] != c
  {
    if s == [] then -1
    else if s[|s| - 1] == c then |s| - 1
    else RFind(s[..|s| - 1], c)
  }

  /** `s.find(c)`; -1 when `c` does not occur. */
  function Find(s: string, c: char): (r: int)
    ensures -1 <= r < |s|
    ensures r >= 0 ==> s[r] == c
    ensures forall j :: 0 <= j < |s| && (r < 0 || j < r) ==> s[j] != c
  {
    if s == [] then -1
    else if s[0] == c then 0
    else var k := Find(s[1..], c); if k < 0 then -1 else k + 1
  }

  /** `s.split(c)` for a one-character separator: always at least one part. */
  function Split(s: string, c: char): (r: seq<string>)
    ensures |r| >= 1
  {
    var k := Find(s, c);
    if k < 0 then [s] else [s[..k]] + Split(s[k + 1..], c)
  }

  /** No part of `s.split(c)` holds `c`. */
  lemma {:induction false} SplitNoSep(s: string, c: char)
    ensures forall k :: 0 <= k < |Split(s, c)| ==> !HasChar(Split(s, c)[k], c)
  {
    forall k | 0 <= k < |Split(s, c)| ensures !HasChar(Split(s, c)[k], c) {
      SplitPartNoSep(s, c, k);
    }
  }

  lemma {:induction false} SplitPartNoSep(s: string, c: char, k: nat)
    requires k < |Split(s, c)|
    ensures !HasChar(Split(s, c)[k], c)
    decreases |s|
  {
    var f := Find(s, c);
    if f < 0 {
      SplitFirstNoSep(s, c);
    } else {
      var tail := Split(s[f + 1..], c);
      assert Split(s, c) == [s[..f]] + tail;
      if k == 0 {
        SplitFirstNoSep(s, c);
      } else {
        assert Split(s, c)[k] == tail[k - 1];
        SplitPartNoSep(s[f + 1..], c, k - 1);
      }
    }
  }

  /** The first part of `s.split(c)` holds no `c`. */
  lemma SplitFirstNoSep(s: string, c: char)
    ensures !HasChar(Split(s, c)[0], c)
  {
    var f := Find(s, c);
    var head := if f < 0 then s else s[..f];
    assert Split(s, c)[0] == head;
    assert forall j :: 0 <= j < |head| ==> head[j] == s[j];
  }

  /** `sep.join(parts)`. */
  function Join(parts: seq<string>, sep: string): string {
    if parts == [] then []
    else if |parts| == 1 then parts[0]
    else parts[0] + sep + Join(parts[1..], sep)
  }

  lemma {:induction false} JoinSplit(s: string, c: char)
    ensures Join(Split(s, c), [c]) == s
    decreases |s|
  {
    var k := Find(s, c);
    if k >= 0 {
      JoinSplit(s[k + 1..], c);
      JoinCons(s[..k], Split(s[k + 1..], c), [c]);
      CutAt(s, k);
    }
  }

  lemma JoinCons(h: string, t: seq<string>, sep: string)
    requires |t| >= 1
    ensures Join([h] + t, sep) == h + sep + Join(t, sep)
  {
    assert ([h] + t)[1..] == t;
  }

  lemma CutAt(s: string, k: nat)
    requires k < |s|
    ensures s[..k] + [s[k]] + s[k + 1..] == s
  {
  }

  /** `s.split()` with no argument: the maximal runs of non-whitespace. */
  function SplitWs(s: string): (r: seq<string>)
    ensures forall k :: 0 <= k < |r| ==> |r[k]| > 0 && NoSpace(r[k])
    decreases |s|
  {
    var t := LStrip(s);
    LStripSpec(s);
    if t == [] then []
    else
      var n := WordLen(t);
      var w := t[..n];
      assert |w| > 0 && NoSpace(w) by {
        assert !IsSpace(t[0]);
        forall i | 0 <= i < |w| ensures !IsSpace(w[i]) { assert w[i] == t[i]; }
      }
      var rest := SplitWs(t[n..]);
      ConsWords(w, rest);
      [w] + rest
  }

  lemma ConsWords(w: string, rest: seq<string>)
    requires |w| > 0 && NoSpace(w)
    requires forall k :: 0 <= k < |rest| ==> |rest[k]| > 0 && NoSpace(rest[k])
    ensures forall k :: 0 <= k < |[w] + rest| ==> |([w] + rest)[k]| > 0 && NoSpace(([w] + rest)[k])
  {
    forall k | 0 <= k < |[w] + rest| ensures |([w] + rest)[k]| > 0 && NoSpace(([w] + rest)[k]) {
      if k > 0 { assert ([w] + rest)[k] == rest[k - 1]; }
    }
  }

  /** Length of the leading run of non-whitespace characters. */
  function WordLen(t: string): (n: nat)
    ensures n <= |t|
    ensures forall i :: 0 <= i < n ==> !IsSpace(t[i])
    ensures n < |t| ==> IsSpace(t[n])
  {
    if t == [] || IsSpace(t[0]) then 0 else 1 + WordLen(t[1..])
  }

  /** The first whitespace-separated token of `s`, as `s.split(None, 1)[0]`. */
  function FirstWord(s: string): (r: string)
    requires Strip(s) != []
    ensures |r| > 0 && NoSpace(r)
  {
    var t := LStrip(s);
    LStripSpec(s);
    t[..WordLen(t)]
  }

  /** Value of a run of ASCII digits. */
  function DigitsValue(s: string): (n: nat)
    requires forall i :: 0 <= i < |s| ==> IsDigit(s[i])
  {
    if s == [] then 0
    else
      var last := s[|s| - 1];
      assert IsDigit(last);
      DigitsValue(s[..|s| - 1]) * 10 + (last as int - '0' as int)
  }

  /** Digits with single underscores between them, as Python's `int()` accepts in base 10. */
  predicate WellFormedDigits(s: string) {
    |s| > 0 && IsDigit(s[0]) && IsDigit(s[|s| - 1])
    && (forall i :: 0 <= i < |s| ==> IsDigit(s[i]) || s[i] == '_')
    && (forall i :: 0 <= i < |s| - 1 ==> !(s[i] == '_' && s[i + 1] == '_'))
  }

  function DropUnderscores(s: string): (r: string)
    ensures forall i :: 0 <= i < |r| ==> r[i] != '_'
    ensures (forall i :: 0 <= i < |s| ==> IsDigit(s[i]) || s[i] == '_') ==> forall i :: 0 <= i < |r| ==> IsDigit(r[i])
  {
    if s == [] then [] else (if s[0] == '_' then [] else [s[0]]) + DropUnderscores(s[1..])
  }

  /** Python's `int(s)` for a `str` (base 10): surrounding whitespace, one optional sign and
      digits with single underscores; None where Python raises ValueError. */
  function PyInt(s: string): (r: Option<int>)
  {
    var t := Strip(s);
    if |t| > 0 && (t[0] == '+' || t[0] == '-') then
      var d := t[1..];
      if WellFormedDigits(d) then
        var v: int := DigitsValue(DropUnderscores(d));
        Some(if t[0] == '-' then -v else v)
      else None
    else if WellFormedDigits(t) then Some(DigitsValue(DropUnderscores(t)))
    else None
  }

  /** `int(s)` of a run of ASCII digits is its decimal value. */
  lemma PyIntOfDigits(s: string)
    requires AllDigits(s)
    ensures PyInt(s) == Some(DigitsValue(s))
  {
    assert !IsSpace(s[0]) && !IsSpace(s[|s| - 1]) by { assert IsDigit(s[0]) && IsDigit(s[|s| - 1]); }
    StripOfNonSpaceEnds(s);
    assert !(s[0] == '+' || s[0] == '-') by { assert IsDigit(s[0]); }
    NoUnderscoreKept(s);
  }

  lemma AllDigitsWellFormed(s: string)
    requires AllDigits(s)
    ensures WellFormedDigits(s)
  {
  }

  lemma NoUnderscoreKept(s: string)
    requires forall i :: 0 <= i < |s| ==> IsDigit(s[i])
    ensures DropUnderscores(s) == s
  {
  }

  function DigitChar(d: nat): char
    requires d < 10
  {
    ('0' as int + d) as char
  }

  /** `str(n)` for a non-negative integer. */
  function NatToStr(n: nat): (r: string)
    ensures |r| > 0 && forall i :: 0 <= i < |r| ==> IsDigit(r[i])
  {
    if n < 10 then [DigitChar(n)] else NatToStr(n / 10) + [DigitChar(n % 10)]
  }

  /** `str(n)` for any integer. */
  function IntToStr(n: int): (r: string)
    ensures |r| > 0
  {
    if n < 0 then "-" + NatToStr(-n) else NatToStr(n)
  }

  lemma {:induction false} DigitsOfNatToStr(n: nat)
    ensures DigitsValue(NatToStr(n)) == n
  {
    if n >= 10 {
      DigitsOfNatToStr(n / 10);
      var s := NatToStr(n / 10) + [DigitChar(n % 10)];
      assert s[..|s| - 1] == NatToStr(n / 10);
    }
  }

  /** `int(str(n)) == n`: Python's integer formatting and parsing agree. */
  lemma PyIntOfIntToStr(n: int)
    ensures PyInt(IntToStr(n)) == Some(n)
  {
    if n >= 0 {
      DigitsOfNatToStr(n);
      PyIntOfDigits(NatToStr(n));
    } else {
      var s := IntToStr(n);
      var d := NatToStr(-n);
      assert s == "-" + d;
      assert s[|s| - 1] == d[|d| - 1];
      assert IsDigit(d[|d| - 1]);
      StripOfNonSpaceEnds(s);
      assert s[1..] == d;
      AllDigitsWellFormed(d);
      NoUnderscoreKept(d);
      DigitsOfNatToStr(-n);
    }
  }

  /** The `{n:02d}` format: at least two characters, zero-padded when needed. */
  function Pad2(n: int): (r: string)
    ensures |r| >= 2
    ensures 0 <= n < 10 ==> r == ['0', DigitChar(n)]
    ensures n >= 10 || n < 0 ==> r == IntToStr(n)
  {
    if 0 <= n < 10 then ['0', DigitChar(n)]
    else
      assert n >= 10 ==> |NatToStr(n)| >= 2;
      IntToStr(n)
  }

  // ----- line splitting -----

  /** The line boundaries of `str.splitlines`. */
  predicate IsLineBreak(c: char) {
    c == '\n' || c == '\r' || c == '\U{0B}' || c == '\U{0C}' || ('\U{1C}' <= c <= '\U{1E}')
    || c == '\U{85}' || c == '\U{2028}' || c == '\U{2029}'
  }

  predicate NoLineBreak(s: string) {
    forall i :: 0 <= i < |s| ==> !IsLineBreak(s[i])
  }

  /** Index of the first line boundary of `s`, or `|s|` when there is none. */
  function BreakAt(s: string): (k: nat)
    ensures k <= |s|
    ensures forall i :: 0 <= i < k ==> !IsLineBreak(s[i])
    ensures k < |s| ==> IsLineBreak(s[k])
  {
    if s == [] || IsLineBreak(s[0]) then 0 else 1 + BreakAt(s[1..])
  }

  /** `s.splitlines()`: `\r\n` counts as one boundary, and a boundary at the very end
      opens no further (empty) line. */
  function SplitLines(s: string): (r: seq<string>)
    ensures forall k :: 0 <= k < |r| ==> NoLineBreak(r[k])
    ensures s == [] <==> r == []
    decreases |s|
  {
    if s == [] then []
    else
      var k := BreakAt(s);
      var line := s[..k];
      assert NoLineBreak(line) by {
        forall i | 0 <= i < |line| ensures !IsLineBreak(line[i]) { assert line[i] == s[i]; }
      }
      if k == |s| then [line]
      else
        var n := if s[k] == '\r' && k + 1 < |s| && s[k + 1] == '\n' then k + 2 else k + 1;
        var rest := SplitLines(s[n..]);
        assert forall j :: 0 <= j < |[line] + rest| ==> ([line] + rest)[j] == if j == 0 then line else rest[j - 1];
        [line] + rest
  }

  /** A line ended by a single-character boundary (anything but a carriage return,
      which may pair with a following line feed) is split off whole. */
  lemma SplitLinesCons(l: string, c: char, rest: string)
    requires NoLineBreak(l) && IsLineBreak(c) && c != '\r'
    ensures SplitLines(l + [c] + rest) == [l] + SplitLines(rest)
  {
    var s := l + [c] + rest;
    assert forall i :: 0 <= i < |l| ==> s[i] == l[i];
    BreakAtLine(s, |l|);
    assert s[..|l|] == l && s[|l| + 1..] == rest;
  }

  /** The lines `ls`, each ended by a line feed. */
  function Terminated(ls: seq<string>): (r: string)
  {
    if ls == [] then [] else ls[0] + "\n" + Terminated(ls[1..])
  }

  /** `splitlines` recovers lines that were each ended by a line feed. */
  lemma {:induction false} SplitLinesTerminated(ls: seq<string>)
    requires forall k :: 0 <= k < |ls| ==> NoLineBreak(ls[k])
    ensures SplitLines(Terminated(ls)) == ls
  {
    if ls != [] {
      var s := Terminated(ls);
      var l := ls[0];
      assert s == l + "\n" + Terminated(ls[1..]);
      assert s[|l|] == '\n';
      assert forall i :: 0 <= i < |l| ==> s[i] == l[i];
      assert BreakAt(s) == |l| by { BreakAtLine(s, |l|); }
      assert s[..|l|] == l;
      assert s[|l| + 1..] == Terminated(ls[1..]);
      SplitLinesTerminated(ls[1..]);
    }
  }

  /** Splitting lines that were each ended by a line feed at the line feeds gives the
      lines and one empty piece after the last line feed. */
  lemma {:induction false} SplitTerminated(ls: seq<string>)
    requires forall k :: 0 <= k < |ls| ==> !HasChar(ls[k], '\n')
    ensures Split(Terminated(ls), '\n') == ls + [[]]
  {
    if ls == [] {
      assert Find([], '\n') < 0;
    } else {
      var l, rest := ls[0], ls[1..];
      var t := Terminated(rest);
      assert Terminated(ls) == l + "\n" + t;
      SplitCons(l, t, '\n');
      assert forall k :: 0 <= k < |rest| ==> !HasChar(rest[k], '\n') by {
        forall k | 0 <= k < |rest| ensures !HasChar(rest[k], '\n') { assert rest[k] == ls[k + 1]; }
      }
      SplitTerminated(rest);
      assert ls == [l] + rest;
    }
  }

  /** A part without the separator, the separator, then the rest: the part
      comes first in the split. */
  lemma SplitCons(a: string, b: string, c: char)
    requires !HasChar(a, c)
    ensures Split(a + [c] + b, c) == [a] + Split(b, c)
  {
    var s := a + [c] + b;
    assert s[|a|] == c;
    assert forall j :: 0 <= j < |a| ==> s[j] == a[j];
    FindAt(s, c, |a|);
    assert s[..|a|] == a && s[|a| + 1..] == b;
  }

  /** A join holds a character only when a part or the separator does. */
  lemma {:induction false} JoinNoChar(parts: seq<string>, sep: string, c: char)
    requires forall k :: 0 <= k < |parts| ==> !HasChar(parts[k], c)
    requires !HasChar(sep, c)
    ensures !HasChar(Join(parts, sep), c)
  {
    if |parts| > 1 {
      JoinNoChar(parts[1..], sep, c);
      var a, b := parts[0] + sep, Join(parts[1..], sep);
      assert forall i :: 0 <= i < |a + b| ==> (a + b)[i] == if i < |a| then a[i] else b[i - |a|];
      assert forall i :: 0 <= i < |a| ==> a[i] == if i < |parts[0]| then parts[0][i] else sep[i - |parts[0]|];
    }
  }

  lemma BreakAtLine(s: string, k: nat)
    requires k < |s| && IsLineBreak(s[k])
    requires forall i :: 0 <= i < k ==> !IsLineBreak(s[i])
    ensures BreakAt(s) == k
  {
  }

  /** `sep.join` then `split` on a one-character separator gives the parts back,
      when no part holds the separator. */
  lemma {:induction false} SplitJoin(parts: seq<string>, c: char)
    requires |parts| >= 1
    requires forall k :: 0 <= k < |parts| ==> !HasChar(parts[k], c)
    ensures Split(Join(parts, [c]), c) == parts
  {
    var s := Join(parts, [c]);
    var h := parts[0];
    if |parts| == 1 {
      assert s == h;
      assert Find(s, c) < 0 by { FindAbsent(s, c); }
    } else {
      JoinCons(h, parts[1..], [c]);
      assert parts == [h] + parts[1..];
      assert s == h + [c] + Join(parts[1..], [c]);
      assert s[|h|] == c;
      assert forall i :: 0 <= i < |h| ==> s[i] == h[i];
      FindAt(s, c, |h|);
      assert s[..|h|] == h;
      assert s[|h| + 1..] == Join(parts[1..], [c]);
      SplitJoin(parts[1..], c);
    }
  }

  lemma FindAbsent(s: string, c: char)
    requires !HasChar(s, c)
    ensures Find(s, c) < 0
  {
  }

  lemma FindAt(s: string, c: char, k: nat)
    requires k < |s| && s[k] == c
    requires forall i :: 0 <= i < k ==> s[i] != c
    ensures Find(s, c) == k
  {
  }
}
