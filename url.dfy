/** Python's `urllib.parse.urlsplit` and `urlparse`, as far as the scripts read
    their results: the scheme, the network location, the path, the `;` parameters
    of the last path segment, the query and the fragment. */
module Url {
  import opened Wrappers
  import opened Text

  datatype Parts = Parts(scheme: string, netloc: string, path: string, params: string,
                         query: string, fragment: string)

  /** The C0 controls and the space, stripped from the front of a URL. */
  predicate IsC0OrSpace(c: char) { c <= ' ' }

  function LStripC0(s: string): (r: string)
    ensures r == [] || !IsC0OrSpace(r[0])
    ensures |r| <= |s| && r == s[|s| - |r|..]
  {
    if s != [] && IsC0OrSpace(s[0]) then
      var r := LStripC0(s[1..]);
      assert s[1..][|s| - 1 - |r|..] == s[|s| - |r|..];
      r
    else s
  }

  /** Tab, carriage return and line feed are removed wherever they are. */
  predicate IsUnsafe(c: char) { c == '\t' || c == '\r' || c == '\n' }

  function RemoveUnsafe(s: string): (r: string)
    ensures forall i :: 0 <= i < |r| ==> !IsUnsafe(r[i])
    ensures (forall i :: 0 <= i < |s| ==> !IsUnsafe(s[i])) ==> r == s
  {
    if s == [] then []
    else
      var rest := RemoveUnsafe(s[1..]);
      var r := if IsUnsafe(s[0]) then rest else [s[0]] + rest;
      assert forall i :: 0 <= i < |r| ==> r[i] == if IsUnsafe(s[0]) then rest[i] else if i == 0 then s[0] else rest[i - 1];
      r
  }

  predicate IsSchemeChar(c: char) { IsAsciiLetter(c) || IsDigit(c) || c == '+' || c == '-' || c == '.' }

  /** Whether the text before the first `:` is a scheme: it starts with a letter and
      holds only scheme characters. */
  predicate HasScheme(url: string) {
    var i := Find(url, ':');
    i > 0 && IsAsciiLetter(url[0]) && forall k :: 0 <= k < i ==> IsSchemeChar(url[k])
  }

  /** The first index at or after `from` holding one of `cs`, or `|s|`. */
  function FirstOf(s: string, from: nat, cs: set<char>): (k: nat)
    requires from <= |s|
    ensures from <= k <= |s|
    ensures forall i :: from <= i < k ==> s[i] !in cs
    ensures k < |s| ==> s[k] in cs
    decreases |s| - from
  {
    if from == |s| || s[from] in cs then from else FirstOf(s, from + 1, cs)
  }

  /** `url.split(c, 1)` when `c` occurs, else the whole text and an empty tail. */
  function CutFirst(url: string, c: char): (r: (string, string))
    ensures !HasChar(r.0, c)
    ensures HasChar(url, c) ==> url == r.0 + [c] + r.1
    ensures !HasChar(url, c) ==> r == (url, [])
  {
    var i := Find(url, c);
    if i < 0 then (url, [])
    else
      var head := url[..i];
      assert forall j :: 0 <= j < |head| ==> head[j] == url[j];
      assert url == head + [c] + url[i + 1..];
      (head, url[i + 1..])
  }

  /** The scheme, lower-cased, and what follows its `:`; no scheme when the text
      before the first `:` is not one. */
  function SplitScheme(url: string): (r: (string, string))
    ensures |r.1| <= |url|
  {
    if HasScheme(url) then
      var i := Find(url, ':');
      (Lower(url[..i]), url[i + 1..])
    else ([], url)
  }

  /** `_splitnetloc` after a leading `//`: the network location runs to the first
      `/`, `?` or `#`. */
  function SplitNetloc(url: string): (r: (string, string))
    ensures !HasChar(r.0, '/') && !HasChar(r.0, '?') && !HasChar(r.0, '#')
  {
    if StartsWith(url, "//") then
      var d := FirstOf(url, 2, {'/', '?', '#'});
      var n := url[2..d];
      assert forall j :: 0 <= j < |n| ==> n[j] == url[j + 2];
      (n, url[d..])
    else ([], url)
  }

  /** The path, query and fragment of what follows the network location. */
  function SplitTail(rest: string): (r: (string, string, string))
    ensures !HasChar(r.0, '?') && !HasChar(r.0, '#')
  {
    var (beforeFragment, fragment) := CutFirst(rest, '#');
    var (path, query) := CutFirst(beforeFragment, '?');
    assert !HasChar(path, '#') by {
      if HasChar(beforeFragment, '?') {
        forall j | 0 <= j < |path| ensures path[j] != '#' { assert path[j] == beforeFragment[j]; }
      }
    }
    (path, query, fragment)
  }

  /** The message of the `ValueError` `urlsplit` raises for a bracket without its
      partner in the network location. */
  const InvalidIPv6 := "Invalid IPv6 URL"

  /** A network location holding a `[` without a `]`, or a `]` without a `[`. */
  predicate UnbalancedBrackets(netloc: string) {
    HasChar(netloc, '[') != HasChar(netloc, ']')
  }

  /** The parts `urlsplit` cuts a URL into before it checks the network location;
      `params` is always empty here. */
  function SplitParts(raw: string): (r: Parts)
    ensures !HasChar(r.path, '?') && !HasChar(r.path, '#')
    ensures !HasChar(r.netloc, '/') && !HasChar(r.netloc, '?') && !HasChar(r.netloc, '#')
    ensures r.params == []
  {
    var (scheme, afterScheme) := SplitScheme(RemoveUnsafe(LStripC0(raw)));
    var (netloc, rest) := SplitNetloc(afterScheme);
    var (path, query, fragment) := SplitTail(rest);
    Parts(scheme, netloc, path, [], query, fragment)
  }

  /** `urlsplit`: the parts, or the `ValueError` for a network location with
      unbalanced brackets. */
  function UrlSplit(raw: string): (r: Result<Parts>)
    ensures r.Err? <==> UnbalancedBrackets(SplitParts(raw).netloc)
    ensures r.Err? ==> r.msg == InvalidIPv6
    ensures r.Ok? ==> r.value == SplitParts(raw)
    ensures r.Ok? ==> !HasChar(r.value.path, '?') && !HasChar(r.value.path, '#')
                      && !HasChar(r.value.netloc, '/') && !HasChar(r.value.netloc, '?') && !HasChar(r.value.netloc, '#')
                      && HasChar(r.value.netloc, '[') == HasChar(r.value.netloc, ']')
  {
    var parts := SplitParts(raw);
    if UnbalancedBrackets(parts.netloc) then Err(InvalidIPv6) else Ok(parts)
  }

  /** The schemes whose last path segment may carry `;` parameters. */
  const ParamSchemes: set<string> := {"", "ftp", "hdl", "prospero", "http", "imap", "https", "shttp",
                                      "rtsp", "rtsps", "rtspu", "sip", "sips", "mms", "sftp", "tel"}

  /** `_splitparams`: the parameters start at the first `;` of the last segment
      (of the whole path when it has no `/`). */
  function SplitParams(path: string): (r: (string, string))
    requires HasChar(path, ';')
    ensures |r.0| <= |path|
    ensures r.0 == path[..|r.0|]
  {
    var slash := RFind(path, '/');
    if slash >= 0 then
      var i := FirstOf(path, slash, {';'});
      if i == |path| then (path, []) else (path[..i], path[i + 1..])
    else
      var i := Find(path, ';');
      (path[..i], path[i + 1..])
  }

  /** `urlparse`: `urlsplit`, then the parameters cut off the path. */
  function UrlParse(raw: string): (r: Result<Parts>)
    ensures r.Err? <==> UrlSplit(raw).Err?
    ensures r.Ok? ==> r.value.scheme == UrlSplit(raw).value.scheme && r.value.netloc == UrlSplit(raw).value.netloc
                      && |r.value.path| <= |UrlSplit(raw).value.path| && r.value.path == UrlSplit(raw).value.path[..|r.value.path|]
  {
    match UrlSplit(raw)
    case Err(e) => Err(e)
    case Ok(parts) => Ok(WithParams(parts))
  }

  function WithParams(s: Parts): (r: Parts)
    ensures r.scheme == s.scheme && r.netloc == s.netloc && r.query == s.query && r.fragment == s.fragment
    ensures |r.path| <= |s.path| && r.path == s.path[..|r.path|]
    ensures !HasChar(s.path, ';') ==> r == s
  {
    if s.scheme in ParamSchemes && HasChar(s.path, ';') then
      var p := SplitParams(s.path);
      Parts(s.scheme, s.netloc, p.0, p.1, s.query, s.fragment)
    else s
  }

  /** An `https` URL with a host, a path and nothing else splits into those parts. */
  lemma SplitPlainUrl(host: string, path: string)
    requires HostText(host) && PathText(path)
    ensures UrlSplit("https://" + host + path) == Ok(Parts("https", host, path, [], [], []))
  {
    SplitPartsPlain(host, path);
  }

  /** A host with a `[` and no `]`, or the reverse, makes `urlsplit` fail. */
  lemma SplitUnbalancedHost(host: string, path: string)
    requires HostChars(host) && PathText(path) && UnbalancedBrackets(host)
    ensures UrlSplit("https://" + host + path) == Err(InvalidIPv6)
  {
    SplitPartsPlain(host, path);
  }

  lemma SplitPartsPlain(host: string, path: string)
    requires HostChars(host) && PathText(path)
    ensures SplitParts("https://" + host + path) == Parts("https", host, path, [], [], [])
  {
    var url := "https://" + host + path;
    var after := "//" + host + path;
    PlainUrlClean(host, path);
    SchemeOfPlainUrl(host, path);
    SplitNetlocAt(after, host, path);
    assert SplitNetloc(after) == (host, path) by {
      assert after[2..2 + |host|] == host && after[2 + |host|..] == path;
    }
    CutAbsent(path, '#');
    CutAbsent(path, '?');
  }

  lemma PlainUrlClean(host: string, path: string)
    requires HostChars(host) && PathText(path)
    ensures RemoveUnsafe(LStripC0("https://" + host + path)) == "https://" + host + path
  {
    var url := "https://" + host + path;
    assert LStripC0(url) == url by { assert url[0] == 'h'; }
    assert forall i :: 0 <= i < |url| ==> !IsUnsafe(url[i]) by {
      assert forall i :: 0 <= i < |url| ==> url[i] == if i < 8 then "https://"[i]
                                               else if i < 8 + |host| then host[i - 8] else path[i - 8 - |host|];
    }
  }

  lemma SchemeOfPlainUrl(host: string, path: string)
    ensures SplitScheme("https://" + host + path) == ("https", "//" + host + path)
  {
    var url := "https://" + host + path;
    assert url == "https" + (":" + ("//" + host + path));
    assert Find(url, ':') == 5 by { assert url[5] == ':'; assert forall i :: 0 <= i < 5 ==> url[i] != ':'; }
    assert url[..5] == "https";
    assert Lower("https") == "https";
    assert url[6..] == "//" + host + path;
  }

  /** A network location as the lemmas above use it: no character that ends it
      and none that `urlsplit` removes. */
  predicate HostChars(host: string) {
    forall i :: 0 <= i < |host| ==> host[i] !in {'/', '?', '#', '\t', '\r', '\n'}
  }

  /** A host name (with a port, if any) that holds no bracket either. */
  predicate HostText(host: string) {
    HostChars(host) && !HasChar(host, '[') && !HasChar(host, ']')
  }

  /** A path that starts with `/` and has no query, fragment or removed character. */
  predicate PathText(path: string) {
    (path == [] || path[0] == '/') && forall i :: 0 <= i < |path| ==> path[i] !in {'?', '#', '\t', '\r', '\n'}
  }

  lemma SplitNetlocAt(after: string, host: string, path: string)
    requires HostChars(host) && PathText(path) && after == "//" + host + path
    ensures StartsWith(after, "//")
    ensures FirstOf(after, 2, {'/', '?', '#'}) == 2 + |host|
  {
    var d := FirstOf(after, 2, {'/', '?', '#'});
    assert forall i :: 2 <= i < 2 + |host| ==> after[i] == host[i - 2];
    if path != [] { assert after[2 + |host|] == path[0]; }
    assert after[..2] == "//";
  }

  lemma CutAbsent(s: string, c: char)
    requires forall i :: 0 <= i < |s| ==> s[i] != c
    ensures CutFirst(s, c) == (s, [])
  {
  }

  // ----- percent-encoding: `quote` and `unquote` -----

  predicate IsHexDigit(c: char) { ('0' <= c <= '9') || ('a' <= c <= 'f') || ('A' <= c <= 'F') }

  function HexValue(c: char): (v: nat)
    requires IsHexDigit(c)
    ensures v < 16
  {
    if '0' <= c <= '9' then c as int - '0' as int
    else if 'a' <= c <= 'f' then c as int - 'a' as int + 10
    else c as int - 'A' as int + 10
  }

  /** The digits `quote` writes, upper case. */
  const HexDigits: string := "0123456789ABCDEF"

  /** The byte of a `%XX` escape at index `i` of `s`, if there is one. */
  function EscapeAt(s: string, i: nat): (r: Option<nat>)
    ensures r.Some? ==> r.value < 256 && i + 3 <= |s|
  {
    if i + 3 <= |s| && s[i] == '%' && IsHexDigit(s[i + 1]) && IsHexDigit(s[i + 2])
    then Some(HexValue(s[i + 1]) * 16 + HexValue(s[i + 2]))
    else None
  }

  /** The length of the UTF-8 sequence a byte leads; 0 for a byte that leads none. */
  function SequenceLength(b: nat): (n: nat)
    ensures n <= 4
  {
    if b < 0x80 then 1
    else if 0xC2 <= b <= 0xDF then 2
    else if 0xE0 <= b <= 0xEF then 3
    else if 0xF0 <= b <= 0xF4 then 4
    else 0
  }

  /** The bytes allowed at position `k` (from 1) of a sequence led by `lead`, which
      keep out overlong forms, surrogates and values above U+10FFFF. */
  predicate Continues(lead: nat, k: nat, b: nat) {
    if k == 1 && lead == 0xE0 then 0xA0 <= b <= 0xBF
    else if k == 1 && lead == 0xED then 0x80 <= b <= 0x9F
    else if k == 1 && lead == 0xF0 then 0x90 <= b <= 0xBF
    else if k == 1 && lead == 0xF4 then 0x80 <= b <= 0x8F
    else 0x80 <= b <= 0xBF
  }

  /** The number of escapes from position `k` on that continue the sequence, which
      needs `n` bytes in all. */
  function ContinuationCount(s: string, lead: nat, n: nat, k: nat): (m: nat)
    requires 1 <= k <= n
    ensures m <= n - k
    ensures forall j :: k <= j < k + m ==> EscapeAt(s, 3 * j).Some? && Continues(lead, j, EscapeAt(s, 3 * j).value)
    decreases n - k
  {
    if k < n && EscapeAt(s, 3 * k).Some? && Continues(lead, k, EscapeAt(s, 3 * k).value)
    then 1 + ContinuationCount(s, lead, n, k + 1)
    else 0
  }

  /** The six payload bits of the continuation escape at position `k`. */
  function Bits(s: string, k: nat): (v: nat)
    requires EscapeAt(s, 3 * k).Some? && 0x80 <= EscapeAt(s, 3 * k).value
    ensures v < 256
  {
    EscapeAt(s, 3 * k).value - 0x80
  }

  /** The code point of a well-formed sequence of `n` escapes at the start of `s`. */
  function CodePoint(s: string, lead: nat, n: nat): (c: char)
    requires 2 <= n == SequenceLength(lead) && ContinuationCount(s, lead, n, 1) == n - 1
  {
    assert EscapeAt(s, 3).Some? && Continues(lead, 1, EscapeAt(s, 3).value);
    if n == 2 then ((lead - 0xC0) * 64 + Bits(s, 1)) as char
    else if n == 3 then
      assert EscapeAt(s, 6).Some? && Continues(lead, 2, EscapeAt(s, 6).value);
      ((lead - 0xE0) * 4096 + Bits(s, 1) * 64 + Bits(s, 2)) as char
    else
      assert EscapeAt(s, 6).Some? && Continues(lead, 2, EscapeAt(s, 6).value);
      assert EscapeAt(s, 9).Some? && Continues(lead, 3, EscapeAt(s, 9).value);
      ((lead - 0xF0) * 262144 + Bits(s, 1) * 4096 + Bits(s, 2) * 64 + Bits(s, 3)) as char
  }

  /** The text `unquote` makes of the start of `s`, and how much of `s` that takes.
      Escapes are gathered into UTF-8 sequences; an ill-formed one becomes U+FFFD for
      its lead byte and the continuation bytes that were valid, as the `replace`
      error handler does. */
  function DecodeHead(s: string): (r: (string, nat))
    requires s != []
    ensures 0 < r.1 <= |s|
  {
    var e := EscapeAt(s, 0);
    if e.None? then ([s[0]], 1)
    else
      var lead := e.value;
      var n := SequenceLength(lead);
      if n == 1 then ([lead as char], 3)
      else if n == 0 then (['�'], 3)
      else
        var m := ContinuationCount(s, lead, n, 1);
        if m == n - 1 then
          assert EscapeAt(s, 3 * (n - 1)).Some?;
          ([CodePoint(s, lead, n)], 3 * n)
        else
          assert m > 0 ==> EscapeAt(s, 3 * m).Some?;
          (['�'], 3 * (m + 1))
  }

  /** `urllib.parse.unquote` with UTF-8 and the `replace` error handler. */
  function Unquote(s: string): (r: string)
    decreases |s|
  {
    if s == [] then []
    else
      var (t, n) := DecodeHead(s);
      t + Unquote(s[n..])
  }

  /** Text without `%` is its own unquoting. */
  lemma {:induction false} UnquotePlain(s: string)
    requires !HasChar(s, '%')
    ensures Unquote(s) == s
    decreases |s|
  {
    if s != [] {
      assert !HasChar(s[1..], '%') by { forall j | 0 <= j < |s| - 1 ensures s[1..][j] != '%' { assert s[1..][j] == s[j + 1]; } }
      UnquotePlain(s[1..]);
    }
  }

  /** The characters `quote` never escapes. */
  predicate IsUnreserved(c: char) {
    IsAsciiLetter(c) || IsDigit(c) || c == '_' || c == '.' || c == '-' || c == '~'
  }

  /** The UTF-8 encoding of a character, six bits per continuation byte. */
  function Utf8(c: char): (bs: seq<nat>)
    ensures 1 <= |bs| <= 4
    ensures forall k :: 0 <= k < |bs| ==> bs[k] < 256
  {
    var v := c as int;
    var q1 := v / 64;
    var q2 := q1 / 64;
    var q3 := q2 / 64;
    if v < 0x80 then [v]
    else if v < 0x800 then [0xC0 + q1, 0x80 + v % 64]
    else if v < 0x10000 then [0xE0 + q2, 0x80 + q1 % 64, 0x80 + v % 64]
    else [0xF0 + q3, 0x80 + q2 % 64, 0x80 + q1 % 64, 0x80 + v % 64]
  }

  /** `%XX` for one byte. */
  function PercentByte(b: nat): (r: string)
    requires b < 256
    ensures |r| == 3 && EscapeAt(r, 0) == Some(b)
  {
    var r := ['%', HexDigits[b / 16], HexDigits[b % 16]];
    HexDigitValue(b / 16);
    HexDigitValue(b % 16);
    r
  }

  lemma HexDigitValue(d: nat)
    requires d < 16
    ensures IsHexDigit(HexDigits[d]) && HexValue(HexDigits[d]) == d
  {
  }

  function PercentBytes(bs: seq<nat>): (r: string)
    requires forall k :: 0 <= k < |bs| ==> bs[k] < 256
    ensures |r| == 3 * |bs|
  {
    if bs == [] then [] else PercentByte(bs[0]) + PercentBytes(bs[1..])
  }

  /** The escapes of `PercentBytes(bs)` read back as `bs`. */
  lemma {:induction false} EscapesOfBytes(bs: seq<nat>, rest: string, k: nat)
    requires forall j :: 0 <= j < |bs| ==> bs[j] < 256
    requires k < |bs|
    ensures EscapeAt(PercentBytes(bs) + rest, 3 * k) == Some(bs[k])
  {
    if k == 0 {
      PercentBytesCons(bs, rest);
      EscapeFront(PercentByte(bs[0]), PercentBytes(bs[1..]) + rest);
    } else {
      var bs' := bs[1..];
      assert forall j :: 0 <= j < |bs'| ==> bs'[j] < 256 by {
        forall j | 0 <= j < |bs'| ensures bs'[j] < 256 { assert bs'[j] == bs[j + 1]; }
      }
      EscapesOfBytes(bs', rest, k - 1);
      assert bs'[k - 1] == bs[k];
      EscapeStepBack(bs, rest, 3 * (k - 1));
      assert 3 * (k - 1) + 3 == 3 * k;
    }
  }

  /** Behind the first byte's escape, the later escapes sit three characters on. */
  lemma EscapeStepBack(bs: seq<nat>, rest: string, i: nat)
    requires forall j :: 0 <= j < |bs| ==> bs[j] < 256
    requires 0 < |bs|
    ensures EscapeAt(PercentBytes(bs) + rest, i + 3) == EscapeAt(PercentBytes(bs[1..]) + rest, i)
  {
    var p, t := PercentByte(bs[0]), PercentBytes(bs[1..]) + rest;
    PercentBytesCons(bs, rest);
    EscapeShift(p, t, i);
  }

  lemma PercentBytesCons(bs: seq<nat>, rest: string)
    requires forall j :: 0 <= j < |bs| ==> bs[j] < 256
    requires bs != []
    ensures PercentBytes(bs) + rest == PercentByte(bs[0]) + (PercentBytes(bs[1..]) + rest)
  {
    var p, q := PercentByte(bs[0]), PercentBytes(bs[1..]);
    assert PercentBytes(bs) == p + q;
    Regroup(p, q, rest);
  }

  lemma Regroup(p: string, q: string, r: string)
    ensures (p + q) + r == p + (q + r)
  {
  }

  lemma EscapeShift(p: string, t: string, i: nat)
    ensures EscapeAt(p + t, |p| + i) == EscapeAt(t, i)
  {
    var s := p + t;
    if i + 3 <= |t| {
      assert s[|p| + i] == t[i] && s[|p| + i + 1] == t[i + 1] && s[|p| + i + 2] == t[i + 2];
    }
  }

  lemma EscapeFront(p: string, t: string)
    requires |p| >= 3
    ensures EscapeAt(p + t, 0) == EscapeAt(p, 0)
  {
    var s := p + t;
    assert s[0] == p[0] && s[1] == p[1] && s[2] == p[2];
  }

  /** `quote(c, safe="")` for one character. */
  function QuoteChar(c: char): (r: string)
    ensures |r| > 0
  {
    if IsUnreserved(c) then [c] else PercentBytes(Utf8(c))
  }

  /** `urllib.parse.quote(s, safe="")`: every character but the unreserved ones
      (section 2.3 of RFC 3986) becomes the `%XX` escapes of its UTF-8 bytes. */
  function Quote(s: string): (r: string)
    ensures !HasChar(r, '/')
  {
    if s == [] then []
    else
      var q := QuoteChar(s[0]);
      var rest := Quote(s[1..]);
      QuoteCharNoSlash(s[0]);
      NoCharAppend(q, rest);
      q + rest
  }

  lemma QuoteCharNoSlash(c: char)
    ensures !HasChar(QuoteChar(c), '/')
  {
    if !IsUnreserved(c) {
      PercentNoSlash(Utf8(c));
    }
  }

  lemma {:induction false} PercentNoSlash(bs: seq<nat>)
    requires forall k :: 0 <= k < |bs| ==> bs[k] < 256
    ensures !HasChar(PercentBytes(bs), '/')
  {
    if bs != [] {
      PercentNoSlash(bs[1..]);
      var p := PercentByte(bs[0]);
      assert p[1] in HexDigits && p[2] in HexDigits;
      assert !HasChar(p, '/');
      NoCharAppend(p, PercentBytes(bs[1..]));
    }
  }

  lemma QuoteAppend(a: string, b: string)
    ensures Quote(a + b) == Quote(a) + Quote(b)
  {
    if a != [] {
      assert (a + b)[1..] == a[1..] + b;
      QuoteAppend(a[1..], b);
    } else {
      assert a + b == b;
    }
  }

  /** The escapes of one quoted character decode to that character. */
  lemma DecodeQuoted(c: char, rest: string)
    ensures DecodeHead(QuoteChar(c) + rest) == ([c], |QuoteChar(c)|)
  {
    var v := c as int;
    if IsUnreserved(c) {
      var s := QuoteChar(c) + rest;
      assert s[0] == c;
    } else if v < 0x80 {
      DecodeQuotedOne(c, rest);
    } else if v < 0x800 {
      DecodeQuotedTwo(c, rest);
    } else if v < 0x10000 {
      DecodeQuotedThree(c, rest);
    } else {
      DecodeQuotedFour(c, rest);
    }
  }

  lemma DecodeQuotedOne(c: char, rest: string)
    requires !IsUnreserved(c) && c as int < 0x80
    ensures DecodeHead(QuoteChar(c) + rest) == ([c], |QuoteChar(c)|)
  {
    var s := QuoteChar(c) + rest;
    EscapesOfBytes(Utf8(c), rest, 0);
    assert EscapeAt(s, 0) == Some(c as int);
  }

  lemma DecodeQuotedTwo(c: char, rest: string)
    requires !IsUnreserved(c) && 0x80 <= c as int < 0x800
    ensures DecodeHead(QuoteChar(c) + rest) == ([c], |QuoteChar(c)|)
  {
    var bs := Utf8(c);
    EscapesOfBytes(bs, rest, 0);
    EscapesOfBytes(bs, rest, 1);
    DecodeTwo(QuoteChar(c) + rest, c);
  }

  lemma DecodeQuotedThree(c: char, rest: string)
    requires !IsUnreserved(c) && 0x800 <= c as int < 0x10000
    ensures DecodeHead(QuoteChar(c) + rest) == ([c], |QuoteChar(c)|)
  {
    var bs := Utf8(c);
    EscapesOfBytes(bs, rest, 0);
    EscapesOfBytes(bs, rest, 1);
    EscapesOfBytes(bs, rest, 2);
    DecodeThree(QuoteChar(c) + rest, c);
  }

  lemma DecodeQuotedFour(c: char, rest: string)
    requires !IsUnreserved(c) && 0x10000 <= c as int
    ensures DecodeHead(QuoteChar(c) + rest) == ([c], |QuoteChar(c)|)
  {
    var bs := Utf8(c);
    EscapesOfBytes(bs, rest, 0);
    EscapesOfBytes(bs, rest, 1);
    EscapesOfBytes(bs, rest, 2);
    EscapesOfBytes(bs, rest, 3);
    DecodeFour(QuoteChar(c) + rest, c);
  }

  lemma DecodeTwo(s: string, c: char)
    requires 0x80 <= c as int < 0x800 && s != []
    requires EscapeAt(s, 0) == Some(Utf8(c)[0]) && EscapeAt(s, 3) == Some(Utf8(c)[1])
    ensures DecodeHead(s) == ([c], 6)
  {
    var v := c as int;
    var lead := 0xC0 + v / 64;
    assert Utf8(c) == [lead, 0x80 + v % 64];
    assert SequenceLength(lead) == 2;
    assert ContinuationCount(s, lead, 2, 2) == 0;
    assert ContinuationCount(s, lead, 2, 1) == 1;
    assert (v / 64) * 64 + v % 64 == v;
  }

  lemma DecodeThree(s: string, c: char)
    requires 0x800 <= c as int < 0x10000 && s != []
    requires EscapeAt(s, 0) == Some(Utf8(c)[0]) && EscapeAt(s, 3) == Some(Utf8(c)[1])
    requires EscapeAt(s, 6) == Some(Utf8(c)[2])
    ensures DecodeHead(s) == ([c], 9)
  {
    var v := c as int;
    var q1 := v / 64;
    var q2 := q1 / 64;
    var lead := 0xE0 + q2;
    assert Utf8(c) == [lead, 0x80 + q1 % 64, 0x80 + v % 64];
    assert v == q1 * 64 + v % 64 && q1 == q2 * 64 + q1 % 64;
    assert SequenceLength(lead) == 3;
    assert Continues(lead, 1, 0x80 + q1 % 64);
    assert ContinuationCount(s, lead, 3, 3) == 0;
    assert ContinuationCount(s, lead, 3, 1) == 2;
  }

  lemma DecodeFour(s: string, c: char)
    requires 0x10000 <= c as int && s != []
    requires EscapeAt(s, 0) == Some(Utf8(c)[0]) && EscapeAt(s, 3) == Some(Utf8(c)[1])
    requires EscapeAt(s, 6) == Some(Utf8(c)[2]) && EscapeAt(s, 9) == Some(Utf8(c)[3])
    ensures DecodeHead(s) == ([c], 12)
  {
    var v := c as int;
    var q1 := v / 64;
    var q2 := q1 / 64;
    var q3 := q2 / 64;
    var lead := 0xF0 + q3;
    assert Utf8(c) == [lead, 0x80 + q2 % 64, 0x80 + q1 % 64, 0x80 + v % 64];
    assert v == q1 * 64 + v % 64 && q1 == q2 * 64 + q1 % 64 && q2 == q3 * 64 + q2 % 64;
    assert SequenceLength(lead) == 4;
    assert Continues(lead, 1, 0x80 + q2 % 64);
    assert ContinuationCount(s, lead, 4, 4) == 0;
    assert ContinuationCount(s, lead, 4, 1) == 3;
  }

  /** `unquote(quote(s, safe="")) == s`. */
  lemma {:induction false} UnquoteQuote(s: string)
    ensures Unquote(Quote(s)) == s
    decreases |s|
  {
    if s != [] {
      var q := QuoteChar(s[0]);
      var t := q + Quote(s[1..]);
      assert Quote(s) == t;
      DecodeQuoted(s[0], Quote(s[1..]));
      assert t[|q|..] == Quote(s[1..]);
      UnquoteQuote(s[1..]);
    }
  }
}
