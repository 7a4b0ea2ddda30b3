/** The Sentry command line: its environment settings, the parser of the
    `Link` pagination header (the fixed shape Sentry writes, a subset of the
    Link header of section 3 of RFC 8288), the parser of issue URLs, the
    wrapping of list responses, and the request parts of the commands.
    The environment is a map and the HTTP answers are parameters. */
module Sentry {
  import opened Wrappers
  import opened Text
  import opened Json
  import Url

  // ---------------------------------------------------------------------------
  // Environment

  /** `_env`: `v.strip() if v else None`. Only an unset or empty variable reads
      as `None`; a blank one reads as the empty string. */
  function Env(env: map<string, string>, name: string): (r: Option<string>)
    ensures r.None? <==> name !in env || env[name] == []
  {
    if name in env && env[name] != [] then Some(Strip(env[name])) else None
  }

  /** A blank, non-empty variable is read as `""` rather than `None`. */
  lemma EnvBlank(env: map<string, string>, name: string)
    requires name in env && env[name] != [] && Strip(env[name]) == []
    ensures Env(env, name) == Some("")
  {
  }

  /** `_require_env`: the value, or an error naming the variable; the empty
      string of a blank variable is refused like an unset one. */
  function RequireEnv(env: map<string, string>, name: string): (r: Result<string>)
    ensures r.Ok? <==> Env(env, name).Some? && Env(env, name).value != []
    ensures r.Ok? ==> r.value == Env(env, name).value
  {
    var v := Env(env, name);
    if v.None? || v.value == [] then Err("[ERROR] 환경변수 " + name + " 이(가) 설정되지 않았습니다.")
    else Ok(v.value)
  }

  /** `x or default` for an optional string. */
  function OrDefault(v: Option<string>, default: string): (r: string)
    ensures v.Some? && v.value != [] ==> r == v.value
    ensures v.None? || v.value == [] ==> r == default
  {
    if v.Some? && v.value != [] then v.value else default
  }

  const DefaultApiUrl := "https://sentry.gabia.io:9000"

  /** `_api_base`: the configured URL or the default, without trailing `/`. */
  function ApiBase(env: map<string, string>): (r: string)
    ensures r == [] || r[|r| - 1] != '/'
  {
    RStripCharSpec(OrDefault(Env(env, "SENTRY_API_URL"), DefaultApiUrl), '/');
    RStripChar(OrDefault(Env(env, "SENTRY_API_URL"), DefaultApiUrl), '/')
  }

  /** `_org_slug`. */
  function OrgSlug(env: map<string, string>): string {
    OrDefault(Env(env, "SENTRY_ORG"), "sentry-gabia")
  }

  /** `_ssl_context`: certificates are NOT checked when `SENTRY_SSL_VERIFY` is
      unset, blank, or one of `0`, `false`, `no` in any letter case. */
  function SkipsCertificateCheck(env: map<string, string>): (r: bool)
    ensures Env(env, "SENTRY_SSL_VERIFY").None? ==> r
  {
    assert Lower("false") == "false";
    Lower(OrDefault(Env(env, "SENTRY_SSL_VERIFY"), "false")) in {"0", "false", "no"}
  }

  // ---------------------------------------------------------------------------
  // Fields of the two patterns

  /** The character classes the patterns repeat: `[^c]`, `\w`, `\s`, `\d`. */
  datatype CharClass = Except(c: char) | Word | Space | Digit

  predicate In(c: char, k: CharClass) {
    match k
    case Except(x) => c != x
    case Word => IsWordChar(c)
    case Space => IsSpace(c)
    case Digit => IsDigit(c)
  }

  predicate AllIn(t: string, k: CharClass) {
    forall j :: 0 <= j < |t| ==> In(t[j], k)
  }

  /** The end of the longest run of class `k` from `i`. */
  function Run(s: string, i: nat, k: CharClass): (j: nat)
    requires i <= |s|
    ensures i <= j <= |s|
    ensures forall m :: i <= m < j ==> In(s[m], k)
    ensures j == |s| || !In(s[j], k)
    decreases |s| - i
  {
    if i == |s| || !In(s[i], k) then i else Run(s, i + 1, k)
  }

  /** A text found at `i` splits into its two halves. */
  lemma OccursSplit(s: string, a: string, b: string, i: int)
    requires OccursAt(s, a + b, i)
    ensures OccursAt(s, a, i) && OccursAt(s, b, i + |a|)
  {
    assert s[i..i + |a|] == s[i..i + |a + b|][..|a|];
    assert s[i + |a|..i + |a| + |b|] == s[i..i + |a + b|][|a|..];
  }

  /** Two texts found one after the other form their concatenation. */
  lemma OccursJoin(s: string, a: string, b: string, i: int)
    requires OccursAt(s, a, i) && OccursAt(s, b, i + |a|)
    ensures OccursAt(s, a + b, i)
  {
    assert s[i..i + |a + b|] == s[i..i + |a|] + s[i + |a|..i + |a| + |b|];
  }

  /** The first character of a text found at `i`. */
  lemma OccursHead(s: string, t: string, i: int)
    requires OccursAt(s, t, i) && t != []
    ensures i < |s| && s[i] == t[0]
  {
    assert s[i..i + |t|][0] == s[i];
  }

  /** A run of the class, found at `i` and followed by a character outside it,
      is the run the scanner takes. */
  lemma RunAt(s: string, i: nat, t: string, k: CharClass)
    requires OccursAt(s, t, i) && AllIn(t, k) && i + |t| < |s| && !In(s[i + |t|], k)
    ensures Run(s, i, k) == i + |t|
    decreases |t|
  {
    if t != [] {
      assert s[i] == t[0];
      assert OccursAt(s, t[1..], i + 1) by { assert s[i + 1..i + 1 + |t[1..]|] == s[i..i + |t|][1..]; }
      RunAt(s, i + 1, t[1..], k);
    }
  }

  /** The text of one field: an opening text, the group, a closing text. */
  function FieldText(open: string, t: string, close: string): string {
    open + (t + close)
  }

  /** One field of a pattern matched at `i`: the text `open`, the longest run
      of class `k` (which must be non-empty when `plus`), then the text
      `close`. The result is the group and the position after `close`. */
  function Field(s: string, i: nat, open: string, k: CharClass, plus: bool, close: string): (r: Option<(string, nat)>)
    ensures r.Some? ==> AllIn(r.value.0, k) && (plus ==> r.value.0 != []) && r.value.1 <= |s|
  {
    if !OccursAt(s, open, i) then None
    else
      var j := Run(s, i + |open|, k);
      if (plus && j == i + |open|) || !OccursAt(s, close, j) then None
      else
        var t := s[i + |open|..j];
        assert AllIn(t, k) by { assert forall m :: 0 <= m < |t| ==> t[m] == s[i + |open| + m]; }
        Some((t, j + |close|))
  }

  /** A field matched at `i` stands for its own text there. */
  lemma FieldSound(s: string, i: nat, open: string, k: CharClass, plus: bool, close: string)
    requires Field(s, i, open, k, plus, close).Some?
    ensures var r := Field(s, i, open, k, plus, close);
      r.value.1 == i + |FieldText(open, r.value.0, close)| && OccursAt(s, FieldText(open, r.value.0, close), i)
  {
    var j := Run(s, i + |open|, k);
    var t := s[i + |open|..j];
    OccursJoin(s, t, close, i + |open|);
    OccursJoin(s, open, t + close, i);
  }

  /** A field's text, with a group of the class that the closing text cannot
      continue, is matched with exactly that group. */
  lemma FieldAt(s: string, i: nat, open: string, k: CharClass, plus: bool, close: string, t: string)
    requires close != [] && !In(close[0], k) && AllIn(t, k) && (plus ==> t != [])
    requires OccursAt(s, FieldText(open, t, close), i)
    ensures Field(s, i, open, k, plus, close) == Some((t, i + |FieldText(open, t, close)|))
  {
    FieldParts(s, i, open, k, close, t);
    assert |FieldText(open, t, close)| == |open| + |t| + |close|;
  }

  /** The pieces of a field's text: the opening text, a run of the class that
      stops where the closing text begins, and the closing text. */
  lemma FieldParts(s: string, i: nat, open: string, k: CharClass, close: string, t: string)
    requires close != [] && !In(close[0], k) && AllIn(t, k)
    requires OccursAt(s, FieldText(open, t, close), i)
    ensures var j := i + |open| + |t|;
      OccursAt(s, open, i) && j <= |s| && Run(s, i + |open|, k) == j && s[i + |open|..j] == t && OccursAt(s, close, j)
  {
    OccursSplit(s, open, t + close, i);
    OccursSplit(s, t, close, i + |open|);
    OccursHead(s, close, i + |open| + |t|);
    RunAt(s, i + |open|, t, k);
  }

  /** One field of a pattern: `\s*` before it when `lead`, then `open`, a
      group of class `k` (`+` when `plus`, `*` otherwise), then `close`. */
  datatype FieldSpec = FieldSpec(lead: bool, open: string, k: CharClass, plus: bool, close: string)

  /** A pattern made of fields, matched at `i`: the groups, in order. */
  function Fields(s: string, i: nat, ps: seq<FieldSpec>): (r: Option<seq<string>>)
    requires i <= |s|
    ensures r.Some? ==> |r.value| == |ps|
    ensures r.Some? ==> forall n :: 0 <= n < |ps| ==> AllIn(r.value[n], ps[n].k) && (ps[n].plus ==> r.value[n] != [])
    decreases |ps|
  {
    if ps == [] then Some([])
    else
      var j := if ps[0].lead then Run(s, i, Space) else i;
      var f := Field(s, j, ps[0].open, ps[0].k, ps[0].plus, ps[0].close);
      if f.None? then None
      else
        var rest := Fields(s, f.value.1, ps[1..]);
        if rest.None? then None else Some([f.value.0] + rest.value)
  }

  /** The text of a pattern with the given groups and, before each field that
      allows them, the given blanks. */
  function PatternText(ps: seq<FieldSpec>, groups: seq<string>, blanks: seq<string>): string
    requires |groups| == |ps| && |blanks| == |ps|
    decreases |ps|
  {
    if ps == [] then []
    else (blanks[0] + FieldText(ps[0].open, groups[0], ps[0].close)) + PatternText(ps[1..], groups[1..], blanks[1..])
  }

  /** The groups and blanks a pattern's text can be written with: each group
      of its field's class, and non-empty for `+`; blanks only where `\s*`
      stands. */
  predicate Fits(ps: seq<FieldSpec>, groups: seq<string>, blanks: seq<string>) {
    |groups| == |ps| && |blanks| == |ps|
    && forall n :: 0 <= n < |ps| ==>
         AllIn(groups[n], ps[n].k) && (ps[n].plus ==> groups[n] != [])
         && (if ps[n].lead then AllIn(blanks[n], Space) else blanks[n] == [])
  }

  /** A pattern whose repetitions each stop where the next part begins: a
      closing text starts outside its group's class, and an opening text after
      `\s*` starts with a non-blank. */
  predicate Unambiguous(ps: seq<FieldSpec>) {
    forall n :: 0 <= n < |ps| ==>
      ps[n].close != [] && !In(ps[n].close[0], ps[n].k)
      && (ps[n].lead ==> ps[n].open != [] && !In(ps[n].open[0], Space))
  }

  /** The first field of a pattern's text is matched with its own group, and
      the text of the other fields follows it. */
  lemma FirstField(s: string, i: nat, ps: seq<FieldSpec>, groups: seq<string>, blanks: seq<string>)
    requires ps != [] && Unambiguous(ps) && Fits(ps, groups, blanks)
    requires OccursAt(s, PatternText(ps, groups, blanks), i)
    ensures var next := i + |blanks[0]| + |FieldText(ps[0].open, groups[0], ps[0].close)|;
      Field(s, if ps[0].lead then Run(s, i, Space) else i, ps[0].open, ps[0].k, ps[0].plus, ps[0].close)
        == Some((groups[0], next))
      && OccursAt(s, PatternText(ps[1..], groups[1..], blanks[1..]), next)
  {
    var p, g, b := ps[0], groups[0], blanks[0];
    assert p.close != [] && !In(p.close[0], p.k) && (p.lead ==> p.open != [] && !In(p.open[0], Space)) by {
      assert Unambiguous(ps);
    }
    assert AllIn(g, p.k) && (p.plus ==> g != []) && (if p.lead then AllIn(b, Space) else b == []) by {
      assert Fits(ps, groups, blanks);
    }
    var rest := PatternText(ps[1..], groups[1..], blanks[1..]);
    assert PatternText(ps, groups, blanks) == (b + FieldText(p.open, g, p.close)) + rest;
    FieldAhead(s, i, p, g, b, rest);
  }

  /** One field's text, after its blanks and before a rest: the field is
      matched with its group, and the rest follows. */
  lemma FieldAhead(s: string, i: nat, p: FieldSpec, g: string, b: string, rest: string)
    requires p.close != [] && !In(p.close[0], p.k) && (p.lead ==> p.open != [] && !In(p.open[0], Space))
    requires AllIn(g, p.k) && (p.plus ==> g != []) && (if p.lead then AllIn(b, Space) else b == [])
    requires OccursAt(s, (b + FieldText(p.open, g, p.close)) + rest, i)
    ensures var next := i + |b| + |FieldText(p.open, g, p.close)|;
      Field(s, if p.lead then Run(s, i, Space) else i, p.open, p.k, p.plus, p.close) == Some((g, next))
      && OccursAt(s, rest, next)
  {
    var head := FieldText(p.open, g, p.close);
    OccursSplit(s, b + head, rest, i);
    OccursSplit(s, b, head, i);
    LeadingBlanks(s, i, b, p.lead, head);
    var j := if p.lead then Run(s, i, Space) else i;
    assert j == i + |b|;
    FieldAt(s, j, p.open, p.k, p.plus, p.close, g);
  }

  /** The blanks before a field are skipped exactly when the field allows them. */
  lemma LeadingBlanks(s: string, i: nat, b: string, lead: bool, head: string)
    requires if lead then AllIn(b, Space) && head != [] && !In(head[0], Space) else b == []
    requires OccursAt(s, b, i) && OccursAt(s, head, i + |b|)
    ensures (if lead then Run(s, i, Space) else i) == i + |b|
  {
    if lead {
      OccursHead(s, head, i + |b|);
      RunAt(s, i, b, Space);
    }
  }

  /** The step of the matcher: the first field, then the others. */
  lemma FieldsStep(s: string, i: nat, ps: seq<FieldSpec>, first: string, next: nat, others: seq<string>)
    requires i <= |s| && next <= |s| && ps != []
    requires Field(s, if ps[0].lead then Run(s, i, Space) else i, ps[0].open, ps[0].k, ps[0].plus, ps[0].close) == Some((first, next))
    requires Fields(s, next, ps[1..]) == Some(others)
    ensures Fields(s, i, ps) == Some([first] + others)
  {
  }

  /** The fields after the first keep both properties. */
  lemma RestFits(ps: seq<FieldSpec>, groups: seq<string>, blanks: seq<string>)
    requires ps != [] && Unambiguous(ps) && Fits(ps, groups, blanks)
    ensures Unambiguous(ps[1..]) && Fits(ps[1..], groups[1..], blanks[1..])
  {
    forall n | 0 <= n < |ps| - 1 ensures ps[1..][n] == ps[n + 1] && groups[1..][n] == groups[n + 1] && blanks[1..][n] == blanks[n + 1] { }
  }

  /** The matcher reads back the groups of every text of an unambiguous
      pattern. */
  lemma {:induction false} FieldsText(s: string, i: nat, ps: seq<FieldSpec>, groups: seq<string>, blanks: seq<string>)
    requires Unambiguous(ps) && Fits(ps, groups, blanks)
    requires OccursAt(s, PatternText(ps, groups, blanks), i)
    ensures Fields(s, i, ps) == Some(groups)
    decreases |ps|
  {
    if ps != [] {
      FirstField(s, i, ps, groups, blanks);
      RestFits(ps, groups, blanks);
      var next := i + |blanks[0]| + |FieldText(ps[0].open, groups[0], ps[0].close)|;
      FieldsText(s, next, ps[1..], groups[1..], blanks[1..]);
      FieldsStep(s, i, ps, groups[0], next, groups[1..]);
      assert groups == [groups[0]] + groups[1..];
    }
  }

  /** What the first field of a pattern fits, with what the other fields fit. */
  lemma FitsCons(ps: seq<FieldSpec>, t: string, b: string, groups: seq<string>, blanks: seq<string>)
    requires ps != [] && Fits(ps[1..], groups, blanks)
    requires AllIn(t, ps[0].k) && (ps[0].plus ==> t != [])
    requires if ps[0].lead then AllIn(b, Space) else b == []
    ensures Fits(ps, [t] + groups, [b] + blanks)
  {
    forall n | 1 <= n < |ps| ensures ps[n] == ps[1..][n - 1] && ([t] + groups)[n] == groups[n - 1] && ([b] + blanks)[n] == blanks[n - 1] { }
  }

  /** The groups and blanks of a matched first field, followed by those of
      the other fields, fit the whole pattern. */
  lemma SoundFits(s: string, i: nat, j: nat, ps: seq<FieldSpec>, t: string, next: nat,
                  others: seq<string>, rb: seq<string>)
    requires i <= |s| && ps != []
    requires j == if ps[0].lead then Run(s, i, Space) else i
    requires Field(s, j, ps[0].open, ps[0].k, ps[0].plus, ps[0].close) == Some((t, next))
    requires Fits(ps[1..], others, rb)
    ensures i <= j <= |s|
    ensures Fits(ps, [t] + others, [s[i..j]] + rb)
  {
    FitsCons(ps, t, LeadingBlank(s, i, ps[0].lead), others, rb);
  }

  /** The text of a matched first field, followed by the text of the other
      fields, is the text of the whole pattern. */
  lemma SoundStep(s: string, i: nat, j: nat, ps: seq<FieldSpec>, t: string, next: nat,
                  others: seq<string>, rb: seq<string>)
    requires i <= j <= |s| && ps != [] && |others| == |ps| - 1 && |rb| == |ps| - 1
    requires Field(s, j, ps[0].open, ps[0].k, ps[0].plus, ps[0].close) == Some((t, next))
    requires OccursAt(s, PatternText(ps[1..], others, rb), next)
    ensures OccursAt(s, PatternText(ps, [t] + others, [s[i..j]] + rb), i)
  {
    var p := ps[0];
    FieldSound(s, j, p.open, p.k, p.plus, p.close);
    var head := FieldText(p.open, t, p.close);
    assert next == j + |head| && OccursAt(s, head, j);
    var b := s[i..j];
    assert |b| == j - i && OccursAt(s, b, i);
    PatternCons(s, i, ps, t, b, others, rb);
  }

  /** The text of a first field, found after its blanks and followed by the
      text of the other fields, is the text of the pattern. */
  lemma PatternCons(s: string, i: nat, ps: seq<FieldSpec>, t: string, b: string, others: seq<string>, rb: seq<string>)
    requires ps != [] && |others| == |ps| - 1 && |rb| == |ps| - 1
    requires OccursAt(s, b, i) && OccursAt(s, FieldText(ps[0].open, t, ps[0].close), i + |b|)
    requires OccursAt(s, PatternText(ps[1..], others, rb), i + |b| + |FieldText(ps[0].open, t, ps[0].close)|)
    ensures OccursAt(s, PatternText(ps, [t] + others, [b] + rb), i)
  {
    var groups := [t] + others;
    var blanks := [b] + rb;
    assert groups[1..] == others && blanks[1..] == rb;
    var head := FieldText(ps[0].open, t, ps[0].close);
    assert PatternText(ps, groups, blanks) == (b + head) + PatternText(ps[1..], others, rb);
    OccursJoin(s, b, head, i);
    OccursJoin(s, b + head, PatternText(ps[1..], others, rb), i);
  }

  /** The blanks skipped before a field. */
  function LeadingBlank(s: string, i: nat, lead: bool): (b: string)
    requires i <= |s|
    ensures AllIn(b, Space)
    ensures b == s[i..if lead then Run(s, i, Space) else i]
  {
    var j := if lead then Run(s, i, Space) else i;
    var b := s[i..j];
    assert forall m :: 0 <= m < |b| ==> b[m] == s[i + m];
    b
  }

  /** Every match of a pattern is the pattern's text for its groups and for
      the blanks it skipped. */
  lemma {:induction false} FieldsSound(s: string, i: nat, ps: seq<FieldSpec>)
    requires i <= |s| && Fields(s, i, ps).Some?
    ensures exists blanks :: Fits(ps, Fields(s, i, ps).value, blanks)
                             && OccursAt(s, PatternText(ps, Fields(s, i, ps).value, blanks), i)
    decreases |ps|
  {
    var groups := Fields(s, i, ps).value;
    if ps == [] {
      assert Fits(ps, groups, []) && OccursAt(s, PatternText(ps, groups, []), i);
    } else {
      var j := if ps[0].lead then Run(s, i, Space) else i;
      var f := Field(s, j, ps[0].open, ps[0].k, ps[0].plus, ps[0].close);
      FieldsSound(s, f.value.1, ps[1..]);
      var others := Fields(s, f.value.1, ps[1..]).value;
      var rb :| Fits(ps[1..], others, rb) && OccursAt(s, PatternText(ps[1..], others, rb), f.value.1);
      SoundFits(s, i, j, ps, f.value.0, f.value.1, others, rb);
      SoundStep(s, i, j, ps, f.value.0, f.value.1, others, rb);
      FieldsStep(s, i, ps, f.value.0, f.value.1, others);
    }
  }

  // ---------------------------------------------------------------------------
  // Link header

  /** The groups of one `<URL>; rel="NAME"; results="WORD"; cursor="C"` match. */
  datatype Link = Link(url: string, rel: string, results: string, cursor: string)

  /** The pattern `<([^>]+)>;\s*rel="(\w+)";\s*results="(\w+)";\s*cursor="([^"]*)"`. */
  const LinkPattern := [
    FieldSpec(false, "<", Except('>'), true, ">;"),
    FieldSpec(true, "rel=\"", Word, true, "\";"),
    FieldSpec(true, "results=\"", Word, true, "\";"),
    FieldSpec(true, "cursor=\"", Except('"'), false, "\"")]

  function Groups(l: Link): seq<string> {
    [l.url, l.rel, l.results, l.cursor]
  }

  /** The fields a match can have: a non-empty URL without `>`, a non-empty
      word name and results word, and a cursor without `"`. */
  predicate WellFormed(l: Link) {
    l.url != [] && AllIn(l.url, Except('>')) && l.rel != [] && AllIn(l.rel, Word)
    && l.results != [] && AllIn(l.results, Word) && AllIn(l.cursor, Except('"'))
  }

  /** The Link pattern matched at `i`. Every repetition in it is followed by a
      character it cannot take, so the match at a given start is the greedy one. */
  function LinkAt(s: string, i: nat): (r: Option<Link>)
    requires i <= |s|
    ensures r.Some? ==> WellFormed(r.value)
  {
    var g := Fields(s, i, LinkPattern);
    if g.None? then None else Some(Link(g.value[0], g.value[1], g.value[2], g.value[3]))
  }

  /** The text of a link part, with any blank runs `sp1`, `sp2`, `sp3` where the
      pattern allows `\s*`. */
  function LinkText(l: Link, sp1: string, sp2: string, sp3: string): string {
    PatternText(LinkPattern, Groups(l), ["", sp1, sp2, sp3])
  }

  /** Every part of that shape matches at its start, with exactly its own
      fields: the scanner and the text agree. */
  lemma LinkAtText(s: string, i: nat, l: Link, sp1: string, sp2: string, sp3: string)
    requires WellFormed(l) && AllIn(sp1, Space) && AllIn(sp2, Space) && AllIn(sp3, Space)
    requires OccursAt(s, LinkText(l, sp1, sp2, sp3), i)
    ensures LinkAt(s, i) == Some(l)
  {
    LinkFits(l, sp1, sp2, sp3);
    FieldsText(s, i, LinkPattern, Groups(l), ["", sp1, sp2, sp3]);
  }

  /** The Link pattern is unambiguous, and a well-formed link with blank
      runs fits it. */
  lemma LinkFits(l: Link, sp1: string, sp2: string, sp3: string)
    requires WellFormed(l) && AllIn(sp1, Space) && AllIn(sp2, Space) && AllIn(sp3, Space)
    ensures Unambiguous(LinkPattern) && Fits(LinkPattern, Groups(l), ["", sp1, sp2, sp3])
  {
  }

  /** A pattern whose first field has no blanks before it matches only where
      its opening text begins. */
  lemma FieldsOpen(s: string, i: nat, ps: seq<FieldSpec>)
    requires i <= |s| && ps != [] && !ps[0].lead && ps[0].open != []
    requires Fields(s, i, ps).Some?
    ensures i < |s| && s[i] == ps[0].open[0]
  {
    assert Field(s, i, ps[0].open, ps[0].k, ps[0].plus, ps[0].close).Some?;
    OccursHead(s, ps[0].open, i);
  }

  /** The first index from `i` holding `true`, or `|h|` when there is none. */
  function FirstTrue(h: seq<bool>, i: nat): (j: nat)
    requires i <= |h|
    ensures i <= j <= |h|
    ensures j < |h| ==> h[j]
    ensures forall m :: i <= m < j ==> !h[m]
    decreases |h| - i
  {
    if i == |h| then |h| else if h[i] then i else FirstTrue(h, i + 1)
  }

  /** Where the pattern matches: one flag per start position `0..|s|`. */
  function Hits(s: string, ps: seq<FieldSpec>): (h: seq<bool>)
    ensures |h| == |s| + 1
    ensures forall m :: 0 <= m <= |s| ==> h[m] == Fields(s, m, ps).Some?
  {
    seq(|s| + 1, m requires 0 <= m <= |s| => Fields(s, m, ps).Some?)
  }

  /** The first start position from `i` where the pattern matches, or
      `|s| + 1` when there is none; no position before it has a match. */
  function MatchPos(s: string, i: nat, ps: seq<FieldSpec>): (j: nat)
    requires i <= |s|
    ensures i <= j <= |s| + 1
    ensures j <= |s| ==> Fields(s, j, ps).Some?
    ensures forall m :: i <= m < j && m <= |s| ==> Fields(s, m, ps).None?
  {
    FirstTrue(Hits(s, ps), i)
  }

  /** `re.search` for a pattern: the groups of the match at the first start
      position from `i` that has one. */
  function Search(s: string, i: nat, ps: seq<FieldSpec>): (r: Option<seq<string>>)
    requires i <= |s|
    ensures r.Some? <==> MatchPos(s, i, ps) <= |s|
    ensures r.Some? ==> Fields(s, MatchPos(s, i, ps), ps) == r && |r.value| == |ps|
  {
    var j := MatchPos(s, i, ps);
    if j <= |s| then Fields(s, j, ps) else None
  }

  /** The search passes over a position where the pattern's opening text
      does not begin. */
  lemma SearchSkip(s: string, i: nat, ps: seq<FieldSpec>)
    requires i < |s| && ps != [] && !ps[0].lead && ps[0].open != [] && s[i] != ps[0].open[0]
    ensures MatchPos(s, i, ps) == MatchPos(s, i + 1, ps)
  {
    if Fields(s, i, ps).Some? { FieldsOpen(s, i, ps); }
    assert !Hits(s, ps)[i];
  }

  /** A match after a stretch of positions where the opening text does not
      begin is the first match. */
  lemma {:induction false} MatchAfterSkip(s: string, i: nat, j: nat, ps: seq<FieldSpec>)
    requires i <= j <= |s| && ps != [] && !ps[0].lead && ps[0].open != []
    requires Fields(s, j, ps).Some?
    requires forall k :: i <= k < j ==> s[k] != ps[0].open[0]
    ensures MatchPos(s, i, ps) == j
    decreases j - i
  {
    if i < j {
      SearchSkip(s, i, ps);
      MatchAfterSkip(s, i + 1, j, ps);
    }
  }

  /** `re.search` for the Link pattern from position `i`. */
  function LinkSearch(s: string, i: nat): (r: Option<Link>)
    requires i <= |s|
  {
    var g := Search(s, i, LinkPattern);
    if g.None? then None else Some(Link(g.value[0], g.value[1], g.value[2], g.value[3]))
  }

  /** A part whose first `<` starts a link text matches with that link's
      fields, whatever precedes the `<` (the blank after a `,`, say). */
  lemma LinkSearchText(s: string, i: nat, j: nat, l: Link, sp1: string, sp2: string, sp3: string)
    requires i <= j && WellFormed(l) && AllIn(sp1, Space) && AllIn(sp2, Space) && AllIn(sp3, Space)
    requires OccursAt(s, LinkText(l, sp1, sp2, sp3), j)
    requires forall k :: i <= k < j ==> s[k] != '<'
    ensures LinkSearch(s, i) == Some(l)
  {
    LinkAtText(s, j, l, sp1, sp2, sp3);
    MatchAfterSkip(s, i, j, LinkPattern);
  }

  /** The pagination entry of a link: its URL, whether its results word is
      `true`, and its cursor. */
  function Entry(l: Link): (r: Json)
    ensures r.JObj? && Keys(r.fields) == ["url", "results", "cursor"]
  {
    JObj([("url", JStr(l.url)), ("results", JBool(l.results == "true")), ("cursor", JStr(l.cursor))])
  }

  /** The pagination dict after the given parts: each matching part assigns its
      entry under its rel name. */
  function LinkInfo(parts: seq<string>): (r: seq<(string, Json)>) {
    if parts == [] then []
    else
      var n := |parts| - 1;
      var m := LinkSearch(parts[n], 0);
      if m.Some? then Put(LinkInfo(parts[..n]), m.value.rel, Entry(m.value)) else LinkInfo(parts[..n])
  }

  /** `_parse_link_header`. */
  method ParseLinkHeader(header: string) returns (info: seq<(string, Json)>)
    ensures info == LinkInfo(Split(header, ','))
  {
    var parts := Split(header, ',');
    info := [];
    for i := 0 to |parts|
      invariant info == LinkInfo(parts[..i])
    {
      assert parts[..i + 1][..i] == parts[..i];
      var m := LinkSearch(parts[i], 0);
      if m.Some? {
        info := Put(info, m.value.rel, Entry(m.value));
      }
    }
    assert parts[..|parts|] == parts;
  }

  /** The link of the last part that matches with the given rel name. */
  function LastWithRel(parts: seq<string>, rel: string): Option<Link> {
    if parts == [] then None
    else
      var n := |parts| - 1;
      var m := LinkSearch(parts[n], 0);
      if m.Some? && m.value.rel == rel then m else LastWithRel(parts[..n], rel)
  }

  /** A rel name maps to the entry of the LAST part with that name: a later
      part overwrites an earlier one, and parts that do not match leave
      nothing. Each name appears once. */
  lemma {:induction false} LinkInfoLookup(parts: seq<string>, rel: string)
    ensures Lookup(LinkInfo(parts), rel) == if LastWithRel(parts, rel).Some? then Some(Entry(LastWithRel(parts, rel).value)) else None
    ensures DistinctKeys(LinkInfo(parts))
  {
    if parts != [] {
      var n := |parts| - 1;
      LinkInfoLookup(parts[..n], rel);
      var m := LinkSearch(parts[n], 0);
      if m.Some? {
        PutKeepsDistinct(LinkInfo(parts[..n]), m.value.rel, Entry(m.value));
        if m.value.rel == rel {
          PutLookup(LinkInfo(parts[..n]), rel, Entry(m.value));
        } else {
          PutOther(LinkInfo(parts[..n]), m.value.rel, Entry(m.value), rel);
        }
      }
    }
  }

  // ---------------------------------------------------------------------------
  // Issue URLs

  /** The pattern `/organizations/([^/]+)/issues/(\d+)/`. */
  const IssuePattern := [
    FieldSpec(false, "/organizations/", Except('/'), true, "/issues/"),
    FieldSpec(false, "", Digit, true, "/")]

  /** The issue pattern matched at `i`: the organisation slug and the issue id. */
  function IssueAt(s: string, i: nat): (r: Option<(string, string)>)
    requires i <= |s|
    ensures r.Some? ==> r.value.0 != [] && AllIn(r.value.0, Except('/')) && AllDigits(r.value.1)
  {
    var g := Fields(s, i, IssuePattern);
    if g.None? then None else Some((g.value[0], g.value[1]))
  }

  /** The text the issue pattern matches. */
  function IssueText(org: string, id: string): string {
    PatternText(IssuePattern, [org, id], ["", ""])
  }

  /** Every occurrence of `/organizations/ORG/issues/ID/`, with a slug without
      `/` and an all-digit id, matches at its start with exactly that slug and id. */
  lemma IssueAtText(s: string, i: nat, org: string, id: string)
    requires org != [] && AllIn(org, Except('/')) && AllDigits(id)
    requires OccursAt(s, IssueText(org, id), i)
    ensures IssueAt(s, i) == Some((org, id))
  {
    assert Unambiguous(IssuePattern);
    assert Fits(IssuePattern, [org, id], ["", ""]);
    FieldsText(s, i, IssuePattern, [org, id], ["", ""]);
  }

  /** Text without a `/` holds no issue path. */
  lemma NoIssueWithoutSlash(s: string)
    requires !HasChar(s, '/')
    ensures forall j :: 0 <= j <= |s| ==> IssueAt(s, j).None?
  {
    forall j | 0 <= j <= |s| ensures IssueAt(s, j).None? {
      if IssueAt(s, j).Some? {
        assert OccursAt(s, "/organizations/", j);
        OccursHead(s, "/organizations/", j);
      }
    }
  }

  /** What `_parse_sentry_url` returns: the organisation, the issue id and the
      first `project` query value. */
  datatype IssueRef = IssueRef(org: string, issueId: string, project: Option<string>)

  /** `_parse_sentry_url`; `project` is the first `project` value of the
      URL's query string, as `parse_qs` gives it. Once an issue path is found the
      URL is split by `urlparse`, whose `ValueError` is not caught. */
  function ParseSentryUrl(url: string, project: Option<string>): (r: Result<Option<IssueRef>>)
    ensures r == Ok(None) <==> forall j :: 0 <= j <= |url| ==> IssueAt(url, j).None?
    ensures r.Err? <==> r != Ok(None) && Url.UrlParse(url).Err?
    ensures r.Err? ==> r.msg == Url.InvalidIPv6
    ensures r.Ok? && r.value.Some? ==>
      var ref := r.value.value;
      ref.org != [] && AllIn(ref.org, Except('/')) && AllDigits(ref.issueId) && ref.project == project
      && exists j :: 0 <= j <= |url| && IssueAt(url, j) == Some((ref.org, ref.issueId))
                     && forall m :: 0 <= m < j ==> IssueAt(url, m).None?
  {
    var g := Search(url, 0, IssuePattern);
    IssueFirst(url);
    if g.None? then Ok(None)
    else match Url.UrlParse(url)
      case Err(e) => Err(e)
      case Ok(_) => Ok(Some(IssueRef(g.value[0], g.value[1], project)))
  }

  /** The issue search stops at the first position holding an issue path. */
  lemma IssueFirst(url: string)
    ensures var j := MatchPos(url, 0, IssuePattern);
      (j > |url| <==> forall m :: 0 <= m <= |url| ==> IssueAt(url, m).None?)
      && (j <= |url| ==> IssueAt(url, j) == Some((Search(url, 0, IssuePattern).value[0], Search(url, 0, IssuePattern).value[1])))
      && forall m :: 0 <= m < j && m <= |url| ==> IssueAt(url, m).None?
  {
    var j := MatchPos(url, 0, IssuePattern);
    forall m | 0 <= m < j && m <= |url| ensures IssueAt(url, m).None? {
      IssueNoneBefore(url, m);
    }
    if j <= |url| {
      IssueAtMatch(url);
    }
  }

  lemma IssueNoneBefore(url: string, m: nat)
    requires m <= |url| && m < MatchPos(url, 0, IssuePattern)
    ensures IssueAt(url, m).None?
  {
    assert Fields(url, m, IssuePattern).None?;
  }

  lemma IssueAtMatch(url: string)
    requires MatchPos(url, 0, IssuePattern) <= |url|
    ensures var g := Search(url, 0, IssuePattern).value;
      IssueAt(url, MatchPos(url, 0, IssuePattern)) == Some((g[0], g[1]))
  {
  }

  /** A URL holding the issue path is always recognised: `urlparse` failing on it
      is the only way it is not read as an issue. */
  lemma ParseSentryUrlFinds(url: string, project: Option<string>, i: nat, org: string, id: string)
    requires org != [] && AllIn(org, Except('/')) && AllDigits(id)
    requires OccursAt(url, IssueText(org, id), i)
    ensures ParseSentryUrl(url, project).Err? <==> Url.UrlParse(url).Err?
    ensures ParseSentryUrl(url, project).Ok? ==> ParseSentryUrl(url, project).value.Some?
  {
    IssueAtText(url, i, org, id);
  }

  /** An issue link whose host has a bracket without its partner makes the
      command fail instead of reading the issue. */
  lemma IssueUrlUnbalanced(host: string, path: string, project: Option<string>, i: nat, org: string, id: string)
    requires Url.HostChars(host) && Url.PathText(path) && Url.UnbalancedBrackets(host)
    requires org != [] && AllIn(org, Except('/')) && AllDigits(id)
    requires OccursAt("https://" + host + path, IssueText(org, id), i)
    ensures ParseSentryUrl("https://" + host + path, project) == Err(Url.InvalidIPv6)
  {
    Url.SplitUnbalancedHost(host, path);
    ParseSentryUrlFinds("https://" + host + path, project, i, org, id);
  }

  /** The organisation and issue a command addresses: those of an issue URL,
      which override `--org`, or else `--org` (or the default slug) and the
      argument itself; the `urlparse` failure is passed on. */
  function IssueTarget(orgArg: Option<string>, env: map<string, string>, arg: string, project: Option<string>): (r: Result<(string, string)>)
    ensures ParseSentryUrl(arg, project).Err? ==> r.Err? && r.msg == Url.InvalidIPv6
    ensures ParseSentryUrl(arg, project) == Ok(None) ==> r == Ok((OrDefault(orgArg, OrgSlug(env)), arg))
    ensures ParseSentryUrl(arg, project).Ok? && ParseSentryUrl(arg, project).value.Some? ==>
      r == Ok((ParseSentryUrl(arg, project).value.value.org, ParseSentryUrl(arg, project).value.value.issueId))
    ensures !HasChar(arg, '/') ==> r == Ok((OrDefault(orgArg, OrgSlug(env)), arg))
  {
    assert !HasChar(arg, '/') ==> ParseSentryUrl(arg, project) == Ok(None) by {
      if !HasChar(arg, '/') { NoIssueWithoutSlash(arg); }
    }
    match ParseSentryUrl(arg, project)
    case Err(e) => Err(e)
    case Ok(None) => Ok((OrDefault(orgArg, OrgSlug(env)), arg))
    case Ok(Some(p)) => Ok((p.org, p.issueId))
  }

  /** The path of an issue. */
  function IssuePath(org: string, issueId: string): string {
    "/api/0/organizations/" + org + "/issues/" + issueId + "/"
  }

  // ---------------------------------------------------------------------------
  // Responses

  /** What `_http_json` returns for a response: `{}` for an empty body, a list
      wrapped with its pagination when a `Link` header is present, the parsed
      body otherwise. `body` is the parsed body, `None` when it is empty;
      `link` is the header or `""`. */
  function Response(body: Option<Json>, link: string): (r: Json)
    ensures body.None? ==> r == JObj([])
    ensures body.Some? && !(link != [] && body.value.JArr?) ==> r == body.value
    ensures body.Some? && link != [] && body.value.JArr? ==>
      r == JObj([("items", body.value), ("pagination", JObj(LinkInfo(Split(link, ','))))])
  {
    match body
    case None => JObj([])
    case Some(result) =>
      if link != [] && result.JArr? then
        JObj([("items", result), ("pagination", JObj(LinkInfo(Split(link, ','))))])
      else result
  }

  /** A response is wrapped exactly when it is a list with a `Link` header; the
      wrapper keeps the list under `items`. */
  lemma ResponseWrapped(body: Option<Json>, link: string)
    ensures (Response(body, link).JObj? && Keys(Response(body, link).fields) == ["items", "pagination"]
             && !(body.Some? && body.value.JObj? && Keys(body.value.fields) == ["items", "pagination"]))
            ==> body.Some? && body.value.JArr? && link != []
    ensures body.Some? && body.value.JArr? && link != [] ==>
      Lookup(Response(body, link).fields, "items") == Some(body.value)
  {
    if body.Some? && body.value.JArr? && link != [] {
      Lookup2("items", body.value, "pagination", JObj(LinkInfo(Split(link, ','))));
    }
  }

  /** `url-info --with-latest`: the issue with the latest event added under
      `_latestEvent`, or `null` there when fetching the event failed. A
      response that is not a dict cannot take the key. */
  function WithLatest(issue: Json, latest: Result<Json>): (r: Result<Json>)
    ensures r.Ok? <==> issue.JObj?
    ensures r.Ok? ==> r.value.JObj? && Lookup(r.value.fields, "_latestEvent") == Some(if latest.Ok? then latest.value else JNull)
    ensures r.Ok? ==> forall k :: k != "_latestEvent" ==> Lookup(r.value.fields, k) == Lookup(issue.fields, k)
  {
    if !issue.JObj? then Err("TypeError: the issue response is not a dict")
    else
      var v := if latest.Ok? then latest.value else JNull;
      PutLookup(issue.fields, "_latestEvent", v);
      forall k | k != "_latestEvent" ensures Lookup(Put(issue.fields, "_latestEvent", v), k) == Lookup(issue.fields, k) {
        PutOther(issue.fields, "_latestEvent", v, k);
      }
      Ok(JObj(Put(issue.fields, "_latestEvent", v)))
  }

  // ---------------------------------------------------------------------------
  // issue-update

  /** The body of `issue-update`: each given field assigned in turn. */
  function UpdateFields(status: Option<string>, assignedTo: Option<string>, hasSeen: Option<bool>): seq<(string, Json)> {
    var b1 := if status.Some? && status.value != [] then Put([], "status", JStr(status.value)) else [];
    var b2 := if assignedTo.Some? && assignedTo.value != [] then Put(b1, "assignedTo", JStr(assignedTo.value)) else b1;
    if hasSeen.Some? then Put(b2, "hasSeen", JBool(hasSeen.value)) else b2
  }

  const NothingToUpdate := "[ERROR] 변경할 항목을 지정하세요 (--status, --assigned-to, --has-seen)"

  /** `cmd_issue_update` filling its `body` dict: an error when nothing is to change. */
  method UpdateBody(status: Option<string>, assignedTo: Option<string>, hasSeen: Option<bool>) returns (r: Result<seq<(string, Json)>>)
    ensures r.Err? <==> UpdateFields(status, assignedTo, hasSeen) == []
    ensures r.Ok? ==> r.value == UpdateFields(status, assignedTo, hasSeen)
  {
    var body: seq<(string, Json)> := [];
    if status.Some? && status.value != [] {
      body := Put(body, "status", JStr(status.value));
    }
    if assignedTo.Some? && assignedTo.value != [] {
      body := Put(body, "assignedTo", JStr(assignedTo.value));
    }
    if hasSeen.Some? {
      body := Put(body, "hasSeen", JBool(hasSeen.value));
    }
    assert body == UpdateFields(status, assignedTo, hasSeen);
    if |body| == 0 {
      return Err(NothingToUpdate);
    }
    return Ok(body);
  }

  /** The value `d[k]` has after an optional assignment `if given: d[k] = v`. */
  function Assigned(before: Option<Json>, given: bool, v: Json): Option<Json> {
    if given then Some(v) else before
  }

  /** An optional assignment: the key gets the value when given, and the
      dict is non-empty afterwards when it was or when the key was given. */
  lemma MaybePut(fields: seq<(string, Json)>, given: bool, k: string, v: Json)
    ensures var r := if given then Put(fields, k, v) else fields;
      Lookup(r, k) == Assigned(Lookup(fields, k), given, v) && (r == [] <==> fields == [] && !given)
  {
    if given {
      PutLookup(fields, k, v);
    }
  }

  /** An optional assignment leaves every other key as it was. */
  lemma MaybePutOther(fields: seq<(string, Json)>, given: bool, k: string, v: Json, k2: string)
    requires k2 != k
    ensures Lookup(if given then Put(fields, k, v) else fields, k2) == Lookup(fields, k2)
  {
    if given {
      PutOther(fields, k, v, k2);
    }
  }

  /** The update is refused exactly when no status, no assignee and no seen
      flag is given; otherwise the body holds each given field, with its value. */
  lemma UpdateFieldsSpec(status: Option<string>, assignedTo: Option<string>, hasSeen: Option<bool>)
    ensures var b := UpdateFields(status, assignedTo, hasSeen);
      (b == [] <==> (status.None? || status.value == []) && (assignedTo.None? || assignedTo.value == []) && hasSeen.None?)
      && Lookup(b, "status") == (if status.Some? && status.value != [] then Some(JStr(status.value)) else None)
      && Lookup(b, "assignedTo") == (if assignedTo.Some? && assignedTo.value != [] then Some(JStr(assignedTo.value)) else None)
      && Lookup(b, "hasSeen") == (if hasSeen.Some? then Some(JBool(hasSeen.value)) else None)
  {
    var g1 := status.Some? && status.value != [];
    var g2 := assignedTo.Some? && assignedTo.value != [];
    var v1 := JStr(status.GetOr([]));
    var v2 := JStr(assignedTo.GetOr([]));
    var v3 := JBool(hasSeen.Some? && hasSeen.value);
    var b1 := if g1 then Put([], "status", v1) else [];
    var b2 := if g2 then Put(b1, "assignedTo", v2) else b1;
    MaybePut([], g1, "status", v1);
    MaybePut(b1, g2, "assignedTo", v2);
    MaybePut(b2, hasSeen.Some?, "hasSeen", v3);
    MaybePutOther(b1, g2, "assignedTo", v2, "status");
    MaybePutOther(b2, hasSeen.Some?, "hasSeen", v3, "status");
    MaybePutOther(b2, hasSeen.Some?, "hasSeen", v3, "assignedTo");
  }

  /** The body holds no key besides the three fields. */
  lemma UpdateFieldsOnly(status: Option<string>, assignedTo: Option<string>, hasSeen: Option<bool>, k: string)
    requires k != "status" && k != "assignedTo" && k != "hasSeen"
    ensures Lookup(UpdateFields(status, assignedTo, hasSeen), k).None?
  {
    var g1 := status.Some? && status.value != [];
    var g2 := assignedTo.Some? && assignedTo.value != [];
    var v1 := JStr(status.GetOr([]));
    var v2 := JStr(assignedTo.GetOr([]));
    var v3 := JBool(hasSeen.Some? && hasSeen.value);
    var b1 := if g1 then Put([], "status", v1) else [];
    var b2 := if g2 then Put(b1, "assignedTo", v2) else b1;
    MaybePutOther([], g1, "status", v1, k);
    MaybePutOther(b1, g2, "assignedTo", v2, k);
    MaybePutOther(b2, hasSeen.Some?, "hasSeen", v3, k);
  }

  /** `--has-seen` is declared with `type=bool`, so its text is converted AS
      WRITTEN by `bool(text)`: every non-empty text, `false` included, is true. */
  function HasSeenAsWritten(text: string): bool {
    text != []
  }

  /** The input that shows it: `--has-seen false` sends `hasSeen: true`. */
  lemma HasSeenFalseIsTrue()
    ensures HasSeenAsWritten("false")
  {
  }

  /** The flag as evidently intended: the words `true`/`1`/`yes` and
      `false`/`0`/`no` in any letter case, anything else an error. */
  function HasSeenArg(text: string): (r: Result<bool>)
    ensures r.Ok? <==> Lower(text) in {"true", "1", "yes", "false", "0", "no"}
    ensures r.Ok? ==> (r.value <==> Lower(text) in {"true", "1", "yes"})
  {
    var w := Lower(text);
    if w in {"true", "1", "yes"} then Ok(true)
    else if w in {"false", "0", "no"} then Ok(false)
    else Err("invalid --has-seen value: " + text)
  }

  /** The intended conversion reads back the words it is given. */
  lemma HasSeenRoundTrip(b: bool)
    ensures HasSeenArg(if b then "true" else "false") == Ok(b)
  {
    assert Lower("true") == "true" && Lower("false") == "false";
  }

  // ---------------------------------------------------------------------------
  // issues

  /** The options of `issues`; `--project` and `--environment` repeat. */
  datatype IssuesArgs = IssuesArgs(query: string, projects: seq<string>, sort: Option<string>,
                                   statsPeriod: Option<string>, limit: Option<int>, cursor: Option<string>,
                                   environments: seq<string>)

  function Pairs(name: string, values: seq<string>): (r: seq<(string, string)>)
    ensures |r| == |values|
    ensures forall i :: 0 <= i < |values| ==> r[i] == (name, values[i])
  {
    if values == [] then [] else [(name, values[0])] + Pairs(name, values[1..])
  }

  function TruthyPair(name: string, v: Option<string>): seq<(string, string)> {
    if v.Some? && v.value != [] then [(name, v.value)] else []
  }

  /** The query of `issues` as `urlencode(params, doseq=True)` spells it: the
      truthy options in the order they are set, a repeated option as one pair
      per value, and a limit of 0 left out. */
  function IssuesQuery(a: IssuesArgs): (r: seq<(string, string)>) {
    TruthyPair("query", Some(a.query)) + Pairs("project", a.projects) + TruthyPair("sort", a.sort)
    + TruthyPair("statsPeriod", a.statsPeriod)
    + (if a.limit.Some? && a.limit.value != 0 then [("limit", IntToStr(a.limit.value))] else [])
    + TruthyPair("cursor", a.cursor) + Pairs("environment", a.environments)
  }

  /** Every project and every environment is sent, in order, and a limit is
      sent exactly when it is non-zero. */
  lemma IssuesQueryRepeats(a: IssuesArgs, v: string)
    ensures forall i :: 0 <= i < |a.projects| ==> ("project", a.projects[i]) in IssuesQuery(a)
    ensures forall i :: 0 <= i < |a.environments| ==> ("environment", a.environments[i]) in IssuesQuery(a)
    ensures ("limit", v) in IssuesQuery(a) <==> a.limit.Some? && a.limit.value != 0 && v == IntToStr(a.limit.value)
  {
    var front := TruthyPair("query", Some(a.query)) + Pairs("project", a.projects);
    var lim := if a.limit.Some? && a.limit.value != 0 then [("limit", IntToStr(a.limit.value))] else [];
    var q := IssuesQuery(a);
    assert q == front + TruthyPair("sort", a.sort) + TruthyPair("statsPeriod", a.statsPeriod) + lim
                + TruthyPair("cursor", a.cursor) + Pairs("environment", a.environments);
    forall i | 0 <= i < |a.projects| ensures ("project", a.projects[i]) in q {
      assert Pairs("project", a.projects)[i] == ("project", a.projects[i]);
      assert ("project", a.projects[i]) in front;
    }
    assert ("limit", v) !in Pairs("project", a.projects);
    assert ("limit", v) !in Pairs("environment", a.environments);
  }
}
