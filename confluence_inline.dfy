/** The inline pass of the Markdown to Confluence storage renderer
    (`escape_html` and `render_inline` inside `markdown_to_storage`).

    Every regular expression of the pass is matched by a hand-written scanner.
    Each pattern has at most one match at a given start position, so a scanner
    that tries the start positions left to right and resumes after each match
    is exactly `re.sub`. Lookbehind and lookahead read the input string of the
    pass in which they occur. */
module ConfluenceInline {
  import opened Wrappers
  import opened Text

  /** `escape_html` as written: `&` is replaced first, then `<`, then `>`. */
  function EscapeHtmlReplace(s: string): string {
    ReplaceAll(ReplaceAll(ReplaceAll(s, "&", "&amp;"), "<", "&lt;"), ">", "&gt;")
  }

  /** What `escape_html` makes of a single character. */
  function EscapeChar(c: char): string {
    if c == '&' then "&amp;" else if c == '<' then "&lt;" else if c == '>' then "&gt;" else [c]
  }

  /** `escape_html` one character at a time; `EscapeHtmlIsReplace` shows it is
      the three replacements. */
  function EscapeHtml(s: string): string {
    if |s| == 0 then [] else EscapeChar(s[0]) + EscapeHtml(s[1..])
  }

  /** The three replacements work character by character: replacing `&` first
      means that the `&` of `&lt;` and `&gt;` is never escaped again. */
  lemma ReplaceCons(c: char, rest: string)
    ensures EscapeHtmlReplace([c] + rest) == EscapeChar(c) + EscapeHtmlReplace(rest)
  {
    var amp := ReplaceAll([c], "&", "&amp;");
    ReplaceCharAppend([c], rest, '&', "&amp;");
    var a1 := ReplaceAll(rest, "&", "&amp;");
    ReplaceCharAppend(amp, a1, '<', "&lt;");
    var lt := ReplaceAll(amp, "<", "&lt;");
    var a2 := ReplaceAll(a1, "<", "&lt;");
    ReplaceCharAppend(lt, a2, '>', "&gt;");
    if c == '&' {
      assert amp == "&amp;";
      ReplaceAbsent("&amp;", '<', "&lt;");
      ReplaceAbsent("&amp;", '>', "&gt;");
    } else if c == '<' {
      assert amp == [c];
      assert lt == "&lt;";
      ReplaceAbsent("&lt;", '>', "&gt;");
    } else if c == '>' {
      assert amp == [c];
      assert lt == [c];
    } else {
      assert amp == [c];
      assert lt == [c];
    }
  }

  /** `escape_html` as written and character by character agree on every text. */
  lemma {:induction false} EscapeHtmlIsReplace(s: string)
    ensures EscapeHtml(s) == EscapeHtmlReplace(s)
  {
    if |s| > 0 {
      assert s == [s[0]] + s[1..];
      ReplaceCons(s[0], s[1..]);
      EscapeHtmlIsReplace(s[1..]);
    }
  }

  lemma EscapeHtmlCons(c: char, rest: string)
    ensures EscapeHtml([c] + rest) == EscapeChar(c) + EscapeHtml(rest)
  {
    assert ([c] + rest)[1..] == rest;
  }

  lemma EscapeHtmlEmpty()
    ensures EscapeHtml([]) == []
  {
  }

  /** The escaped text holds no `<` and no `>`, and gains no character other
      than those of `&amp;`, `&lt;` and `&gt;`. */
  lemma {:induction false} EscapeHtmlClean(s: string)
    ensures !HasChar(EscapeHtml(s), '<') && !HasChar(EscapeHtml(s), '>')
    ensures forall m :: m !in "&;amplgt" && !HasChar(s, m) ==> !HasChar(EscapeHtml(s), m)
    ensures |EscapeHtml(s)| >= |s|
    decreases |s|
  {
    if s == [] {
      EscapeHtmlEmpty();
    } else {
      var x, y := EscapeChar(s[0]), EscapeHtml(s[1..]);
      EscapeHtmlCons(s[0], s[1..]);
      assert s == [s[0]] + s[1..];
      EscapeHtmlClean(s[1..]);
      EscapeCharClean(s[0]);
      NoCharJoin(x, y, '<');
      NoCharJoin(x, y, '>');
      forall m | m !in "&;amplgt" && !HasChar(s, m) ensures !HasChar(x + y, m) {
        assert s[0] != m;
        assert !HasChar(s[1..], m) by {
          forall j | 0 <= j < |s[1..]| ensures s[1..][j] != m { assert s[1..][j] == s[j + 1]; }
        }
        NoCharJoin(x, y, m);
      }
    }
  }

  /** The escape of one character holds no `<` or `>`, and no character outside
      the entities other than itself. */
  lemma EscapeCharClean(c: char)
    ensures !HasChar(EscapeChar(c), '<') && !HasChar(EscapeChar(c), '>')
    ensures forall m :: m !in "&;amplgt" && m != c ==> !HasChar(EscapeChar(c), m)
  {
  }

  /** A character in neither piece is not in the whole. */
  lemma NoCharJoin(a: string, b: string, m: char)
    requires !HasChar(a, m) && !HasChar(b, m)
    ensures !HasChar(a + b, m)
  {
    forall j | 0 <= j < |a + b| ensures (a + b)[j] != m {
      if j < |a| { assert (a + b)[j] == a[j]; } else { assert (a + b)[j] == b[j - |a|]; }
    }
  }

  /** `escape_html` distributes over `+`. */
  lemma {:induction false} EscapeHtmlAppend(a: string, b: string)
    ensures EscapeHtml(a + b) == EscapeHtml(a) + EscapeHtml(b)
  {
    if |a| == 0 {
      assert a + b == b;
    } else {
      assert (a + b)[0] == a[0] && (a + b)[1..] == a[1..] + b;
      EscapeHtmlAppend(a[1..], b);
    }
  }

  /** Text without `&`, `<` and `>` is its own escape. */
  lemma {:induction false} EscapeHtmlPlain(s: string)
    requires !HasChar(s, '&') && !HasChar(s, '<') && !HasChar(s, '>')
    ensures EscapeHtml(s) == s
  {
    if |s| > 0 {
      assert !HasChar(s[1..], '&') && !HasChar(s[1..], '<') && !HasChar(s[1..], '>') by {
        forall j | 0 <= j < |s[1..]| ensures s[1..][j] == s[j + 1] { }
      }
      EscapeHtmlPlain(s[1..]);
      assert s == [s[0]] + s[1..];
    }
  }

  /** The six substitutions of `render_inline`, in the order they run. */
  datatype Pass =
    | Link         // \[([^]]+)\]\(([^)]+)\)
    | CodeSpan     // `([^`]+)`
    | StrongStar   // \*\*([^*]+)\*\*
    | StrongUnder  // __([^_]+)__
    | EmStar       // (?<!\*)\*([^*]+)\*(?!\*)
    | EmUnder      // (?<!_)_([^_]+)_(?!_ )

  /** A non-empty run of characters other than `f` from `start`, ended by `f`:
      the index of that closing `f`. */
  function BodyEnd(s: string, start: nat, f: char): (r: Option<nat>)
    ensures r.Some? ==> start < r.value < |s| && s[r.value] == f
    ensures r.Some? ==> forall j :: start <= j < r.value ==> s[j] != f
  {
    var q := FindFrom(s, f, start);
    if q.Some? && q.value > start then q else None
  }

  /** Completeness of `BodyEnd`. */
  lemma BodyEndFirst(s: string, start: nat, f: char, q: nat)
    requires start < q < |s| && s[q] == f
    requires forall j :: start <= j < q ==> s[j] != f
    ensures BodyEnd(s, start, f) == Some(q)
  {
    FindFromFirst(s, f, start, q);
  }

  /** The `<a>` element that the link pass writes for text `t` and target `u`. */
  function Anchor(t: string, u: string): string {
    "<a href=\"" + EscapeHtml(u) + "\">" + t + "</a>"
  }

  /** The match of a pass at position `i` of its input: where the match ends and
      what replaces it. */
  function MatchAt(p: Pass, s: string, i: nat): (r: Option<(nat, string)>)
    requires i < |s|
    ensures r.Some? ==> i < r.value.0 <= |s|
  {
    match p
    case Link =>
      var q := if s[i] == '[' then BodyEnd(s, i + 1, ']') else None;
      if q.None? || !(q.value + 1 < |s| && s[q.value + 1] == '(') then None
      else
        var e := BodyEnd(s, q.value + 2, ')');
        if e.None? then None
        else Some((e.value + 1, Anchor(s[i + 1..q.value], s[q.value + 2..e.value])))
    case CodeSpan =>
      var q := if s[i] == '`' then BodyEnd(s, i + 1, '`') else None;
      if q.None? then None
      else Some((q.value + 1, "<code>" + s[i + 1..q.value] + "</code>"))
    case StrongStar => Strong(s, i, '*')
    case StrongUnder => Strong(s, i, '_')
    case EmStar =>
      var q := if (i > 0 && s[i - 1] == '*') || s[i] != '*' then None else BodyEnd(s, i + 1, '*');
      if q.None? || (q.value + 1 < |s| && s[q.value + 1] == '*') then None
      else Some((q.value + 1, "<em>" + s[i + 1..q.value] + "</em>"))
    case EmUnder =>
      var q := if (i > 0 && s[i - 1] == '_') || s[i] != '_' then None else BodyEnd(s, i + 1, '_');
      if q.None? || (q.value + 2 < |s| && s[q.value + 1] == '_' && s[q.value + 2] == ' ') then None
      else Some((q.value + 1, "<em>" + s[i + 1..q.value] + "</em>"))
  }

  /** `cc([^c]+)cc` with its `<strong>` replacement. */
  function Strong(s: string, i: nat, c: char): (r: Option<(nat, string)>)
    requires i < |s|
    ensures r.Some? ==> i < r.value.0 <= |s|
  {
    var q := if i + 1 < |s| && s[i] == c && s[i + 1] == c then BodyEnd(s, i + 2, c) else None;
    if q.None? || !(q.value + 1 < |s| && s[q.value + 1] == c) then None
    else Some((q.value + 2, "<strong>" + s[i + 2..q.value] + "</strong>"))
  }

  /** `re.sub` of one pass over `s`, from position `i` on. */
  function Sub(p: Pass, s: string, i: nat): string
    decreases |s| - i
  {
    if i >= |s| then []
    else
      var m := MatchAt(p, s, i);
      if m.Some? then m.value.1 + Sub(p, s, m.value.0) else [s[i]] + Sub(p, s, i + 1)
  }

  /** `render_inline`. */
  function RenderInline(raw: string): string {
    var s0 := EscapeHtml(raw);
    var s1 := Sub(Link, s0, 0);
    var s2 := Sub(CodeSpan, s1, 0);
    var s3 := Sub(StrongStar, s2, 0);
    var s4 := Sub(StrongUnder, s3, 0);
    var s5 := Sub(EmStar, s4, 0);
    Sub(EmUnder, s5, 0)
  }

  /** The character every match of a pass starts with. */
  function Opener(p: Pass): char {
    match p
    case Link => '['
    case CodeSpan => '`'
    case StrongStar => '*'
    case StrongUnder => '_'
    case EmStar => '*'
    case EmUnder => '_'
  }

  lemma MatchNeedsOpener(p: Pass, s: string, i: nat)
    requires i < |s| && s[i] != Opener(p)
    ensures MatchAt(p, s, i) == None
  {
  }

  /** A pass leaves text without its opening character unchanged. */
  lemma {:induction false} SubWithoutOpener(p: Pass, s: string, i: nat)
    requires i <= |s|
    requires forall j :: i <= j < |s| ==> s[j] != Opener(p)
    ensures Sub(p, s, i) == s[i..]
    decreases |s| - i
  {
    if i < |s| {
      MatchNeedsOpener(p, s, i);
      SubWithoutOpener(p, s, i + 1);
      assert s[i..] == [s[i]] + s[i + 1..];
    }
  }

  lemma SubWhole(p: Pass, s: string)
    requires !HasChar(s, Opener(p))
    ensures Sub(p, s, 0) == s
  {
    SubWithoutOpener(p, s, 0);
  }

  /** A line without `[`, `` ` ``, `*` or `_` renders to exactly its escaped text. */
  lemma PlainRendersEscaped(raw: string)
    requires !HasChar(raw, '[') && !HasChar(raw, '`') && !HasChar(raw, '*') && !HasChar(raw, '_')
    ensures RenderInline(raw) == EscapeHtml(raw)
  {
    var s0 := EscapeHtml(raw);
    EscapeHtmlClean(raw);
    assert '[' in "[`*_" && '`' in "[`*_" && '*' in "[`*_" && '_' in "[`*_";
    SubWhole(Link, s0);
    SubWhole(CodeSpan, s0);
    SubWhole(StrongStar, s0);
    SubWhole(StrongUnder, s0);
    SubWhole(EmStar, s0);
    SubWhole(EmUnder, s0);
  }

  /** The link pattern as a language: `[`, a non-empty text without `]`, `](`,
      a non-empty target without `)`, and `)`. */
  predicate LinkShape(w: string, t: string, u: string) {
    w == "[" + t + "](" + u + ")" && |t| > 0 && |u| > 0 && !HasChar(t, ']') && !HasChar(u, ')')
  }

  /** Completeness of the link scanner: a link at position `i` is replaced by its
      anchor, and the scan goes on after its `)`. */
  lemma LinkMatches(s: string, i: nat, t: string, u: string)
    requires i + |t| + |u| + 4 <= |s|
    requires LinkShape(s[i..i + |t| + |u| + 4], t, u)
    ensures MatchAt(Link, s, i) == Some((i + |t| + |u| + 4, Anchor(t, u)))
  {
    var q := i + 1 + |t|;
    var e := q + 2 + |u|;
    LinkScan(s, i, t, u);
    LinkAtParts(s, i, q, e);
  }

  /** What the link scanner sees on a link: both closing brackets and the text
      and target between them. */
  lemma LinkScan(s: string, i: nat, t: string, u: string)
    requires i + |t| + |u| + 4 <= |s|
    requires LinkShape(s[i..i + |t| + |u| + 4], t, u)
    ensures var q, e := i + 1 + |t|, i + 3 + |t| + |u|;
      s[i] == '[' && BodyEnd(s, i + 1, ']') == Some(q) && q + 1 < |s| && s[q + 1] == '('
      && BodyEnd(s, q + 2, ')') == Some(e) && s[i + 1..q] == t && s[q + 2..e] == u
  {
    var w := s[i..i + |t| + |u| + 4];
    var q := i + 1 + |t|;
    assert s[i] == w[0] == '[';
    forall j | i + 1 <= j < q ensures s[j] != ']' {
      assert s[j] == w[j - i] == t[j - i - 1];
    }
    assert s[q] == w[1 + |t|] == ']';
    BodyEndFirst(s, i + 1, ']', q);
    assert s[q + 1] == w[2 + |t|] == '(';
    var e := q + 2 + |u|;
    forall j | q + 2 <= j < e ensures s[j] != ')' {
      assert s[j] == w[j - i] == u[j - q - 2];
    }
    assert s[e] == w[|w| - 1] == ')';
    BodyEndFirst(s, q + 2, ')', e);
    assert s[i + 1..q] == t by {
      forall k | 0 <= k < |t| ensures s[i + 1..q][k] == t[k] { assert s[i + 1 + k] == w[1 + k]; }
    }
    assert s[q + 2..e] == u by {
      forall k | 0 <= k < |u| ensures s[q + 2..e][k] == u[k] { assert s[q + 2 + k] == w[|t| + 3 + k]; }
    }
  }

  /** The link pass matches once both brackets close. */
  lemma LinkAtParts(s: string, i: nat, q: nat, e: nat)
    requires i < |s| && s[i] == '[' && BodyEnd(s, i + 1, ']') == Some(q) && q + 1 < |s| && s[q + 1] == '('
    requires BodyEnd(s, q + 2, ')') == Some(e)
    ensures MatchAt(Link, s, i) == Some((e + 1, Anchor(s[i + 1..q], s[q + 2..e])))
  {
  }

  /** Soundness of the link scanner: every match has the link shape. */
  lemma LinkMatchShape(s: string, i: nat)
    requires i < |s| && MatchAt(Link, s, i).Some?
    ensures var (e, rep) := MatchAt(Link, s, i).value;
      exists t, u :: LinkShape(s[i..e], t, u) && rep == Anchor(t, u)
  {
    var q, e := LinkAtSome(s, i);
    var t, u := s[i + 1..q], s[q + 2..e];
    assert !HasChar(t, ']') by {
      forall j | 0 <= j < |t| ensures t[j] != ']' { assert t[j] == s[i + 1 + j]; }
    }
    assert !HasChar(u, ')') by {
      forall j | 0 <= j < |u| ensures u[j] != ')' { assert u[j] == s[q + 2 + j]; }
    }
    LinkSliceShape(s, i, q, e);
    assert LinkShape(s[i..e + 1], t, u);
  }

  /** A link match closes both brackets. */
  lemma LinkAtSome(s: string, i: nat) returns (q: nat, e: nat)
    requires i < |s| && MatchAt(Link, s, i).Some?
    ensures s[i] == '[' && BodyEnd(s, i + 1, ']') == Some(q) && q + 1 < |s| && s[q + 1] == '('
    ensures BodyEnd(s, q + 2, ')') == Some(e)
    ensures MatchAt(Link, s, i) == Some((e + 1, Anchor(s[i + 1..q], s[q + 2..e])))
  {
    q := BodyEnd(s, i + 1, ']').value;
    e := BodyEnd(s, q + 2, ')').value;
  }

  lemma LinkSliceShape(s: string, i: nat, q: nat, e: nat)
    requires i < q && q + 2 <= e < |s| && s[i] == '[' && s[q] == ']' && s[q + 1] == '(' && s[e] == ')'
    ensures s[i..e + 1] == "[" + s[i + 1..q] + "](" + s[q + 2..e] + ")"
  {
  }

  lemma EscapeLinkPunct(s: string)
    requires s == "[" || s == "](" || s == ")"
    ensures EscapeHtml(s) == s
  {
    EscapeHtmlPlain(s);
  }

  /** Escaping a link's source escapes its text and its target. */
  lemma EscapeLinkSource(t: string, u: string)
    ensures EscapeHtml("[" + t + "](" + u + ")") == "[" + EscapeHtml(t) + "](" + EscapeHtml(u) + ")"
  {
    var a, b, c := "[", "](", ")";
    EscapeLinkPunct(a);
    EscapeLinkPunct(b);
    EscapeLinkPunct(c);
    EscapeHtmlAppend(a + t + b + u, c);
    EscapeHtmlAppend(a + t + b, u);
    EscapeHtmlAppend(a + t, b);
    EscapeHtmlAppend(a, t);
  }

  /** The link pass on a line that is one link: the text is escaped once, the
      target twice (`escape_html` of the already escaped target). */
  lemma LinkLine(t: string, u: string)
    requires |t| > 0 && |u| > 0 && !HasChar(t, ']') && !HasChar(u, ')')
    ensures Sub(Link, EscapeHtml("[" + t + "](" + u + ")"), 0) == Anchor(EscapeHtml(t), EscapeHtml(u))
  {
    var et, eu := EscapeHtml(t), EscapeHtml(u);
    EscapeLinkSource(t, u);
    var s0 := "[" + et + "](" + eu + ")";
    EscapeHtmlClean(t);
    EscapeHtmlClean(u);
    assert ']' !in "&;amplgt" && ')' !in "&;amplgt";
    assert LinkShape(s0[0..|et| + |eu| + 4], et, eu) by { assert s0[0..|et| + |eu| + 4] == s0; }
    LinkMatches(s0, 0, et, eu);
  }

  /** With no code, strong or emphasis marker in the text or the target, the link
      is all that `render_inline` writes, so an `&` of the target reaches the
      `href` as `&amp;amp;` (see `AmpersandTwice`). */
  lemma LinkOnlyLine(t: string, u: string)
    requires |t| > 0 && |u| > 0 && !HasChar(t, ']') && !HasChar(u, ')')
    requires forall m :: m in "`*_" ==> !HasChar(t, m) && !HasChar(u, m)
    ensures RenderInline("[" + t + "](" + u + ")")
      == "<a href=\"" + EscapeHtml(EscapeHtml(u)) + "\">" + EscapeHtml(t) + "</a>"
  {
    LinkLine(t, u);
    var s1 := Anchor(EscapeHtml(t), EscapeHtml(u));
    assert '`' in "`*_" && '*' in "`*_" && '_' in "`*_";
    LinkOnlyMarks(t, u, '`');
    LinkOnlyMarks(t, u, '*');
    LinkOnlyMarks(t, u, '_');
    assert '`' in "`*_" && '*' in "`*_" && '_' in "`*_";
    SubWhole(CodeSpan, s1);
    SubWhole(StrongStar, s1);
    SubWhole(StrongUnder, s1);
    SubWhole(EmStar, s1);
    SubWhole(EmUnder, s1);
  }

  /** A marker absent from the text and the target is absent from the anchor. */
  lemma LinkOnlyMarks(t: string, u: string, m: char)
    requires m in "`*_" && !HasChar(t, m) && !HasChar(u, m)
    ensures !HasChar(Anchor(EscapeHtml(t), EscapeHtml(u)), m)
  {
    assert m !in "&;amplgt";
    EscapeHtmlClean(t);
    EscapeHtmlClean(u);
    EscapeHtmlClean(EscapeHtml(u));
    AnchorMarkFree(EscapeHtml(t), EscapeHtml(EscapeHtml(u)), m);
  }

  lemma AnchorMarkFree(x: string, y: string, m: char)
    requires m in "`*_" && !HasChar(x, m) && !HasChar(y, m)
    ensures !HasChar("<a href=\"" + y + "\">" + x + "</a>", m)
  {
    var a := "<a href=\"" + y + "\">" + x + "</a>";
    forall j | 0 <= j < |a| ensures a[j] != m {
      if 9 <= j < 9 + |y| { assert a[j] == y[j - 9]; }
      else if 11 + |y| <= j < 11 + |y| + |x| { assert a[j] == x[j - 11 - |y|]; }
    }
  }

  /** `escape_html` twice turns every `&` into `&amp;amp;`. */
  lemma AmpersandTwice(rest: string)
    ensures EscapeHtml(EscapeHtml(['&'] + rest)) == "&amp;amp;" + EscapeHtml(EscapeHtml(rest))
  {
    EscapeHtmlCons('&', rest);
    EscapeEntityAgain(EscapeHtml(rest));
  }

  /** The entity `&amp;` in front of `x`, escaped again. */
  lemma EscapeEntityAgain(x: string)
    ensures EscapeHtml("&amp;" + x) == "&amp;amp;" + EscapeHtml(x)
  {
    var s1 := [';'] + x;
    var s2 := ['p'] + s1;
    var s3 := ['m'] + s2;
    var s4 := ['a'] + s3;
    EscapeHtmlCons(';', x);
    EscapeHtmlCons('p', s1);
    EscapeHtmlCons('m', s2);
    EscapeHtmlCons('a', s3);
    EscapeHtmlCons('&', s4);
    assert "&amp;" + x == ['&'] + s4;
  }

  /** Text free of every character the inline pass treats specially. */
  predicate Plain(s: string) {
    forall i :: 0 <= i < |s| ==> s[i] !in "[]()`*_&<>"
  }

  lemma PlainFacts(s: string)
    requires Plain(s)
    ensures EscapeHtml(s) == s
    ensures forall m :: m in "[]()`*_&<>" ==> !HasChar(s, m)
  {
    assert forall m :: m in "[]()`*_&<>" ==> !HasChar(s, m) by {
      forall m, j | m in "[]()`*_&<>" && 0 <= j < |s| ensures s[j] != m { assert s[j] !in "[]()`*_&<>"; }
    }
    assert '&' in "[]()`*_&<>" && '<' in "[]()`*_&<>" && '>' in "[]()`*_&<>";
    EscapeHtmlPlain(s);
  }

  /** Where `a + "_" + b + "_" + c` holds its underscores, when its pieces hold none. */
  lemma UnderscorePositions(a: string, b: string, c: string)
    requires !HasChar(a, '_') && !HasChar(b, '_') && !HasChar(c, '_')
    ensures var s := a + "_" + b + "_" + c;
      forall j :: 0 <= j < |s| ==> (s[j] == '_' <==> j == |a| || j == |a| + 1 + |b|)
  {
    var s := a + "_" + b + "_" + c;
    forall j | 0 <= j < |s| ensures s[j] == '_' <==> j == |a| || j == |a| + 1 + |b| {
      if j < |a| { assert s[j] == a[j]; }
      else if |a| < j < |a| + 1 + |b| { assert s[j] == b[j - |a| - 1]; }
      else if j > |a| + 1 + |b| { assert s[j] == c[j - |a| - 2 - |b|]; }
    }
  }

  /** The `_` emphasis pass on a text with exactly one `_..._` span. */
  lemma EmUnderOneSpan(a: string, b: string, c: string, s: string)
    requires !HasChar(a, '_') && !HasChar(b, '_') && !HasChar(c, '_') && |b| > 0
    requires s == a + "_" + b + "_" + c
    ensures Sub(EmUnder, s, 0) == a + "<em>" + b + "</em>" + c
  {
    var q := |a| + 1 + |b|;
    UnderscoreFree(s, a, b, c);
    NoOpenerNoMatch(EmUnder, s, 0, |a|);
    NoOpenerNoMatch(EmUnder, s, q + 1, |s|);
    EmUnderSpanAt(a, b, c);
    SubOneMatch(EmUnder, s, |a|, q + 1, a, "<em>" + b + "</em>", c);
  }

  lemma UnderscoreFree(s: string, a: string, b: string, c: string)
    requires s == a + "_" + b + "_" + c
    requires !HasChar(a, '_') && !HasChar(c, '_')
    ensures forall j :: 0 <= j < |a| ==> s[j] != '_'
    ensures forall j :: |a| + 2 + |b| <= j < |s| ==> s[j] != '_'
    ensures s[..|a|] == a && s[|a| + 2 + |b|..] == c
  {
    forall j | 0 <= j < |a| ensures s[j] != '_' { assert s[j] == a[j]; }
    forall j | |a| + 2 + |b| <= j < |s| ensures s[j] != '_' { assert s[j] == c[j - |a| - 2 - |b|]; }
  }

  /** A pass that finds exactly one match replaces exactly that stretch. */
  lemma SubOneMatch(p: Pass, s: string, i: nat, e: nat, pre: string, rep: string, post: string)
    requires i < e <= |s| && s[..i] == pre && s[e..] == post
    requires forall j :: 0 <= j < i ==> MatchAt(p, s, j) == None
    requires forall j :: e <= j < |s| ==> MatchAt(p, s, j) == None
    requires MatchAt(p, s, i) == Some((e, rep))
    ensures Sub(p, s, 0) == pre + rep + post
  {
    SubCopiesBefore(p, s, 0, i);
    SubCopies(p, s, e);
    SubAtMatch(p, s, i, e, rep);
  }

  /** A match at `i` is replaced and the scan resumes at its end. */
  lemma SubAtMatch(p: Pass, s: string, i: nat, e: nat, rep: string)
    requires i < |s| && MatchAt(p, s, i) == Some((e, rep))
    ensures Sub(p, s, i) == rep + Sub(p, s, e)
  {
  }

  lemma NoOpenerNoMatch(p: Pass, s: string, a: nat, b: nat)
    requires a <= b <= |s|
    requires forall j :: a <= j < b ==> s[j] != Opener(p)
    ensures forall j :: a <= j < b ==> MatchAt(p, s, j) == None
  {
    forall j | a <= j < b ensures MatchAt(p, s, j) == None { MatchNeedsOpener(p, s, j); }
  }

  lemma EmUnderSpanAt(a: string, b: string, c: string)
    requires !HasChar(a, '_') && !HasChar(b, '_') && !HasChar(c, '_') && |b| > 0
    ensures var s := a + "_" + b + "_" + c;
      MatchAt(EmUnder, s, |a|) == Some((|a| + 2 + |b|, "<em>" + b + "</em>"))
  {
    var s := a + "_" + b + "_" + c;
    var q := |a| + 1 + |b|;
    assert s[|a|] == '_' && s[q] == '_';
    assert |a| > 0 ==> s[|a| - 1] == a[|a| - 1];
    forall j | |a| + 1 <= j < q ensures s[j] != '_' { assert s[j] == b[j - |a| - 1]; }
    BodyEndFirst(s, |a| + 1, '_', q);
    assert q + 1 < |s| ==> s[q + 1] == c[0];
    assert s[|a| + 1..q] == b;
    var r := MatchAt(EmUnder, s, |a|);
    assert r.value.1 == "<em>" + b + "</em>";
  }

  /** The emphasis passes also scan inside the `href` that the link pass wrote:
      a target `u1_b_u2` comes out as `u1<em>b</em>u2` inside the attribute. */
  lemma EmphasisInsideHref(t: string, u1: string, b: string, u2: string, raw: string)
    requires Plain(t) && Plain(u1) && Plain(b) && Plain(u2) && |t| > 0 && |b| > 0
    requires raw == "[" + t + "](" + u1 + "_" + b + "_" + u2 + ")"
    ensures RenderInline(raw) == "<a href=\"" + u1 + "<em>" + b + "</em>" + u2 + "\">" + t + "</a>"
  {
    var a, c := "<a href=\"" + u1, u2 + "\">" + t + "</a>";
    var s1 := a + "_" + b + "_" + c;
    HrefSpanLinkPass(t, u1, b, u2, raw, a, c, s1);
    HrefSpanMiddlePasses(a, b, c, s1);
    EmUnderOneSpan(a, b, c, s1);
    HrefSpanText(t, u1, b, u2, a, c);
  }

  lemma HrefSpanText(t: string, u1: string, b: string, u2: string, a: string, c: string)
    requires a == "<a href=\"" + u1 && c == u2 + "\">" + t + "</a>"
    ensures a + "<em>" + b + "</em>" + c == "<a href=\"" + u1 + "<em>" + b + "</em>" + u2 + "\">" + t + "</a>"
  {
  }

  lemma HrefSpanLinkPass(t: string, u1: string, b: string, u2: string, raw: string, a: string, c: string, s1: string)
    requires Plain(t) && Plain(u1) && Plain(b) && Plain(u2) && |t| > 0 && |b| > 0
    requires raw == "[" + t + "](" + u1 + "_" + b + "_" + u2 + ")"
    requires a == "<a href=\"" + u1 && c == u2 + "\">" + t + "</a>" && s1 == a + "_" + b + "_" + c
    ensures Sub(Link, EscapeHtml(raw), 0) == s1
    ensures !HasChar(a, '_') && !HasChar(b, '_') && !HasChar(c, '_')
    ensures !HasChar(a, '`') && !HasChar(b, '`') && !HasChar(c, '`')
    ensures !HasChar(a, '*') && !HasChar(b, '*') && !HasChar(c, '*')
  {
    var u := u1 + "_" + b + "_" + u2;
    HrefSpanTarget(u1, b, u2, u);
    PlainFacts(t);
    assert raw == "[" + t + "](" + u + ")";
    LinkLine(t, u);
    HrefSpanAnchor(t, u1, b, u2, u, a, c, s1);
    HrefSpanPieces(t, u1, b, u2, a, c);
  }

  lemma HrefSpanAnchor(t: string, u1: string, b: string, u2: string, u: string, a: string, c: string, s1: string)
    requires u == u1 + "_" + b + "_" + u2 && EscapeHtml(u) == u
    requires a == "<a href=\"" + u1 && c == u2 + "\">" + t + "</a>" && s1 == a + "_" + b + "_" + c
    ensures Anchor(t, u) == s1
  {
  }

  lemma HrefSpanTarget(u1: string, b: string, u2: string, u: string)
    requires Plain(u1) && Plain(b) && Plain(u2) && u == u1 + "_" + b + "_" + u2
    ensures |u| > 0 && !HasChar(u, ')') && EscapeHtml(u) == u
  {
    forall j | 0 <= j < |u| ensures u[j] != ')' && u[j] != '&' && u[j] != '<' && u[j] != '>' {
      if j < |u1| { assert u[j] == u1[j]; }
      else if |u1| < j < |u1| + 1 + |b| { assert u[j] == b[j - |u1| - 1]; }
      else if j > |u1| + 1 + |b| { assert u[j] == u2[j - |u1| - |b| - 2]; }
    }
    EscapeHtmlPlain(u);
  }

  lemma HrefSpanPieces(t: string, u1: string, b: string, u2: string, a: string, c: string)
    requires Plain(t) && Plain(u1) && Plain(b) && Plain(u2)
    requires a == "<a href=\"" + u1 && c == u2 + "\">" + t + "</a>"
    ensures !HasChar(a, '_') && !HasChar(b, '_') && !HasChar(c, '_')
    ensures !HasChar(a, '`') && !HasChar(b, '`') && !HasChar(c, '`')
    ensures !HasChar(a, '*') && !HasChar(b, '*') && !HasChar(c, '*')
  {
    PlainFacts(b);
    AnchorHeadFree(u1, a);
    AnchorTailFree(t, u2, c);
  }

  lemma AnchorHeadFree(u1: string, a: string)
    requires Plain(u1) && a == "<a href=\"" + u1
    ensures !HasChar(a, '_') && !HasChar(a, '`') && !HasChar(a, '*')
  {
    forall j | 0 <= j < |a| ensures a[j] != '_' && a[j] != '`' && a[j] != '*' {
      if j >= 9 { assert a[j] == u1[j - 9]; }
    }
  }

  lemma AnchorTailFree(t: string, u2: string, c: string)
    requires Plain(t) && Plain(u2) && c == u2 + "\">" + t + "</a>"
    ensures !HasChar(c, '_') && !HasChar(c, '`') && !HasChar(c, '*')
  {
    forall j | 0 <= j < |c| ensures c[j] != '_' && c[j] != '`' && c[j] != '*' {
      if j < |u2| { assert c[j] == u2[j]; }
      else if |u2| + 2 <= j < |u2| + 2 + |t| { assert c[j] == t[j - |u2| - 2]; }
    }
  }

  lemma HrefSpanMiddlePasses(a: string, b: string, c: string, s1: string)
    requires !HasChar(a, '_') && !HasChar(b, '_') && !HasChar(c, '_') && |b| > 0
    requires !HasChar(a, '`') && !HasChar(b, '`') && !HasChar(c, '`')
    requires !HasChar(a, '*') && !HasChar(b, '*') && !HasChar(c, '*')
    requires s1 == a + "_" + b + "_" + c
    ensures Sub(EmStar, Sub(StrongUnder, Sub(StrongStar, Sub(CodeSpan, s1, 0), 0), 0), 0) == s1
  {
    assert !HasChar(s1, '`') && !HasChar(s1, '*') by {
      NoCharAppend(a, "_");
      NoCharAppend(a + "_", b);
      NoCharAppend(a + "_" + b, "_");
      NoCharAppend(a + "_" + b + "_", c);
    }
    SubWhole(CodeSpan, s1);
    SubWhole(StrongStar, s1);
    UnderscorePositions(a, b, c);
    SubWithoutStrong(s1, 0, '_');
    SubWhole(EmStar, s1);
  }

  /** With no doubled `c` anywhere, the strong pass for `c` copies its input. */
  lemma {:induction false} SubWithoutStrong(s: string, i: nat, c: char)
    requires i <= |s| && (c == '*' || c == '_')
    requires forall j :: 0 <= j < |s| - 1 ==> !(s[j] == c && s[j + 1] == c)
    ensures Sub(if c == '*' then StrongStar else StrongUnder, s, i) == s[i..]
    decreases |s| - i
  {
    if i < |s| {
      SubWithoutStrong(s, i + 1, c);
      assert s[i..] == [s[i]] + s[i + 1..];
    }
  }

  /** A pass copies a suffix in which it finds no match. */
  lemma {:induction false} SubCopies(p: Pass, s: string, i: nat)
    requires i <= |s|
    requires forall j :: i <= j < |s| ==> MatchAt(p, s, j) == None
    ensures Sub(p, s, i) == s[i..]
    decreases |s| - i
  {
    if i < |s| {
      SubCopies(p, s, i + 1);
      assert s[i..] == [s[i]] + s[i + 1..];
    }
  }

  /** A pass copies a stretch without matches and then goes on at its end. */
  lemma {:induction false} SubCopiesBefore(p: Pass, s: string, i: nat, k: nat)
    requires i <= k <= |s|
    requires forall j :: i <= j < k ==> MatchAt(p, s, j) == None
    ensures Sub(p, s, i) == s[i..k] + Sub(p, s, k)
    decreases k - i
  {
    if i < k {
      SubCopiesBefore(p, s, i + 1, k);
      SubMiss(p, s, i);
      assert s[i..k] == [s[i]] + s[i + 1..k];
    }
  }

  /** Where a pass finds no match it copies one character. */
  lemma SubMiss(p: Pass, s: string, i: nat)
    requires i < |s| && MatchAt(p, s, i) == None
    ensures Sub(p, s, i) == [s[i]] + Sub(p, s, i + 1)
  {
  }

  /** The `_` emphasis lookahead is literally `_ `: a closing `_` followed
      by `_ ` is no emphasis, while one followed by `_x` is. */
  lemma UnderscoreLookahead()
    ensures MatchAt(EmUnder, "_a__ b", 0) == None
    ensures MatchAt(EmUnder, "_a__b", 0) == Some((3, "<em>a</em>"))
  {
    var s := "_a__ b";
    assert BodyEnd(s, 1, '_') == Some(2) by { BodyEndFirst(s, 1, '_', 2); }
    var t := "_a__b";
    assert BodyEnd(t, 1, '_') == Some(2) by { BodyEndFirst(t, 1, '_', 2); }
    assert t[1..2] == "a" && t[4] == 'b';
    assert MatchAt(EmUnder, t, 0).value.1 == "<em>a</em>";
  }
}
