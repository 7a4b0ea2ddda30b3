/** `html_to_markdown_light`: sixteen `re.sub` passes over the page HTML, in
    order, then `strip()`. Each pattern is matched by a scanner that follows
    Python's `re` on it: `[^>]*` followed by `>` stops at the first `>`, a lazy
    `(.*?)` ends at the first occurrence of the closing literal, and a match
    at one position is replaced before the scan goes on after it. */
module ConfluenceReduce {
  import opened Wrappers
  import opened Text

  // ----- matching literals under IGNORECASE -----

  /** One pattern character against one text character under `re.IGNORECASE`:
      an ASCII letter also matches its capital, `i` also matches `İ` and `ı`,
      and `s` also matches `ſ`; any other pattern character matches itself. */
  predicate CharEqI(c: char, p: char) {
    if 'a' <= p <= 'z' then
      c == p || c == UpperChar(p) || (p == 'i' && (c == '\U{130}' || c == '\U{131}'))
      || (p == 's' && c == '\U{17F}')
    else c == p
  }

  /** The literal `lit` matches at position `i` of `s`. */
  predicate LitAt(s: string, i: nat, lit: string) {
    i + |lit| <= |s| && forall k :: 0 <= k < |lit| ==> CharEqI(s[i + k], lit[k])
  }

  /** The first position at or after `from` where `lit` matches. */
  function FindLit(s: string, lit: string, from: nat): (r: Option<nat>)
    requires |lit| > 0
    ensures r.Some? ==> from <= r.value && LitAt(s, r.value, lit)
    ensures r.Some? ==> forall j :: from <= j < r.value ==> !LitAt(s, j, lit)
    ensures r.None? ==> forall j :: from <= j ==> !LitAt(s, j, lit)
    decreases |s| - from
  {
    if from + |lit| > |s| then None
    else if LitAt(s, from, lit) then Some(from)
    else FindLit(s, lit, from + 1)
  }

  /** How many blanks start `s[i..]`. */
  function SpaceRun(s: string, i: nat): (n: nat)
    requires i <= |s|
    ensures i + n <= |s|
    ensures forall j :: i <= j < i + n ==> IsSpace(s[j])
    ensures i + n < |s| ==> !IsSpace(s[i + n])
    decreases |s| - i
  {
    if i < |s| && IsSpace(s[i]) then 1 + SpaceRun(s, i + 1) else 0
  }

  // ----- the patterns -----

  datatype Pat =
      /** `<name[^>]*>(.*?)close`, replaced by `pre`, the group, `post`. */
    | Pair(name: string, close: string, pre: string, post: string)
      /** `<br`, blanks (`\s*`), an optional `/`, `>`: replaced by a line break. */
    | Br
      /** `<a [^>]*href="([^"]+)"[^>]*>(.*?)</a>`, replaced by `[\2](\1)`. */
    | Link
      /** `</?name[^>]*>`, replaced by a line break. */
    | ListTag(name: string)
      /** `<pre[^>]*><code[^>]*>(.*?)</code></pre>`, replaced by a fenced block. */
    | PreCode
      /** `<[^>]+>`, removed. */
    | AnyTag

  /** The closing literal of a pair is not empty. */
  predicate WellFormed(p: Pat) {
    !p.Pair? || |p.close| > 0
  }

  /** Where a match of `p` at `i` ends, and what replaces it; `None` when `p`
      does not match at `i`. Every pattern starts with `<`. */
  function MatchAt(p: Pat, s: string, i: nat): (r: Option<(nat, string)>)
    requires WellFormed(p)
    ensures r.Some? ==> i < r.value.0 <= |s| && s[i] == '<'
  {
    if i >= |s| || s[i] != '<' then None
    else match p
      case Pair(name, close, pre, post) => PairAt(s, i, name, close, pre, post)
      case Br => BrAt(s, i)
      case Link => LinkAt(s, i)
      case ListTag(name) => ListTagAt(s, i, name)
      case PreCode => PreCodeAt(s, i)
      case AnyTag => AnyTagAt(s, i)
  }

  function PairAt(s: string, i: nat, name: string, close: string, pre: string, post: string): (r: Option<(nat, string)>)
    requires i < |s| && |close| > 0
    ensures r.Some? ==> i < r.value.0 <= |s|
  {
    if !LitAt(s, i + 1, name) then None
    else match FindFrom(s, '>', i + 1 + |name|)
      case None => None
      case Some(g) =>
        match FindLit(s, close, g + 1)
        case None => None
        case Some(c) => Some((c + |close|, pre + s[g + 1..c] + post))
  }

  function BrAt(s: string, i: nat): (r: Option<(nat, string)>)
    requires i < |s|
    ensures r.Some? ==> i < r.value.0 <= |s|
  {
    if !LitAt(s, i + 1, "br") then None
    else
      var w := i + 3 + SpaceRun(s, i + 3);
      if w < |s| && s[w] == '>' then Some((w + 1, "\n"))
      else if w + 1 < |s| && s[w] == '/' && s[w + 1] == '>' then Some((w + 2, "\n"))
      else None
  }

  /** `[^>]*` before `href="` is greedy, so the last `href="` of the tag that
      lets the rest match is the one taken. */
  function LinkAt(s: string, i: nat): (r: Option<(nat, string)>)
    requires i < |s|
    ensures r.Some? ==> i < r.value.0 <= |s|
  {
    if !LitAt(s, i, "<a ") then None
    else
      var top := match FindFrom(s, '>', i + 3) case Some(g) => g case None => |s|;
      LinkFrom(s, i + 3, top)
  }

  /** Try `href="` at `h`, then at the positions below it down to `lo`. */
  function LinkFrom(s: string, lo: nat, h: nat): (r: Option<(nat, string)>)
    requires lo <= h <= |s|
    ensures r.Some? ==> lo < r.value.0 <= |s|
    decreases h - lo
  {
    match LinkRest(s, h)
    case Some(m) => Some(m)
    case None => if h == lo then None else LinkFrom(s, lo, h - 1)
  }

  /** The part of the link pattern from `href="` on, at `h`. */
  function LinkRest(s: string, h: nat): (r: Option<(nat, string)>)
    requires h <= |s|
    ensures r.Some? ==> h < r.value.0 <= |s|
  {
    if !LitAt(s, h, "href=\"") then None
    else match FindFrom(s, '"', h + 6)
      case None => None
      case Some(q) =>
        if q == h + 6 then None
        else match FindFrom(s, '>', q + 1)
          case None => None
          case Some(g) =>
            match FindLit(s, "</a>", g + 1)
            case None => None
            case Some(c) => Some((c + 4, "[" + s[g + 1..c] + "](" + s[h + 6..q] + ")"))
  }

  function ListTagAt(s: string, i: nat, name: string): (r: Option<(nat, string)>)
    requires i < |s|
    ensures r.Some? ==> i < r.value.0 <= |s|
  {
    var j := if i + 1 < |s| && s[i + 1] == '/' then i + 2 else i + 1;
    if !LitAt(s, j, name) then None
    else match FindFrom(s, '>', j + |name|)
      case None => None
      case Some(g) => Some((g + 1, "\n"))
  }

  function PreCodeAt(s: string, i: nat): (r: Option<(nat, string)>)
    requires i < |s|
    ensures r.Some? ==> i < r.value.0 <= |s|
  {
    if !LitAt(s, i + 1, "pre") then None
    else match FindFrom(s, '>', i + 4)
      case None => None
      case Some(g1) =>
        if !LitAt(s, g1 + 1, "<code") then None
        else match FindFrom(s, '>', g1 + 6)
          case None => None
          case Some(g2) =>
            match FindLit(s, "</code></pre>", g2 + 1)
            case None => None
            case Some(c) => Some((c + 13, "```\n" + s[g2 + 1..c] + "\n```"))
  }

  function AnyTagAt(s: string, i: nat): (r: Option<(nat, string)>)
    requires i < |s|
    ensures r.Some? ==> i < r.value.0 <= |s|
  {
    if i + 1 >= |s| || s[i + 1] == '>' then None
    else match FindFrom(s, '>', i + 2)
      case None => None
      case Some(g) => Some((g + 1, ""))
  }

  /** `re.sub(p, repl, s)` from position `i` on. */
  function Sub(p: Pat, s: string, i: nat): string
    requires WellFormed(p) && i <= |s|
    decreases |s| - i
  {
    if i == |s| then []
    else match MatchAt(p, s, i)
      case Some(m) => m.1 + Sub(p, s, m.0)
      case None => [s[i]] + Sub(p, s, i + 1)
  }

  // ----- the reducer -----

  /** The passes of `html_to_markdown_light`, in the order they run. */
  function Passes(): (ps: seq<Pat>)
    ensures forall k :: 0 <= k < |ps| ==> WellFormed(ps[k])
    ensures ps != [] && ps[|ps| - 1] == AnyTag
  {
    [ Pair("h1", "</h1>", "# ", "\n\n"), Pair("h2", "</h2>", "## ", "\n\n"),
      Pair("h3", "</h3>", "### ", "\n\n"), Pair("p", "</p>", "", "\n\n"), Br,
      Pair("strong", "</strong>", "**", "**"), Pair("b", "</b>", "**", "**"),
      Pair("em", "</em>", "*", "*"), Pair("i", "</i>", "*", "*"), Link,
      Pair("li", "</li>", "- ", "\n"), ListTag("ul"), ListTag("ol"), PreCode,
      Pair("code", "</code>", "`", "`"), AnyTag ]
  }

  /** Run the passes one after the other. */
  function RunPasses(ps: seq<Pat>, s: string): string
    requires forall k :: 0 <= k < |ps| ==> WellFormed(ps[k])
  {
    if ps == [] then s else RunPasses(ps[1..], Sub(ps[0], s, 0))
  }

  function HtmlToMarkdownLight(html: string): string {
    Strip(RunPasses(Passes(), html))
  }

  // ----- no tag survives -----

  /** `<[^>]+>` matches at `a`: a `<`, a character other than `>`, and a `>` further on. */
  predicate TagAt(t: string, a: nat) {
    a + 1 < |t| && t[a] == '<' && t[a + 1] != '>' && HasChar(t[a + 2..], '>')
  }

  predicate NoTag(t: string) {
    forall a :: 0 <= a < |t| ==> !TagAt(t, a)
  }

  /** The output of `html_to_markdown_light` never holds a substring matching
      `<[^>]+>`: the last pass removes every such match without making a new one,
      and `strip` only cuts the ends. */
  lemma ReducedHasNoTag(html: string)
    ensures NoTag(HtmlToMarkdownLight(html))
  {
    LastPassNoTag(Passes(), html);
    NoTagStrip(RunPasses(Passes(), html));
  }

  lemma {:induction false} LastPassNoTag(ps: seq<Pat>, s: string)
    requires forall k :: 0 <= k < |ps| ==> WellFormed(ps[k])
    requires ps != [] && ps[|ps| - 1] == AnyTag
    ensures NoTag(RunPasses(ps, s))
    decreases |ps|
  {
    if |ps| == 1 {
      assert ps[1..] == [];
      AnyTagPass(s, 0);
    } else {
      assert ps[1..][|ps| - 2] == AnyTag;
      LastPassNoTag(ps[1..], Sub(ps[0], s, 0));
    }
  }

  /** The `<[^>]+>` pass leaves no match. */
  lemma {:induction false} AnyTagPass(s: string, i: nat)
    requires i <= |s|
    ensures NoTag(Sub(AnyTag, s, i))
    decreases |s| - i
  {
    if i < |s| {
      match MatchAt(AnyTag, s, i)
      case Some(m) =>
        assert m.1 == [];
        assert Sub(AnyTag, s, i) == m.1 + Sub(AnyTag, s, m.0);
        assert Sub(AnyTag, s, i) == Sub(AnyTag, s, m.0);
        AnyTagPass(s, m.0);
      case None =>
        var u := Sub(AnyTag, s, i + 1);
        assert Sub(AnyTag, s, i) == [s[i]] + u;
        AnyTagPass(s, i + 1);
        if s[i] == '<' && i + 1 < |s| {
          if s[i + 1] == '>' {
            AnyTagGt(s, i + 1);
          } else {
            assert FindFrom(s, '>', i + 2).None?;
            AnyTagKeepsOut(s, i + 1, '>');
          }
        }
        NoTagCons(s[i], u);
    }
  }

  /** A `>` is copied by the `<[^>]+>` pass. */
  lemma AnyTagGt(s: string, i: nat)
    requires i < |s| && s[i] == '>'
    ensures Sub(AnyTag, s, i) == ['>'] + Sub(AnyTag, s, i + 1)
  {
  }

  /** The `<[^>]+>` pass only removes characters. */
  lemma {:induction false} AnyTagKeepsOut(s: string, i: nat, c: char)
    requires i <= |s| && forall j :: i <= j < |s| ==> s[j] != c
    ensures !HasChar(Sub(AnyTag, s, i), c)
    decreases |s| - i
  {
    if i < |s| {
      match MatchAt(AnyTag, s, i)
      case Some(m) =>
        AnyTagKeepsOut(s, m.0, c);
      case None =>
        AnyTagKeepsOut(s, i + 1, c);
        var u := Sub(AnyTag, s, i + 1);
        forall k | 0 <= k < |[s[i]] + u| ensures ([s[i]] + u)[k] != c {
          if k > 0 { assert ([s[i]] + u)[k] == u[k - 1]; }
        }
    }
  }

  /** Putting a character before a tag-free text makes no match unless it is a
      `<` followed by something other than `>` with a `>` later on. */
  lemma NoTagCons(x: char, u: string)
    requires NoTag(u)
    requires x != '<' || (u != [] && u[0] == '>') || !HasChar(u, '>')
    ensures NoTag([x] + u)
  {
    var t := [x] + u;
    forall a | 0 <= a < |t| ensures !TagAt(t, a) {
      if a == 0 {
        if x == '<' && !HasChar(u, '>') && |t| > 2 {
          forall j | 0 <= j < |t[2..]| ensures t[2..][j] != '>' { assert t[2..][j] == u[j + 1]; }
        }
      } else {
        TagShift(x, u, a);
      }
    }
  }

  /** A tag after a first character is a tag one place further on. */
  lemma TagShift(x: char, u: string, a: nat)
    requires 0 < a
    ensures TagAt([x] + u, a) <==> TagAt(u, a - 1)
  {
    var t := [x] + u;
    if a + 1 < |t| {
      assert t[a + 2..] == u[a + 1..];
    }
  }

  /** A tag in a piece of a text is a tag of the text. */
  lemma TagSlice(t: string, lo: nat, hi: nat, a: nat)
    requires lo <= hi <= |t| && a < hi - lo
    ensures TagAt(t[lo..hi], a) ==> TagAt(t, lo + a)
  {
    var w := t[lo..hi];
    if TagAt(w, a) {
      var j :| 0 <= j < |w[a + 2..]| && w[a + 2..][j] == '>';
      assert t[lo + a + 2..][j] == '>';
    }
  }

  /** A piece of a tag-free text is tag-free. */
  lemma NoTagSlice(t: string, lo: nat, hi: nat)
    requires NoTag(t) && lo <= hi <= |t|
    ensures NoTag(t[lo..hi])
  {
    forall a | 0 <= a < hi - lo ensures !TagAt(t[lo..hi], a) {
      TagSlice(t, lo, hi, a);
    }
  }

  lemma NoTagStrip(t: string)
    requires NoTag(t)
    ensures NoTag(Strip(t))
  {
    var l := LStrip(t);
    LStripSpec(t);
    RStripSpec(l);
    var lo := |t| - |l|;
    assert Strip(t) == t[lo..lo + |RStrip(l)|];
    NoTagSlice(t, lo, lo + |RStrip(l)|);
  }

  // ----- text without markup -----

  /** Every pattern starts with `<`, so a pass over text without `<` changes nothing. */
  lemma {:induction false} SubWithoutLt(p: Pat, s: string, i: nat)
    requires WellFormed(p) && i <= |s|
    requires forall j :: i <= j < |s| ==> s[j] != '<'
    ensures Sub(p, s, i) == s[i..]
    decreases |s| - i
  {
    if i < |s| {
      SubWithoutLt(p, s, i + 1);
      assert s[i..] == [s[i]] + s[i + 1..];
    }
  }

  lemma {:induction false} RunPassesWithoutLt(ps: seq<Pat>, s: string)
    requires forall k :: 0 <= k < |ps| ==> WellFormed(ps[k])
    requires !HasChar(s, '<')
    ensures RunPasses(ps, s) == s
    decreases |ps|
  {
    if ps != [] {
      SubWithoutLt(ps[0], s, 0);
      assert s[0..] == s;
      RunPassesWithoutLt(ps[1..], s);
    }
  }

  /** Text without `<` only loses its surrounding blanks. */
  lemma PlainTextReduced(s: string)
    requires !HasChar(s, '<')
    ensures HtmlToMarkdownLight(s) == Strip(s)
  {
    RunPassesWithoutLt(Passes(), s);
  }

  // ----- single elements -----

  /** Completeness of `FindLit`: it finds the first occurrence. */
  lemma {:induction false} FindLitFirst(s: string, lit: string, from: nat, c: nat)
    requires |lit| > 0 && from <= c && LitAt(s, c, lit)
    requires forall j :: from <= j < c ==> !LitAt(s, j, lit)
    ensures FindLit(s, lit, from) == Some(c)
    decreases c - from
  {
    if from < c {
      FindLitFirst(s, lit, from + 1, c);
    }
  }

  /** How `<name[^>]*>(.*?)close` matches at `i`: the open tag runs to the first
      `>` after the name, and the lazy group ends at the first `close` after it. */
  lemma PairMatchAt(s: string, i: nat, name: string, close: string, pre: string, post: string, g: nat, c: nat)
    requires i < |s| && s[i] == '<' && |close| > 0 && LitAt(s, i + 1, name)
    requires i + 1 + |name| <= g < |s| && s[g] == '>'
    requires forall j :: i + 1 + |name| <= j < g ==> s[j] != '>'
    requires g + 1 <= c && LitAt(s, c, close)
    requires forall j :: g + 1 <= j < c ==> !LitAt(s, j, close)
    ensures MatchAt(Pair(name, close, pre, post), s, i) == Some((c + |close|, pre + s[g + 1..c] + post))
  {
    FindFromFirst(s, '>', i + 1 + |name|, g);
    FindLitFirst(s, close, g + 1, c);
  }
}
