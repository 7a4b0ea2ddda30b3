/** The block level of the Markdown to Confluence storage renderer
    (`markdown_to_storage`): a line-indexed state machine over five flags.

    `RenderFrom` is the reference definition, one `Step` per line (a table
    consumes several lines at once), and `MarkdownToStorage` is the loop of the
    source with its flags, proved to produce the same fragments. The output
    list `out` of the source is a sequence of fragments: the tags that the flags
    guard are `Open`/`Close` fragments, everything else is `Text`. */
module ConfluenceMarkdown {
  import opened Wrappers
  import opened Text
  import opened ConfluenceInline

  /** The elements opened and closed under the control of a flag. */
  datatype Tag = P | Ul | Ol | Quote | Pre

  /** A heading level. */
  type Level = n: nat | 1 <= n <= 6 witness 1

  /** An output line: a tag under a flag's control, or a line whose text is
      rendered when the lines are joined (a heading, a list item, a paragraph
      line, a line inside a fence, a table row), or literal text. */
  datatype Frag =
    | Open(tag: Tag) | Close(tag: Tag)
    | HeadLine(level: Level, text: string) | Item(text: string) | Inline(text: string) | Code(raw: string)
    | HeadRow(cells: seq<string>) | BodyRow(cells: seq<string>)
    | Text(s: string)

  function FragStr(f: Frag): string {
    match f
    case Open(P) => "<p>"
    case Close(P) => "</p>"
    case Open(Ul) => "<ul>"
    case Close(Ul) => "</ul>"
    case Open(Ol) => "<ol>"
    case Close(Ol) => "</ol>"
    case Open(Quote) => "<blockquote>"
    case Close(Quote) => "</blockquote>"
    case Open(Pre) => "<pre><code>"
    case Close(Pre) => "</code></pre>"
    case HeadLine(n, text) => HeadingHtml(n, text)
    case Item(text) => ItemHtml(text)
    case Inline(text) => RenderInline(text) + " "
    case Code(raw) => EscapeHtml(raw)
    case HeadRow(cells) => HeadRowHtml(cells)
    case BodyRow(cells) => BodyRowHtml(cells)
    case Text(s) => s
  }

  function FragStrs(fs: seq<Frag>): (r: seq<string>)
    ensures |r| == |fs|
  {
    if fs == [] then [] else [FragStr(fs[0])] + FragStrs(fs[1..])
  }

  /** `in_ul`, `in_ol`, `in_para`, `in_quote`, `in_code`. */
  datatype State = State(inUl: bool, inOl: bool, inPara: bool, inQuote: bool, inCode: bool)

  const Init := State(false, false, false, false, false)

  function Flag(st: State, t: Tag): int {
    var b := match t
      case P => st.inPara
      case Ul => st.inUl
      case Ol => st.inOl
      case Quote => st.inQuote
      case Pre => st.inCode;
    if b then 1 else 0
  }

  // ----- line classification (the regular expressions, on one line) -----

  /** The lines of the input: CRLF and CR become LF, then `split("\n")`. */
  function Lines(md: string): (r: seq<string>)
    ensures |r| >= 1
  {
    Split(ReplaceAll(ReplaceAll(md, "\r\n", "\n"), "\r", "\n"), '\n')
  }

  lemma LinesHaveNoBreak(md: string)
    ensures forall k :: 0 <= k < |Lines(md)| ==> !HasChar(Lines(md)[k], '\n')
  {
    SplitNoSep(ReplaceAll(ReplaceAll(md, "\r\n", "\n"), "\r", "\n"), '\n');
  }

  /** How many characters at the front of `s` equal `c`. */
  function LeadRun(s: string, c: char): (n: nat)
    ensures n <= |s|
    ensures forall j :: 0 <= j < n ==> s[j] == c
    ensures n < |s| ==> s[n] != c
  {
    if s == [] || s[0] != c then 0 else 1 + LeadRun(s[1..], c)
  }

  /** `^(#{1,6})\s+(.*)$`: the level and the text after the blanks. */
  function Heading(line: string): (r: Option<(nat, string)>)
    ensures r.Some? ==> 1 <= r.value.0 <= 6
  {
    var n := LeadRun(line, '#');
    if n == 0 || n > 6 || n == |line| || !IsSpace(line[n]) then None
    else Some((n, LStrip(line[n..])))
  }

  /** The group `(.+)` after a marker and `\s+`, from position `k` where the
      blanks start: the text after them, or, when only blanks follow, the last
      blank (the pattern gives one back to `.+`). */
  function ItemText(line: string, k: nat): (r: Option<string>)
    requires k <= |line|
  {
    if k == |line| || !IsSpace(line[k]) then None
    else
      var rest := LStrip(line[k..]);
      if rest != [] then Some(rest)
      else if |line| - k >= 2 then Some([line[|line| - 1]])
      else None
  }

  /** `^[-*]\s+(.+)$`. */
  function UlItem(line: string): Option<string> {
    if line != [] && (line[0] == '-' || line[0] == '*') then ItemText(line, 1) else None
  }

  /** `^\d+\.\s+(.+)$` (ASCII digits). */
  function OlItem(line: string): Option<string> {
    var d := LeadDigits(line);
    if d > 0 && d < |line| && line[d] == '.' then ItemText(line, d + 1) else None
  }

  predicate AllChar(s: string, c: char) {
    forall j :: 0 <= j < |s| ==> s[j] == c
  }

  /** `^\s*(\*{3,}|-{3,}|_{3,})\s*$`. */
  predicate IsRule(line: string) {
    var t := Strip(line);
    |t| >= 3 && (AllChar(t, '*') || AllChar(t, '-') || AllChar(t, '_'))
  }

  /** One cell of the separator row, `\s*:?-{3,}:?\s*`. */
  predicate IsSeparatorCell(c: string) {
    var d := Strip(c);
    var d1 := if |d| > 0 && d[0] == ':' then d[1..] else d;
    var d2 := if |d1| > 0 && d1[|d1| - 1] == ':' then d1[..|d1| - 1] else d1;
    |d2| >= 3 && AllChar(d2, '-')
  }

  /** `is_separator_row`: the stripped line matches
      `^\|?\s*:?-{3,}:?\s*(\|\s*:?-{3,}:?\s*)+\|?\s*$`. Cells hold no `|`, so the
      pipes split the line into an optional empty piece in front, two or more
      cells, and an optional empty piece behind. */
  predicate IsSeparatorRow(s: string) {
    var ps := Split(Strip(s), '|');
    var ps1 := if ps[0] == [] then ps[1..] else ps;
    var ps2 := if |ps1| > 0 && ps1[|ps1| - 1] == [] then ps1[..|ps1| - 1] else ps1;
    |ps2| >= 2 && forall k :: 0 <= k < |ps2| ==> IsSeparatorCell(ps2[k])
  }

  /** `parse_cells`: strip the line, strip its `|` ends, split on `|`, strip each cell. */
  function ParseCells(s: string): (r: seq<string>)
    ensures |r| >= 1
  {
    StripEach(Split(StripChar(Strip(s), '|'), '|'))
  }

  function StripEach(parts: seq<string>): (r: seq<string>)
    ensures |r| == |parts|
  {
    if parts == [] then [] else [Strip(parts[0])] + StripEach(parts[1..])
  }

  /** No cell holds a `|`. */
  lemma ParseCellsNoPipe(s: string)
    ensures forall k :: 0 <= k < |ParseCells(s)| ==> !HasChar(ParseCells(s)[k], '|')
  {
    SplitNoSep(StripChar(Strip(s), '|'), '|');
    StripEachNoChar(Split(StripChar(Strip(s), '|'), '|'), '|');
  }

  lemma {:induction false} StripEachNoChar(parts: seq<string>, c: char)
    requires forall k :: 0 <= k < |parts| ==> !HasChar(parts[k], c)
    ensures forall k :: 0 <= k < |StripEach(parts)| ==> !HasChar(StripEach(parts)[k], c)
  {
    if parts != [] {
      StripKeepsOut(parts[0], c);
      StripEachNoChar(parts[1..], c);
      var r := StripEach(parts);
      assert r == [Strip(parts[0])] + StripEach(parts[1..]);
      forall k | 0 <= k < |r| ensures !HasChar(r[k], c) {
        if k > 0 { assert r[k] == StripEach(parts[1..])[k - 1]; }
      }
    }
  }

  /** A line that continues a table: it holds `|` and does not start with `#`
      once its leading blanks are dropped. */
  predicate IsRowLine(line: string) {
    HasChar(line, '|') && !StartsWith(LStrip(line), "#")
  }

  /** Where the body rows of a table that starts at line `j` end. */
  function TableEnd(lines: seq<string>, j: nat): (e: nat)
    requires j <= |lines|
    ensures j <= e <= |lines|
    decreases |lines| - j
  {
    if j < |lines| && IsRowLine(lines[j]) then TableEnd(lines, j + 1) else j
  }

  /** The rows of a table are the longest run of row lines: every line before
      `TableEnd` is a row line and the line at `TableEnd`, if any, is not. */
  lemma {:induction false} TableEndMaximal(lines: seq<string>, j: nat)
    requires j <= |lines|
    ensures forall k :: j <= k < TableEnd(lines, j) ==> IsRowLine(lines[k])
    ensures TableEnd(lines, j) == |lines| || !IsRowLine(lines[TableEnd(lines, j)])
    decreases |lines| - j
  {
    if j < |lines| && IsRowLine(lines[j]) {
      TableEndMaximal(lines, j + 1);
    }
  }

  /** The cells of one table row, each as `<tag>render_inline(cell)</tag>`. */
  function CellsHtml(tag: string, cells: seq<string>): string {
    if cells == [] then [] else CellHtml(tag, cells[0]) + CellsHtml(tag, cells[1..])
  }

  /** One cell: `<tag>render_inline(cell)</tag>`. */
  function CellHtml(tag: string, cell: string): string {
    "<" + tag + ">" + RenderInline(cell) + "</" + tag + ">"
  }

  function HeadRowHtml(cells: seq<string>): string {
    "<thead><tr>" + CellsHtml("th", cells) + "</tr></thead>"
  }

  function BodyRowHtml(cells: seq<string>): string {
    "<tr>" + CellsHtml("td", cells) + "</tr>"
  }

  /** `parse_cells` of each row line. */
  function ParseRows(ls: seq<string>): (r: seq<seq<string>>)
    ensures |r| == |ls|
  {
    if ls == [] then [] else ParseRows(ls[..|ls| - 1]) + [ParseCells(ls[|ls| - 1])]
  }

  /** One `<tr>` fragment per row. */
  function RowFrags(rows: seq<seq<string>>): (r: seq<Frag>)
    ensures |r| == |rows|
  {
    if rows == [] then [] else RowFrags(rows[..|rows| - 1]) + [BodyRow(rows[|rows| - 1])]
  }

  function TableFrags(header: seq<string>, rows: seq<seq<string>>): seq<Frag> {
    [Text("<table>"), HeadRow(header), Text("<tbody>")] + RowFrags(rows)
      + [Text("</tbody>"), Text("</table>")]
  }

  function HeadingHtml(n: Level, text: string): string {
    "<h" + [DigitChar(n)] + ">" + RenderInline(text) + "</h" + [DigitChar(n)] + ">"
  }

  function ItemHtml(text: string): string {
    "<li>" + RenderInline(text) + "</li>"
  }

  // ----- the closers -----

  datatype Emit = Emit(frags: seq<Frag>, st: State)

  /** `close_para()`. */
  function ClosePara(st: State): Emit {
    if st.inPara then Emit([Close(P)], st.(inPara := false)) else Emit([], st)
  }

  /** `close_lists()`: `</ul>` before `</ol>`. */
  function CloseLists(st: State): Emit {
    var a := if st.inUl then [Close(Ul)] else [];
    var b := if st.inOl then [Close(Ol)] else [];
    Emit(a + b, st.(inUl := false, inOl := false))
  }

  /** `close_quote()`. */
  function CloseQuote(st: State): Emit {
    if st.inQuote then Emit([Close(Quote)], st.(inQuote := false)) else Emit([], st)
  }

  /** `close_para(); close_lists(); close_quote()`. */
  function CloseBlocks(st: State): (r: Emit)
    ensures r.st == State(false, false, false, false, st.inCode)
  {
    var a := ClosePara(st);
    var b := CloseLists(a.st);
    var c := CloseQuote(b.st);
    Emit(a.frags + b.frags + c.frags, c.st)
  }

  // ----- one step of the loop -----

  datatype Out = Out(frags: seq<Frag>, next: nat, st: State)

  /** Which branch of the loop body a line takes, with what that branch reads. */
  datatype Kind =
    | FenceOpen
    | FenceClose
    | CodeLine(raw: string)
    | Blank
    | Table(header: seq<string>, rows: seq<seq<string>>, end: nat)
    | Rule
    | HeadingLine(level: Level, text: string)
    | Quoted(text: string)
    | Other(line: string)

  /** The tests of the loop body, in the order the source makes them. */
  function Classify(lines: seq<string>, i: nat, st: State): (k: Kind)
    requires i < |lines|
    ensures k.Table? ==> i + 2 <= k.end <= |lines|
    ensures k.FenceOpen? ==> !st.inCode
    ensures k.FenceClose? || k.CodeLine? <==> st.inCode
  {
    var raw := lines[i];
    var line := RStrip(raw);
    if !st.inCode && StartsWith(line, "```") then FenceOpen
    else if st.inCode then
      if line == "```" then FenceClose else CodeLine(raw)
    else Outside(lines, i, line)
  }

  /** The tests outside a fence: a blank line, a table, then the tests on the line alone. */
  function Outside(lines: seq<string>, i: nat, line: string): (k: Kind)
    requires i < |lines|
    ensures k.Table? ==> i + 2 <= k.end <= |lines|
    ensures !k.FenceOpen? && !k.FenceClose? && !k.CodeLine?
  {
    if Strip(line) == [] then Blank
    else if HasChar(line, '|') && i + 1 < |lines| && IsSeparatorRow(lines[i + 1]) then
      var e := TableEnd(lines, i + 2);
      Table(ParseCells(line), ParseRows(lines[i + 2..e]), e)
    else Single(line)
  }

  /** A rule, a heading, a quote line, or anything else. */
  function Single(line: string): (k: Kind)
    ensures k.Rule? || k.HeadingLine? || k.Quoted? || k.Other?
  {
    if IsRule(line) then Rule
    else if Heading(line).Some? then HeadingLine(Heading(line).value.0, Heading(line).value.1)
    else if StartsWith(line, ">") then Quoted(LStrip(line[1..]))
    else Other(line)
  }

  /** What a branch appends and the flags it leaves. */
  function Act(k: Kind, st: State): Emit
  {
    match k
    case FenceOpen =>
      var c := CloseBlocks(st);
      Emit(c.frags + [Open(Pre)], c.st.(inCode := true))
    case FenceClose => Emit([Close(Pre)], st.(inCode := false))
    case CodeLine(raw) => Emit([Code(raw)], st)
    case Blank => CloseBlocks(st)
    case Table(header, rows, _) =>
      var c := CloseBlocks(st);
      Emit(c.frags + TableFrags(header, rows), c.st)
    case Rule =>
      var c := CloseBlocks(st);
      Emit(c.frags + [Text("<hr/>")], c.st)
    case HeadingLine(n, text) =>
      var c := CloseBlocks(st);
      Emit(c.frags + [HeadLine(n, text)], c.st)
    case Quoted(text) => QuoteLine(text, st)
    case Other(line) =>
      var q := CloseQuote(st);
      var b := Block(line, q.st);
      Emit(q.frags + b.frags, b.st)
  }

  /** A branch's fragments, where it leaves `i`, and the new flags. */
  function Apply(k: Kind, i: nat, st: State): Out
  {
    var e := Act(k, st);
    Out(e.frags, if k.Table? then k.end else i + 1, e.st)
  }

  /** What one turn of the `while` loop appends, where it leaves `i`, and the new flags. */
  function Step(lines: seq<string>, i: nat, st: State): (r: Out)
    requires i < |lines|
    ensures i < r.next <= |lines|
  {
    Apply(Classify(lines, i, st), i, st)
  }

  /** A `>` line: the quote opens if needed, then a paragraph inside it. */
  function QuoteLine(text: string, st: State): Emit {
    var q := QuoteOpen(st);
    var p := OpenPara(q.st);
    Emit(q.frags + p.frags + [Inline(text)], p.st)
  }

  /** A `<p>` opens unless one is open. */
  function OpenPara(st: State): Emit {
    if st.inPara then Emit([], st) else Emit([Open(P)], st.(inPara := true))
  }

  /** The first line of a quote closes the paragraph and the lists and opens `<blockquote>`. */
  function QuoteOpen(st: State): Emit {
    if st.inQuote then Emit([], st)
    else
      var a := ClosePara(st);
      var b := CloseLists(a.st);
      Emit(a.frags + b.frags + [Open(Quote)], b.st.(inQuote := true))
  }

  /** List items and paragraph lines. */
  function Block(line: string, st: State): Emit {
    if UlItem(line).Some? then UlLine(UlItem(line).value, st)
    else if OlItem(line).Some? then OlLine(OlItem(line).value, st)
    else ParaLine(line, st)
  }

  /** A `-` or `*` item: a `<ul>` opens unless one is open, closing a paragraph or an `<ol>`. */
  function UlLine(text: string, st: State): Emit {
    var pre := UlOpen(st);
    Emit(pre.frags + [Item(text)], pre.st)
  }

  /** What comes before the item: nothing inside an open list of its kind. */
  function UlOpen(st: State): Emit {
    if st.inUl then Emit([], st)
    else
      var a := ClosePara(st);
      var b := CloseOl(a.st);
      Emit(a.frags + b.frags + [Open(Ul)], b.st.(inUl := true))
  }

  /** The `</ol>` that a `<ul>` closes. */
  function CloseOl(st: State): Emit {
    if st.inOl then Emit([Close(Ol)], st.(inOl := false)) else Emit([], st)
  }

  /** A numbered item: the mirror image of `UlLine`. */
  function OlLine(text: string, st: State): Emit {
    var pre := OlOpen(st);
    Emit(pre.frags + [Item(text)], pre.st)
  }

  /** The mirror image of `UlOpen`. */
  function OlOpen(st: State): Emit {
    if st.inOl then Emit([], st)
    else
      var a := ClosePara(st);
      var b := CloseUl(a.st);
      Emit(a.frags + b.frags + [Open(Ol)], b.st.(inOl := true))
  }

  /** The `</ul>` that an `<ol>` closes. */
  function CloseUl(st: State): Emit {
    if st.inUl then Emit([Close(Ul)], st.(inUl := false)) else Emit([], st)
  }

  /** Any other line joins the open paragraph, or opens one. */
  function ParaLine(line: string, st: State): Emit {
    var p := if st.inPara then [] else [Open(P)];
    Emit(p + [Inline(line)], st.(inPara := true))
  }

  /** The fragments from line `i` on, with the final closers. */
  function RenderFrom(lines: seq<string>, i: nat, st: State): seq<Frag>
    requires i <= |lines|
    decreases |lines| - i
  {
    if i == |lines| then CloseBlocks(st).frags
    else
      var o := Step(lines, i, st);
      o.frags + RenderFrom(lines, o.next, o.st)
  }

  /** The fragments of a whole document. */
  function Fragments(md: string): seq<Frag> {
    RenderFrom(Lines(md), 0, Init)
  }

  /** `"\n".join(out).strip()`. */
  function Storage(md: string): string {
    Strip(Join(FragStrs(Fragments(md)), "\n"))
  }

  // ----- properties of the renderer -----

  /** How many times `f` occurs in `fs`. */
  function Count(fs: seq<Frag>, f: Frag): nat {
    if fs == [] then 0 else Count(fs[..|fs| - 1], f) + (if fs[|fs| - 1] == f then 1 else 0)
  }

  lemma {:induction false} CountAppend(a: seq<Frag>, b: seq<Frag>, f: Frag)
    ensures Count(a + b, f) == Count(a, f) + Count(b, f)
    decreases |b|
  {
    if b == [] {
      assert a + b == a;
    } else {
      assert (a + b)[..|a + b| - 1] == a + b[..|b| - 1];
      CountAppend(a, b[..|b| - 1], f);
    }
  }

  function Opens(fs: seq<Frag>, t: Tag): nat {
    Count(fs, Open(t))
  }

  function Closes(fs: seq<Frag>, t: Tag): nat {
    Count(fs, Close(t))
  }

  /** Both counts of a one-fragment sequence. */
  lemma TagsOne(f: Frag, t: Tag)
    ensures Opens([f], t) == (if f == Open(t) then 1 else 0)
    ensures Closes([f], t) == (if f == Close(t) then 1 else 0)
  {
    CountOne(f, Open(t));
    CountOne(f, Close(t));
  }

  lemma CountOne(f: Frag, g: Frag)
    ensures Count([f], g) == (if f == g then 1 else 0)
  {
    var s := [f];
    assert s[..|s| - 1] == [];
    assert Count(s, g) == Count([], g) + (if s[0] == g then 1 else 0);
  }

  /** Both counts of a concatenation. */
  lemma TagsAppend(a: seq<Frag>, b: seq<Frag>, t: Tag)
    ensures Opens(a + b, t) == Opens(a, t) + Opens(b, t)
    ensures Closes(a + b, t) == Closes(a, t) + Closes(b, t)
  {
    CountAppend(a, b, Open(t));
    CountAppend(a, b, Close(t));
  }

  /** The fragments of `e` open `t` exactly as often as they close it, up to the
      change of `t`'s flag from `st` to `e.st`. */
  predicate Balances(e: Emit, st: State, t: Tag) {
    Opens(e.frags, t) + Flag(st, t) == Closes(e.frags, t) + Flag(e.st, t)
  }

  lemma BalancesThen(a: Emit, st: State, b: Emit, t: Tag)
    requires Balances(a, st, t) && Balances(b, a.st, t)
    ensures Balances(Emit(a.frags + b.frags, b.st), st, t)
  {
    TagsAppend(a.frags, b.frags, t);
  }

  lemma CloseParaBalances(st: State, t: Tag)
    ensures Balances(ClosePara(st), st, t)
  {
    TagsOne(Close(P), t);
  }

  lemma CloseListsBalances(st: State, t: Tag)
    ensures Balances(CloseLists(st), st, t)
  {
    var a: seq<Frag> := if st.inUl then [Close(Ul)] else [];
    var b: seq<Frag> := if st.inOl then [Close(Ol)] else [];
    TagsOne(Close(Ul), t);
    TagsOne(Close(Ol), t);
    TagsAppend(a, b, t);
  }

  lemma CloseQuoteBalances(st: State, t: Tag)
    ensures Balances(CloseQuote(st), st, t)
  {
    TagsOne(Close(Quote), t);
  }

  lemma CloseBlocksBalances(st: State, t: Tag)
    ensures Balances(CloseBlocks(st), st, t)
  {
    var a := ClosePara(st);
    var b := CloseLists(a.st);
    var c := CloseQuote(b.st);
    CloseParaBalances(st, t);
    CloseListsBalances(a.st, t);
    CloseQuoteBalances(b.st, t);
    BalancesThen(a, st, b, t);
    BalancesThen(Emit(a.frags + b.frags, b.st), st, c, t);
  }

  /** A single fragment that leaves every flag as it was and is no tag. */
  lemma TextBalances(f: Frag, st: State, t: Tag)
    requires !f.Open? && !f.Close?
    ensures Balances(Emit([f], st), st, t)
  {
    TagsOne(f, t);
  }

  lemma QuoteOpenBalances(st: State, t: Tag)
    ensures Balances(QuoteOpen(st), st, t)
  {
    if !st.inQuote {
      var a := ClosePara(st);
      var b := CloseLists(a.st);
      CloseParaBalances(st, t);
      CloseListsBalances(a.st, t);
      BalancesThen(a, st, b, t);
      TagsOne(Open(Quote), t);
      BalancesThen(Emit(a.frags + b.frags, b.st), st, Emit([Open(Quote)], b.st.(inQuote := true)), t);
    }
  }

  lemma QuoteLineBalances(text: string, st: State, t: Tag)
    ensures Balances(QuoteLine(text, st), st, t)
  {
    var q := QuoteOpen(st);
    var p := OpenPara(q.st);
    var x := Emit(q.frags + p.frags, p.st);
    assert Balances(x, st, t) by {
      QuoteOpenBalances(st, t);
      OpenParaBalances(q.st, t);
      BalancesThen(q, st, p, t);
    }
    var y := Emit([Inline(text)], p.st);
    assert Balances(y, p.st, t) by { TextBalances(Inline(text), p.st, t); }
    BalancesThen(x, st, y, t);
    assert QuoteLine(text, st) == Emit(x.frags + y.frags, y.st);
  }

  lemma OpenParaBalances(st: State, t: Tag)
    ensures Balances(OpenPara(st), st, t)
  {
    TagsOne(Open(P), t);
  }

  lemma CloseOlBalances(st: State, t: Tag)
    ensures Balances(CloseOl(st), st, t)
  {
    TagsOne(Close(Ol), t);
  }

  lemma CloseUlBalances(st: State, t: Tag)
    ensures Balances(CloseUl(st), st, t)
  {
    TagsOne(Close(Ul), t);
  }

  /** Opening a closed block's tag keeps the count. */
  lemma OpenBalances(e: Emit, st: State, g: Tag, st': State, t: Tag)
    requires Balances(e, st, t) && Flag(e.st, g) == 0 && Flag(st', g) == 1
    requires forall h :: h != g ==> Flag(st', h) == Flag(e.st, h)
    ensures Balances(Emit(e.frags + [Open(g)], st'), st, t)
  {
    TagsOne(Open(g), t);
    TagsAppend(e.frags, [Open(g)], t);
  }

  lemma UlLineBalances(text: string, st: State, t: Tag)
    ensures Balances(UlLine(text, st), st, t)
  {
    var pre := UlOpen(st);
    UlOpenBalances(st, t);
    TextBalances(Item(text), pre.st, t);
    BalancesThen(pre, st, Emit([Item(text)], pre.st), t);
  }

  lemma UlOpenBalances(st: State, t: Tag)
    ensures Balances(UlOpen(st), st, t)
  {
    if !st.inUl {
      var a := ClosePara(st);
      var b := CloseOl(a.st);
      CloseParaBalances(st, t);
      CloseOlBalances(a.st, t);
      BalancesThen(a, st, b, t);
      OpenBalances(Emit(a.frags + b.frags, b.st), st, Ul, b.st.(inUl := true), t);
    }
  }

  lemma OlLineBalances(text: string, st: State, t: Tag)
    ensures Balances(OlLine(text, st), st, t)
  {
    var pre := OlOpen(st);
    OlOpenBalances(st, t);
    TextBalances(Item(text), pre.st, t);
    BalancesThen(pre, st, Emit([Item(text)], pre.st), t);
  }

  lemma OlOpenBalances(st: State, t: Tag)
    ensures Balances(OlOpen(st), st, t)
  {
    if !st.inOl {
      var a := ClosePara(st);
      var b := CloseUl(a.st);
      CloseParaBalances(st, t);
      CloseUlBalances(a.st, t);
      BalancesThen(a, st, b, t);
      OpenBalances(Emit(a.frags + b.frags, b.st), st, Ol, b.st.(inOl := true), t);
    }
  }

  lemma ParaLineBalances(line: string, st: State, t: Tag)
    ensures Balances(ParaLine(line, st), st, t)
  {
    var p: seq<Frag> := if st.inPara then [] else [Open(P)];
    TagsOne(Open(P), t);
    TagsOne(Inline(line), t);
    TagsAppend(p, [Inline(line)], t);
  }

  lemma BlockBalances(line: string, st: State, t: Tag)
    ensures Balances(Block(line, st), st, t)
  {
    if UlItem(line).Some? {
      UlLineBalances(UlItem(line).value, st, t);
    } else if OlItem(line).Some? {
      OlLineBalances(OlItem(line).value, st, t);
    } else {
      ParaLineBalances(line, st, t);
    }
  }

  lemma {:induction false} RowFragsUntagged(rows: seq<seq<string>>, t: Tag)
    ensures Opens(RowFrags(rows), t) == 0 && Closes(RowFrags(rows), t) == 0
  {
    if rows != [] {
      RowFragsUntagged(rows[..|rows| - 1], t);
      var r := RowFrags(rows);
      TagsOne(BodyRow(rows[|rows| - 1]), t);
      TagsAppend(RowFrags(rows[..|rows| - 1]), [BodyRow(rows[|rows| - 1])], t);
    }
  }

  /** No fragment of `fs` is a tag. */
  predicate Untagged(fs: seq<Frag>) {
    forall i :: 0 <= i < |fs| ==> !fs[i].Open? && !fs[i].Close?
  }

  lemma {:induction false} UntaggedCounts(fs: seq<Frag>, t: Tag)
    requires Untagged(fs)
    ensures Opens(fs, t) == 0 && Closes(fs, t) == 0
    decreases |fs|
  {
    if fs != [] {
      var init := fs[..|fs| - 1];
      assert Untagged(init) by {
        forall i | 0 <= i < |init| ensures !init[i].Open? && !init[i].Close? { assert init[i] == fs[i]; }
      }
      UntaggedCounts(init, t);
    }
  }

  lemma TableFragsUntagged(header: seq<string>, rows: seq<seq<string>>, t: Tag)
    ensures Opens(TableFrags(header, rows), t) == 0 && Closes(TableFrags(header, rows), t) == 0
  {
    RowFragsUntagged(rows, t);
    var a: seq<Frag> := [Text("<table>"), HeadRow(header), Text("<tbody>")];
    var c: seq<Frag> := [Text("</tbody>"), Text("</table>")];
    UntaggedCounts(a, t);
    UntaggedCounts(c, t);
    TagsAppend(a, RowFrags(rows), t);
    TagsAppend(a + RowFrags(rows), c, t);
  }

  lemma CloseBlocksThen(st: State, fs: seq<Frag>, st': State, t: Tag)
    requires Balances(Emit(fs, st'), CloseBlocks(st).st, t)
    ensures Balances(Emit(CloseBlocks(st).frags + fs, st'), st, t)
  {
    CloseBlocksBalances(st, t);
    BalancesThen(CloseBlocks(st), st, Emit(fs, st'), t);
  }

  lemma OtherBalances(line: string, st: State, t: Tag)
    ensures Balances(Act(Other(line), st), st, t)
  {
    var q := CloseQuote(st);
    CloseQuoteBalances(st, t);
    BlockBalances(line, q.st, t);
    BalancesThen(q, st, Block(line, q.st), t);
  }

  lemma ActBalances(k: Kind, st: State, t: Tag)
    requires k.FenceOpen? ==> !st.inCode
    requires k.FenceClose? ==> st.inCode
    ensures Balances(Act(k, st), st, t)
  {
    match k
    case FenceOpen =>
      TagsOne(Open(Pre), t);
      CloseBlocksThen(st, [Open(Pre)], CloseBlocks(st).st.(inCode := true), t);
    case FenceClose => TagsOne(Close(Pre), t);
    case CodeLine(raw) => TextBalances(Code(raw), st, t);
    case Blank => CloseBlocksBalances(st, t);
    case Table(header, rows, _) =>
      TableFragsUntagged(header, rows, t);
      CloseBlocksThen(st, TableFrags(header, rows), CloseBlocks(st).st, t);
    case Rule =>
      TextBalances(Text("<hr/>"), CloseBlocks(st).st, t);
      CloseBlocksThen(st, [Text("<hr/>")], CloseBlocks(st).st, t);
    case HeadingLine(n, text) =>
      TextBalances(HeadLine(n, text), CloseBlocks(st).st, t);
      CloseBlocksThen(st, [HeadLine(n, text)], CloseBlocks(st).st, t);
    case Quoted(text) => QuoteLineBalances(text, st, t);
    case Other(line) => OtherBalances(line, st, t);
  }

  /** Every turn of the loop moves each tag's count by the change in its flag. */
  lemma StepBalances(lines: seq<string>, i: nat, st: State, t: Tag)
    requires i < |lines|
    ensures Balances(Emit(Step(lines, i, st).frags, Step(lines, i, st).st), st, t)
  {
    ActBalances(Classify(lines, i, st), st, t);
  }

  /** The flags when the loop is done. */
  function FinalState(lines: seq<string>, i: nat, st: State): State
    requires i <= |lines|
    decreases |lines| - i
  {
    if i == |lines| then st
    else FinalState(lines, Step(lines, i, st).next, Step(lines, i, st).st)
  }

  lemma {:induction false} RenderFromBalances(lines: seq<string>, i: nat, st: State, t: Tag)
    requires i <= |lines|
    ensures t != Pre ==> Opens(RenderFrom(lines, i, st), t) + Flag(st, t) == Closes(RenderFrom(lines, i, st), t)
    ensures t == Pre ==>
              Opens(RenderFrom(lines, i, st), t) + Flag(st, t)
              == Closes(RenderFrom(lines, i, st), t) + Flag(FinalState(lines, i, st), t)
    decreases |lines| - i
  {
    if i == |lines| {
      CloseBlocksBalances(st, t);
    } else {
      var o := Step(lines, i, st);
      StepBalances(lines, i, st, t);
      RenderFromBalances(lines, o.next, o.st, t);
      TagsAppend(o.frags, RenderFrom(lines, o.next, o.st), t);
    }
  }

  /** Tag balance: the output opens `<p>`, `<ul>`, `<ol>` and `<blockquote>` as
      often as it closes them. `<pre><code>` is closed as often as opened unless
      the input ends inside a fence; then exactly one is left open. */
  lemma FragmentsBalanced(md: string, t: Tag)
    ensures t != Pre ==> Opens(Fragments(md), t) == Closes(Fragments(md), t)
    ensures t == Pre ==>
              Opens(Fragments(md), t)
              == Closes(Fragments(md), t) + (if FinalState(Lines(md), 0, Init).inCode then 1 else 0)
  {
    RenderFromBalances(Lines(md), 0, Init, t);
  }

  /** Inside a fence the other flags are down. */
  predicate Reachable(st: State) {
    st.inCode ==> !st.inUl && !st.inOl && !st.inPara && !st.inQuote
  }

  lemma ActReachable(k: Kind, st: State)
    requires Reachable(st) && (k.FenceClose? || k.CodeLine? <==> st.inCode)
    ensures Reachable(Act(k, st).st)
  {
  }

  lemma StepReachable(lines: seq<string>, i: nat, st: State)
    requires i < |lines| && Reachable(st)
    ensures Reachable(Step(lines, i, st).st)
  {
    ActReachable(Classify(lines, i, st), st);
  }

  /** `escape_html` of each line, one fragment per line. */
  function EscapedLines(ls: seq<string>): (r: seq<Frag>)
    ensures |r| == |ls|
  {
    if ls == [] then [] else [Code(ls[0])] + EscapedLines(ls[1..])
  }

  /** A fence that is never closed: from inside it, every remaining line is
      written as its escaped raw text, with no inline rendering, and no
      `</code></pre>` ever follows. */
  lemma {:induction false} OpenFenceToEnd(lines: seq<string>, i: nat, st: State)
    requires i <= |lines| && st.inCode && Reachable(st)
    requires forall k :: i <= k < |lines| ==> RStrip(lines[k]) != "```"
    ensures RenderFrom(lines, i, st) == EscapedLines(lines[i..])
    ensures Closes(RenderFrom(lines, i, st), Pre) == 0
    decreases |lines| - i
  {
    if i == |lines| {
      assert lines[i..] == [];
    } else {
      OpenFenceToEnd(lines, i + 1, st);
      assert lines[i..][1..] == lines[i + 1..];
      assert Classify(lines, i, st) == CodeLine(lines[i]);
      var r := RenderFrom(lines, i, st);
      assert r == [Code(lines[i])] + RenderFrom(lines, i + 1, st);
      assert lines[i..][0] == lines[i];
      TagsOne(Code(lines[i]), Pre);
      TagsAppend([Code(lines[i])], RenderFrom(lines, i + 1, st), Pre);
    }
  }

  // ----- the loop of the source -----

  method MarkdownToStorage(md: string) returns (r: string)
    ensures r == Storage(md)
  {
    var lines := Lines(md);
    var out: seq<Frag> := [];
    var i := 0;
    var st := Init;
    ghost var all := RenderFrom(lines, 0, Init);
    while i < |lines|
      invariant i <= |lines|
      invariant out + RenderFrom(lines, i, st) == all
      decreases |lines| - i
    {
      var o := ProcessLine(lines, i, st);
      RenderFromAcc(lines, i, st, out, all);
      out := out + o.frags;
      i := o.next;
      st := o.st;
    }
    var closing, stEnd := CloseBlocksM(st);
    out := out + closing;
    r := Strip(Join(FragStrs(out), "\n"));
  }

  /** One turn of the loop: the `if`/`elif` chain over the current line. */
  method ProcessLine(lines: seq<string>, i: nat, st: State) returns (o: Out)
    requires i < |lines|
    ensures o == Step(lines, i, st)
  {
    var raw := lines[i];
    var line := RStrip(raw);
    if !st.inCode && StartsWith(line, "```") {
      var c, st' := CloseBlocksM(st);
      o := Out(c + [Open(Pre)], i + 1, st'.(inCode := true));
    } else if st.inCode {
      if line == "```" {
        o := Out([Close(Pre)], i + 1, st.(inCode := false));
      } else {
        o := Out([Code(raw)], i + 1, st);
      }
    } else {
      o := OutsideLineM(lines, i, line, st);
    }
  }

  /** A blank line, a table, or a line classified on its own. */
  method OutsideLineM(lines: seq<string>, i: nat, line: string, st: State) returns (o: Out)
    requires i < |lines|
    ensures o == Apply(Outside(lines, i, line), i, st)
  {
    if Strip(line) == [] {
      var c, st' := CloseBlocksM(st);
      o := Out(c, i + 1, st');
    } else if HasChar(line, '|') && i + 1 < |lines| && IsSeparatorRow(lines[i + 1]) {
      var c, st' := CloseBlocksM(st);
      var header := ParseCells(line);
      var rows, e := TableRows(lines, i + 2);
      var t := TableM(header, rows);
      o := Out(c + t, e, st');
    } else {
      o := SingleLineM(line, i, st);
    }
  }

  /** A rule, a heading, a quote line, a list item or a paragraph line. */
  method SingleLineM(line: string, i: nat, st: State) returns (o: Out)
    ensures o == Apply(Single(line), i, st)
  {
    if IsRule(line) {
      assert Single(line) == Rule;
      var c, st' := CloseBlocksM(st);
      o := Out(c + [Text("<hr/>")], i + 1, st');
      ApplyClosing(Rule, i, st);
    } else if Heading(line).Some? {
      var (level, text) := Heading(line).value;
      assert Single(line) == HeadingLine(level, text);
      var c, st' := CloseBlocksM(st);
      o := Out(c + [HeadLine(level, text)], i + 1, st');
      ApplyClosing(HeadingLine(level, text), i, st);
    } else if StartsWith(line, ">") {
      var quoteText := LStrip(line[1..]);
      assert Single(line) == Quoted(quoteText);
      var q, st' := QuoteLineM(quoteText, st);
      o := Out(q, i + 1, st');
      ApplyQuoted(quoteText, i, st);
    } else {
      assert Single(line) == Other(line);
      var q, st' := BlockLineM(line, st);
      o := Out(q, i + 1, st');
      ApplyOther(line, i, st);
    }
  }

  /** A rule or a heading closes the blocks and writes its one fragment. */
  lemma ApplyClosing(k: Kind, i: nat, st: State)
    requires k.Rule? || k.HeadingLine?
    ensures Apply(k, i, st)
      == Out(CloseBlocks(st).frags + [if k.Rule? then Text("<hr/>") else HeadLine(k.level, k.text)], i + 1, CloseBlocks(st).st)
  {
  }

  lemma ApplyQuoted(text: string, i: nat, st: State)
    ensures Apply(Quoted(text), i, st) == Out(QuoteLine(text, st).frags, i + 1, QuoteLine(text, st).st)
  {
  }

  lemma ApplyOther(line: string, i: nat, st: State)
    ensures Apply(Other(line), i, st)
      == Out(CloseQuote(st).frags + Block(line, CloseQuote(st).st).frags, i + 1, Block(line, CloseQuote(st).st).st)
  {
  }

  /** `close_para()` on the output list. */
  method CloseParaM(out: seq<Frag>, st: State) returns (out': seq<Frag>, st': State)
    ensures out' == out + ClosePara(st).frags && st' == ClosePara(st).st
  {
    out', st' := out, st;
    if st.inPara {
      out' := out + [Close(P)];
      st' := st.(inPara := false);
    }
  }

  /** `close_lists()` on the output list. */
  method CloseListsM(out: seq<Frag>, st: State) returns (out': seq<Frag>, st': State)
    ensures out' == out + CloseLists(st).frags && st' == CloseLists(st).st
  {
    out' := out;
    if st.inUl {
      out' := out' + [Close(Ul)];
    }
    if st.inOl {
      out' := out' + [Close(Ol)];
    }
    st' := st.(inUl := false, inOl := false);
  }

  /** `close_quote()` on the output list. */
  method CloseQuoteM(out: seq<Frag>, st: State) returns (out': seq<Frag>, st': State)
    ensures out' == out + CloseQuote(st).frags && st' == CloseQuote(st).st
  {
    out', st' := out, st;
    if st.inQuote {
      out' := out + [Close(Quote)];
      st' := st.(inQuote := false);
    }
  }

  method CloseBlocksM(st: State) returns (frags: seq<Frag>, st': State)
    ensures frags == CloseBlocks(st).frags && st' == CloseBlocks(st).st
  {
    var s1, s2;
    frags, s1 := CloseParaM([], st);
    frags, s2 := CloseListsM(frags, s1);
    frags, st' := CloseQuoteM(frags, s2);
  }

  method QuoteLineM(text: string, st: State) returns (frags: seq<Frag>, st': State)
    ensures frags == QuoteLine(text, st).frags && st' == QuoteLine(text, st).st
  {
    frags, st' := [], st;
    if !st.inQuote {
      var s1;
      frags, s1 := CloseParaM(frags, st);
      frags, st' := CloseListsM(frags, s1);
      frags := frags + [Open(Quote)];
      st' := st'.(inQuote := true);
    }
    if !st'.inPara {
      frags := frags + [Open(P)];
      st' := st'.(inPara := true);
    }
    frags := frags + [Inline(text)];
  }

  /** The last branch: leave a quote, then a list item or a paragraph line. */
  method BlockLineM(line: string, st: State) returns (frags: seq<Frag>, st': State)
    ensures frags == CloseQuote(st).frags + Block(line, CloseQuote(st).st).frags
    ensures st' == Block(line, CloseQuote(st).st).st
  {
    var s1;
    frags, s1 := CloseQuoteM([], st);
    var b;
    b, st' := BlockM(line, s1);
    frags := frags + b;
  }

  /** A list item or a paragraph line. */
  method BlockM(line: string, st: State) returns (frags: seq<Frag>, st': State)
    ensures frags == Block(line, st).frags && st' == Block(line, st).st
  {
    var mUl, mOl := UlItem(line), OlItem(line);
    if mUl.Some? {
      frags, st' := UlLineM(mUl.value, st);
    } else if mOl.Some? {
      frags, st' := OlLineM(mOl.value, st);
    } else {
      frags, st' := ParaLineM(line, st);
    }
  }

  method UlLineM(text: string, st: State) returns (frags: seq<Frag>, st': State)
    ensures frags == UlLine(text, st).frags && st' == UlLine(text, st).st
  {
    frags, st' := [], st;
    if !st.inUl {
      frags, st' := CloseParaM(frags, st);
      if st'.inOl {
        frags := frags + [Close(Ol)];
      }
      frags := frags + [Open(Ul)];
      st' := st'.(inOl := false, inUl := true);
    }
    frags := frags + [Item(text)];
  }

  method OlLineM(text: string, st: State) returns (frags: seq<Frag>, st': State)
    ensures frags == OlLine(text, st).frags && st' == OlLine(text, st).st
  {
    frags, st' := [], st;
    if !st.inOl {
      frags, st' := CloseParaM(frags, st);
      if st'.inUl {
        frags := frags + [Close(Ul)];
      }
      frags := frags + [Open(Ol)];
      st' := st'.(inUl := false, inOl := true);
    }
    frags := frags + [Item(text)];
  }

  method ParaLineM(line: string, st: State) returns (frags: seq<Frag>, st': State)
    ensures frags == ParaLine(line, st).frags && st' == ParaLine(line, st).st
  {
    frags := [];
    if !st.inPara {
      frags := frags + [Open(P)];
    }
    st' := st.(inPara := true);
    frags := frags + [Inline(line)];
  }

  /** A table: the header row, then one `<tr>` per gathered row. */
  method TableM(header: seq<string>, rows: seq<seq<string>>) returns (frags: seq<Frag>)
    ensures frags == TableFrags(header, rows)
  {
    frags := [Text("<table>"), HeadRow(header), Text("<tbody>")];
    ghost var top := frags;
    var k := 0;
    assert rows[..0] == [];
    while k < |rows|
      invariant k <= |rows|
      invariant frags == top + RowFrags(rows[..k])
    {
      RowFragsStep(rows, k);
      frags := frags + [BodyRow(rows[k])];
      k := k + 1;
    }
    assert rows[..|rows|] == rows;
    frags := frags + [Text("</tbody>"), Text("</table>")];
  }

  /** The inner loop that gathers the body rows of a table. */
  method TableRows(lines: seq<string>, start: nat) returns (rows: seq<seq<string>>, e: nat)
    requires start <= |lines|
    ensures e == TableEnd(lines, start)
    ensures rows == ParseRows(lines[start..e])
  {
    rows := [];
    e := start;
    while e < |lines| && IsRowLine(lines[e])
      invariant start <= e <= TableEnd(lines, start)
      invariant rows == ParseRows(lines[start..e])
    {
      TableEndBelow(lines, start, e);
      ParseRowsStep(lines, start, e);
      rows := rows + [ParseCells(lines[e])];
      e := e + 1;
    }
    TableEndReached(lines, start, e);
  }

  lemma TableEndReached(lines: seq<string>, start: nat, e: nat)
    requires start <= |lines| && start <= e <= TableEnd(lines, start) && !(e < |lines| && IsRowLine(lines[e]))
    ensures e == TableEnd(lines, start)
  {
    TableEndMaximal(lines, start);
  }

  lemma RowFragsStep(rows: seq<seq<string>>, k: nat)
    requires k < |rows|
    ensures RowFrags(rows[..k + 1]) == RowFrags(rows[..k]) + [BodyRow(rows[k])]
  {
    var rs := rows[..k + 1];
    assert rs[..|rs| - 1] == rows[..k];
  }

  /** One turn of the loop keeps `out + RenderFrom(lines, i, st)` fixed. */
  lemma RenderFromAcc(lines: seq<string>, i: nat, st: State, out: seq<Frag>, all: seq<Frag>)
    requires i < |lines| && out + RenderFrom(lines, i, st) == all
    ensures var o := Step(lines, i, st); out + o.frags + RenderFrom(lines, o.next, o.st) == all
  {
    var o := Step(lines, i, st);
    RenderFromStep(lines, i, st);
    assert out + o.frags + RenderFrom(lines, o.next, o.st) == out + (o.frags + RenderFrom(lines, o.next, o.st));
  }

  lemma RenderFromStep(lines: seq<string>, i: nat, st: State)
    requires i < |lines|
    ensures RenderFrom(lines, i, st)
      == Step(lines, i, st).frags + RenderFrom(lines, Step(lines, i, st).next, Step(lines, i, st).st)
  {
  }

  /** A row line inside the table is before its end. */
  lemma TableEndBelow(lines: seq<string>, start: nat, e: nat)
    requires start <= e < |lines| && IsRowLine(lines[e]) && e <= TableEnd(lines, start)
    ensures e < TableEnd(lines, start)
  {
    TableEndMaximal(lines, start);
  }

  lemma ParseRowsStep(lines: seq<string>, start: nat, e: nat)
    requires start <= e < |lines|
    ensures ParseRows(lines[start..e + 1]) == ParseRows(lines[start..e]) + [ParseCells(lines[e])]
  {
    var ls := lines[start..e + 1];
    assert ls[..|ls| - 1] == lines[start..e];
    assert ls[|ls| - 1] == lines[e];
  }
}
