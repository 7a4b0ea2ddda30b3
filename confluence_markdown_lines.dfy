/** What `markdown_to_storage` does with one line of a given shape: headings,
    list items, a plain line after a quote, and tables. Each lemma names the
    shape of the line (after `rstrip`) and the flags before it, and states the
    fragments the loop appends and the flags it leaves. */
module ConfluenceMarkdownLines {
  import opened Wrappers
  import opened Text
  import opened ConfluenceInline
  import opened ConfluenceMarkdown

  // ----- facts about the shape of a line -----

  /** `n` hash marks. */
  function Hashes(n: nat): (r: string)
    ensures |r| == n && forall j :: 0 <= j < n ==> r[j] == '#'
  {
    if n == 0 then [] else "#" + Hashes(n - 1)
  }

  /** A line that starts with a non-blank is not blank, and `strip` keeps its first character. */
  lemma FirstNotSpace(line: string)
    requires line != [] && !IsSpace(line[0])
    ensures LStrip(line) == line
    ensures Strip(line) != [] && Strip(line)[0] == line[0]
  {
    RStripSpec(line);
    assert |RStrip(line)| > 0;
  }

  /** A line that starts with a non-blank followed by a blank is not a rule. */
  lemma MarkerNotRule(line: string)
    requires |line| >= 2 && !IsSpace(line[0]) && IsSpace(line[1])
    ensures !IsRule(line)
  {
    FirstNotSpace(line);
    RStripSpec(line);
    var t := Strip(line);
    if |t| >= 3 {
      assert t[1] == line[1];
    }
  }

  /** A line whose first character is not blank and not one of `*-_` is not a rule. */
  lemma FirstNotRule(line: string)
    requires line != [] && !IsSpace(line[0]) && line[0] != '*' && line[0] != '-' && line[0] != '_'
    ensures !IsRule(line)
  {
    FirstNotSpace(line);
  }

  /** Only blanks in `s` when `strip` leaves nothing. */
  lemma StripEmptyAllSpace(s: string)
    requires Strip(s) == []
    ensures forall j :: 0 <= j < |s| ==> IsSpace(s[j])
  {
    LStripSpec(s);
    RStripSpec(LStrip(s));
    forall j | 0 <= j < |s| ensures IsSpace(s[j]) {
      if j >= |s| - |LStrip(s)| {
        assert s[j] == LStrip(s)[j - (|s| - |LStrip(s)|)];
      }
    }
  }

  /** `s.startswith(t)` fails when the first characters differ. */
  lemma NotStartsWith(s: string, t: string)
    requires s != [] && t != [] && s[0] != t[0]
    ensures !StartsWith(s, t)
  {
    if |t| <= |s| {
      assert s[..|t|][0] == s[0];
    }
  }

  /** `s` after `lstrip` when one blank is followed by a non-blank. */
  lemma LStripOneBlank(c: char, text: string)
    requires IsSpace(c) && text != [] && !IsSpace(text[0])
    ensures LStrip([c] + text) == text
  {
    assert ([c] + text)[1..] == text;
  }

  /** A line that reaches the tests of the `else` branch: not a fence, not blank,
      not a table (no `|`), not a rule, not a heading, not a quote. */
  lemma OtherKind(lines: seq<string>, i: nat, st: State)
    requires i < |lines| && !st.inCode
    requires var line := RStrip(lines[i]);
      line != [] && !IsSpace(line[0]) && line[0] != '`' && line[0] != '#' && line[0] != '>'
      && !HasChar(line, '|') && !IsRule(line)
    ensures Classify(lines, i, st) == Other(RStrip(lines[i]))
  {
    var line := RStrip(lines[i]);
    FirstNotSpace(line);
    NotStartsWith(line, "```");
    NotStartsWith(line, ">");
    assert LeadRun(line, '#') == 0;
  }

  // ----- headings -----

  /** `^(#{1,6})\s+(.*)$` on `n` hashes, a blank and a text that starts with a non-blank. */
  lemma HeadingOf(n: nat, c: char, text: string)
    requires 1 <= n <= 6 && IsSpace(c) && text != [] && !IsSpace(text[0])
    ensures Heading(Hashes(n) + [c] + text) == Some((n, text))
  {
    var line := Hashes(n) + [c] + text;
    assert line[n] == c;
    assert LeadRun(line, '#') == n;
    assert line[n..] == [c] + text;
    LStripOneBlank(c, text);
  }

  /** A heading line closes the open paragraph, lists and quote, then writes
      `<hN>render_inline(text)</hN>` with N the number of hashes. */
  lemma HeadingStep(lines: seq<string>, i: nat, st: State, n: nat, c: char, text: string)
    requires i < |lines| && !st.inCode && 1 <= n <= 6
    requires RStrip(lines[i]) == Hashes(n) + [c] + text && IsSpace(c)
    requires text != [] && !IsSpace(text[0]) && !HasChar(text, '|')
    ensures Step(lines, i, st)
      == Out(CloseBlocks(st).frags + [HeadLine(n, text)], i + 1, State(false, false, false, false, false))
    ensures var d := [('0' as int + n) as char];
      FragStr(HeadLine(n, text)) == "<h" + d + ">" + RenderInline(text) + "</h" + d + ">"
  {
    HeadingKind(lines, i, st, n, c, text);
  }

  lemma HeadingKind(lines: seq<string>, i: nat, st: State, n: nat, c: char, text: string)
    requires i < |lines| && !st.inCode && 1 <= n <= 6
    requires RStrip(lines[i]) == Hashes(n) + [c] + text && IsSpace(c)
    requires text != [] && !IsSpace(text[0]) && !HasChar(text, '|')
    ensures Classify(lines, i, st) == HeadingLine(n, text)
  {
    var line := RStrip(lines[i]);
    assert line[0] == '#';
    FirstNotSpace(line);
    FirstNotRule(line);
    NotStartsWith(line, "```");
    assert !HasChar(line, '|') by {
      forall j | 0 <= j < |line| ensures line[j] != '|' {
        if j > n { assert line[j] == text[j - n - 1]; }
      }
    }
    HeadingOf(n, c, text);
  }

  // ----- list items -----

  /** `^[-*]\s+(.+)$` on a marker, a blank and a text that starts with a non-blank. */
  lemma UlItemOf(m: char, c: char, text: string)
    requires (m == '-' || m == '*') && IsSpace(c) && text != [] && !IsSpace(text[0])
    ensures UlItem([m, c] + text) == Some(text)
  {
    var line := [m, c] + text;
    assert line[1..] == [c] + text;
    LStripOneBlank(c, text);
  }

  /** `^\d+\.\s+(.+)$` on digits, a dot, a blank and a text that starts with a non-blank. */
  lemma OlItemOf(digits: string, c: char, text: string)
    requires digits != [] && (forall j :: 0 <= j < |digits| ==> IsDigit(digits[j]))
    requires IsSpace(c) && text != [] && !IsSpace(text[0])
    ensures OlItem(digits + ['.', c] + text) == Some(text)
  {
    var line := digits + ['.', c] + text;
    var d := |digits|;
    assert line[d] == '.';
    assert LeadDigits(line) == d;
    assert line[d + 1..] == [c] + text;
    LStripOneBlank(c, text);
  }

  /** No `|` in a text, nor in it with a short prefix free of `|`. */
  lemma NoPipePrefixed(p: string, text: string)
    requires forall j :: 0 <= j < |p| ==> p[j] != '|'
    requires !HasChar(text, '|')
    ensures !HasChar(p + text, '|')
  {
    forall j | 0 <= j < |p + text| ensures (p + text)[j] != '|' {
      if j >= |p| { assert (p + text)[j] == text[j - |p|]; }
    }
  }

  /** The classification of a `-` or `*` item line. */
  lemma UlKind(lines: seq<string>, i: nat, st: State, m: char, c: char, text: string)
    requires i < |lines| && !st.inCode
    requires RStrip(lines[i]) == [m, c] + text && (m == '-' || m == '*') && IsSpace(c)
    requires text != [] && !IsSpace(text[0]) && !HasChar(text, '|')
    ensures Classify(lines, i, st) == Other([m, c] + text)
    ensures UlItem([m, c] + text) == Some(text)
  {
    var line := [m, c] + text;
    assert line[0] == m && line[1] == c;
    MarkerNotRule(line);
    NoPipePrefixed([m, c], text);
    OtherKind(lines, i, st);
    UlItemOf(m, c, text);
  }

  /** The classification of a numbered item line. */
  lemma OlKind(lines: seq<string>, i: nat, st: State, digits: string, c: char, text: string)
    requires i < |lines| && !st.inCode
    requires RStrip(lines[i]) == digits + ['.', c] + text && IsSpace(c)
    requires digits != [] && (forall j :: 0 <= j < |digits| ==> IsDigit(digits[j]))
    requires text != [] && !IsSpace(text[0]) && !HasChar(text, '|')
    ensures Classify(lines, i, st) == Other(digits + ['.', c] + text)
    ensures UlItem(digits + ['.', c] + text) == None
    ensures OlItem(digits + ['.', c] + text) == Some(text)
  {
    var line := digits + ['.', c] + text;
    assert line[0] == digits[0];
    assert IsDigit(line[0]);
    FirstNotRule(line);
    assert digits + ['.', c] + text == (digits + ['.', c]) + text;
    NoPipePrefixed(digits + ['.', c], text);
    OtherKind(lines, i, st);
    OlItemOf(digits, c, text);
  }

  /** The `else` branch on an unordered item while an ordered list is open. */
  lemma UlAfterOlAct(line: string, text: string, st: State)
    requires UlItem(line) == Some(text) && st.inOl && !st.inUl && !st.inQuote
    ensures Act(Other(line), st)
      == Emit(ClosePara(st).frags + [Close(Ol), Open(Ul), Item(text)], st.(inPara := false, inOl := false, inUl := true))
  {
  }

  /** The `else` branch on a numbered item while an unordered list is open. */
  lemma OlAfterUlAct(line: string, text: string, st: State)
    requires UlItem(line) == None && OlItem(line) == Some(text) && st.inUl && !st.inOl && !st.inQuote
    ensures Act(Other(line), st)
      == Emit(ClosePara(st).frags + [Close(Ul), Open(Ol), Item(text)], st.(inPara := false, inUl := false, inOl := true))
  {
  }

  /** The `else` branch on an item of the list that is open. */
  lemma SameListAct(line: string, text: string, st: State)
    requires !st.inQuote
    requires (UlItem(line) == Some(text) && st.inUl) || (UlItem(line) == None && OlItem(line) == Some(text) && st.inOl)
    ensures Act(Other(line), st) == Emit([Item(text)], st)
  {
  }

  /** An unordered item while an ordered list is open writes `</ol><ul>` (closing
      an open paragraph before them) and then the item. */
  lemma UlAfterOl(lines: seq<string>, i: nat, st: State, m: char, c: char, text: string)
    requires i < |lines| && st.inOl && !st.inUl && !st.inQuote && !st.inCode
    requires RStrip(lines[i]) == [m, c] + text && (m == '-' || m == '*') && IsSpace(c)
    requires text != [] && !IsSpace(text[0]) && !HasChar(text, '|')
    ensures Step(lines, i, st)
      == Out(ClosePara(st).frags + [Close(Ol), Open(Ul), Item(text)], i + 1,
             st.(inPara := false, inOl := false, inUl := true))
  {
    UlKind(lines, i, st, m, c, text);
    UlAfterOlAct([m, c] + text, text, st);
  }

  /** A numbered item while an unordered list is open writes `</ul><ol>` (closing
      an open paragraph before them) and then the item. */
  lemma OlAfterUl(lines: seq<string>, i: nat, st: State, digits: string, c: char, text: string)
    requires i < |lines| && st.inUl && !st.inOl && !st.inQuote && !st.inCode
    requires RStrip(lines[i]) == digits + ['.', c] + text && IsSpace(c)
    requires digits != [] && (forall j :: 0 <= j < |digits| ==> IsDigit(digits[j]))
    requires text != [] && !IsSpace(text[0]) && !HasChar(text, '|')
    ensures Step(lines, i, st)
      == Out(ClosePara(st).frags + [Close(Ul), Open(Ol), Item(text)], i + 1,
             st.(inPara := false, inUl := false, inOl := true))
  {
    OlKind(lines, i, st, digits, c, text);
    OlAfterUlAct(digits + ['.', c] + text, text, st);
  }

  /** A further unordered item joins the open `<ul>`: only the item is written and
      no flag changes, so an open paragraph stays open. */
  lemma UlInUl(lines: seq<string>, i: nat, st: State, m: char, c: char, text: string)
    requires i < |lines| && st.inUl && !st.inQuote && !st.inCode
    requires RStrip(lines[i]) == [m, c] + text && (m == '-' || m == '*') && IsSpace(c)
    requires text != [] && !IsSpace(text[0]) && !HasChar(text, '|')
    ensures Step(lines, i, st) == Out([Item(text)], i + 1, st)
  {
    UlKind(lines, i, st, m, c, text);
    SameListAct([m, c] + text, text, st);
  }

  /** A further numbered item joins the open `<ol>` in the same way. */
  lemma OlInOl(lines: seq<string>, i: nat, st: State, digits: string, c: char, text: string)
    requires i < |lines| && st.inOl && !st.inQuote && !st.inCode
    requires RStrip(lines[i]) == digits + ['.', c] + text && IsSpace(c)
    requires digits != [] && (forall j :: 0 <= j < |digits| ==> IsDigit(digits[j]))
    requires text != [] && !IsSpace(text[0]) && !HasChar(text, '|')
    ensures Step(lines, i, st) == Out([Item(text)], i + 1, st)
  {
    OlKind(lines, i, st, digits, c, text);
    SameListAct(digits + ['.', c] + text, text, st);
  }

  // ----- a quote followed by a plain line -----

  /** A line that starts with a letter, inside a quote, writes `</blockquote>` and
      then joins (or opens) a paragraph: a paragraph opened inside the quote stays
      open past its `</blockquote>`. */
  lemma PlainAfterQuote(lines: seq<string>, i: nat, st: State)
    requires i < |lines| && st.inQuote && !st.inCode
    requires var line := RStrip(lines[i]);
      line != [] && IsAsciiLetter(line[0]) && !HasChar(line, '|')
    ensures var line := RStrip(lines[i]);
      Step(lines, i, st)
        == Out([Close(Quote)] + (if st.inPara then [] else [Open(P)]) + [Inline(line)], i + 1,
               st.(inQuote := false, inPara := true))
  {
    var line := RStrip(lines[i]);
    FirstNotRule(line);
    OtherKind(lines, i, st);
    assert LeadDigits(line) == 0;
    PlainAct(line, st);
  }

  /** The `else` branch on a line that is no list item, inside a quote. */
  lemma PlainAct(line: string, st: State)
    requires UlItem(line) == None && OlItem(line) == None && st.inQuote
    ensures Act(Other(line), st)
      == Emit([Close(Quote)] + (if st.inPara then [] else [Open(P)]) + [Inline(line)],
              st.(inQuote := false, inPara := true))
  {
  }

  // ----- tables -----

  /** A table line is never blank. */
  lemma PipeNotBlank(line: string)
    requires HasChar(line, '|')
    ensures Strip(line) != []
  {
    if Strip(line) == [] {
      StripEmptyAllSpace(line);
    }
  }

  /** Row `k` of `ParseRows` is `parse_cells` of line `k`. */
  lemma {:induction false} ParseRowsAt(ls: seq<string>, k: nat)
    requires k < |ls|
    ensures ParseRows(ls)[k] == ParseCells(ls[k])
    decreases |ls|
  {
    if k < |ls| - 1 {
      ParseRowsAt(ls[..|ls| - 1], k);
    }
  }

  /** Fragment `k` of `RowFrags` is the `<tr>` of row `k`. */
  lemma {:induction false} RowFragsAt(rows: seq<seq<string>>, k: nat)
    requires k < |rows|
    ensures RowFrags(rows)[k] == BodyRow(rows[k])
    decreases |rows|
  {
    if k < |rows| - 1 {
      RowFragsAt(rows[..|rows| - 1], k);
    }
  }

  /** The body of a table: one `<tr>` per row line, holding `parse_cells` of that line. */
  lemma TableBody(ls: seq<string>)
    ensures |RowFrags(ParseRows(ls))| == |ls|
    ensures forall k :: 0 <= k < |ls| ==> RowFrags(ParseRows(ls))[k] == BodyRow(ParseCells(ls[k]))
  {
    forall k | 0 <= k < |ls| ensures RowFrags(ParseRows(ls))[k] == BodyRow(ParseCells(ls[k])) {
      RowFragsAt(ParseRows(ls), k);
      ParseRowsAt(ls, k);
    }
  }

  /** A line holding `|` (and not opening a fence) whose next line is a separator row
      starts a table: the open blocks close, then `<table>`, the header row of
      `parse_cells` of the line, `<tbody>`, the rows of the lines from the one after
      the separator up to `TableEnd` (the longest run of row lines, by
      `TableEndMaximal`; see `TableBody`), `</tbody></table>`; the loop resumes at
      `TableEnd`. */
  lemma TableStep(lines: seq<string>, i: nat, st: State)
    requires i + 1 < |lines| && !st.inCode
    requires HasChar(RStrip(lines[i]), '|') && !StartsWith(RStrip(lines[i]), "```")
    requires IsSeparatorRow(lines[i + 1])
    ensures var e := TableEnd(lines, i + 2);
      Step(lines, i, st)
        == Out(CloseBlocks(st).frags
                 + [Text("<table>"), HeadRow(ParseCells(RStrip(lines[i]))), Text("<tbody>")]
                 + RowFrags(ParseRows(lines[i + 2..e])) + [Text("</tbody>"), Text("</table>")],
               e, State(false, false, false, false, false))
  {
    var e := TableEnd(lines, i + 2);
    TableKind(lines, i, st);
    TableAct(ParseCells(RStrip(lines[i])), ParseRows(lines[i + 2..e]), e, st);
  }

  lemma TableKind(lines: seq<string>, i: nat, st: State)
    requires i + 1 < |lines| && !st.inCode
    requires HasChar(RStrip(lines[i]), '|') && !StartsWith(RStrip(lines[i]), "```")
    requires IsSeparatorRow(lines[i + 1])
    ensures var e := TableEnd(lines, i + 2);
      Classify(lines, i, st) == Table(ParseCells(RStrip(lines[i])), ParseRows(lines[i + 2..e]), e)
  {
    PipeNotBlank(RStrip(lines[i]));
  }

  lemma TableAct(header: seq<string>, rows: seq<seq<string>>, e: nat, st: State)
    ensures Act(Table(header, rows, e), st)
      == Emit(CloseBlocks(st).frags + [Text("<table>"), HeadRow(header), Text("<tbody>")]
                + RowFrags(rows) + [Text("</tbody>"), Text("</table>")], State(false, false, false, false, st.inCode))
  {
  }

  // ----- the HTML of a table row -----

  /** The cells of two runs of cells, one after the other. */
  lemma {:induction false} CellsHtmlAppend(tag: string, a: seq<string>, b: seq<string>)
    ensures CellsHtml(tag, a + b) == CellsHtml(tag, a) + CellsHtml(tag, b)
    decreases |a|
  {
    if a == [] {
      assert a + b == b;
    } else {
      assert (a + b)[0] == a[0];
      assert (a + b)[1..] == a[1..] + b;
      CellsHtmlAppend(tag, a[1..], b);
    }
  }

  /** One more cell adds one `<tag>render_inline(cell)</tag>` element at the end: the
      header has one `<th>` and a body row one `<td>` per cell, in order. */
  lemma CellsHtmlSnoc(tag: string, cells: seq<string>, c: string)
    ensures CellsHtml(tag, cells + [c]) == CellsHtml(tag, cells) + CellHtml(tag, c)
  {
    CellsHtmlAppend(tag, cells, [c]);
    assert [c][1..] == [];
  }
}
