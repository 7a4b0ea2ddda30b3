/** Python's `repr` of a string and of the values `json.loads` gives, which is
    also what `str` gives for a list or a dict. */
module PyRepr {
  import opened Wrappers
  import opened Text
  import opened Json

  /** The quote `repr` puts around a string: a double quote when the text holds a
      single quote and no double quote, otherwise a single quote. */
  function QuoteOf(s: string): (q: char)
    ensures q == '"' <==> HasChar(s, '\'') && !HasChar(s, '"')
    ensures q == '"' || q == '\''
  {
    if HasChar(s, '\'') && !HasChar(s, '"') then '"' else '\''
  }

  /** The characters below U+0100 that `str.isprintable` rejects beyond the ASCII
      controls: the C1 controls, the no-break space and the soft hyphen. */
  predicate LatinNonPrintable(c: char) {
    ('\U{80}' <= c <= '\U{A0}') || c == '\U{AD}'
  }

  /** The characters `repr` writes as a `\xhh` escape. */
  predicate HexEscaped(c: char) {
    (c < ' ' && c != '\t' && c != '\n' && c != '\r') || c == '\U{7F}' || LatinNonPrintable(c)
  }

  /** A lower-case hexadecimal digit. */
  function HexDigit(n: nat): (c: char)
    requires n < 16
    ensures IsLowerHex(c) && HexVal(c) == n
  {
    if n < 10 then ('0' as int + n) as char else ('a' as int + n - 10) as char
  }

  predicate IsLowerHex(c: char) { ('0' <= c <= '9') || ('a' <= c <= 'f') }

  function HexVal(c: char): (n: nat)
    requires IsLowerHex(c)
    ensures n < 16
  {
    if c <= '9' then c as int - '0' as int else c as int - 'a' as int + 10
  }

  /** How `repr` writes one character inside quotes `q`. */
  function EscapeChar(c: char, q: char): (r: string)
    ensures r != []
    ensures r[0] == '\\' <==> c == q || c == '\\' || c == '\t' || c == '\n' || c == '\r' || HexEscaped(c)
    ensures r[0] != '\\' ==> r == [c]
  {
    if c == q || c == '\\' then ['\\', c]
    else if c == '\t' then "\\t"
    else if c == '\n' then "\\n"
    else if c == '\r' then "\\r"
    else if HexEscaped(c) then ['\\', 'x', HexDigit(c as int / 16), HexDigit(c as int % 16)]
    else [c]
  }

  /** The text between the quotes. */
  function Escape(s: string, q: char): (r: string)
    ensures |r| >= |s|
  {
    if s == [] then [] else EscapeChar(s[0], q) + Escape(s[1..], q)
  }

  /** `repr(s)`. */
  function StrRepr(s: string): (r: string)
    ensures |r| >= 2 && r[0] == QuoteOf(s) && r[|r| - 1] == QuoteOf(s)
  {
    [QuoteOf(s)] + Escape(s, QuoteOf(s)) + [QuoteOf(s)]
  }

  function Prepend(c: char, o: Option<string>): Option<string> {
    if o.Some? then Some([c] + o.value) else None
  }

  /** Reads the text between quotes `q` back, undoing the escapes `repr` writes:
      nothing when a bare quote or an unknown escape occurs. */
  function Unescape(t: string, q: char): (r: Option<string>)
    decreases |t|
  {
    if t == [] then Some([])
    else if t[0] == q then None
    else if t[0] != '\\' then Prepend(t[0], Unescape(t[1..], q))
    else if |t| < 2 then None
    else
      var e := t[1];
      if e == '\\' || e == '\'' || e == '"' then Prepend(e, Unescape(t[2..], q))
      else if e == 't' then Prepend('\t', Unescape(t[2..], q))
      else if e == 'n' then Prepend('\n', Unescape(t[2..], q))
      else if e == 'r' then Prepend('\r', Unescape(t[2..], q))
      else if e == 'x' && |t| >= 4 && IsLowerHex(t[2]) && IsLowerHex(t[3]) then
        Prepend((16 * HexVal(t[2]) + HexVal(t[3])) as char, Unescape(t[4..], q))
      else None
  }

  /** Reads a quoted literal as `repr` writes it. */
  function ReadRepr(r: string): (s: Option<string>)
  {
    if |r| >= 2 && (r[0] == '\'' || r[0] == '"') && r[|r| - 1] == r[0] then Unescape(r[1..|r| - 1], r[0])
    else None
  }

  /** One escaped character reads back as itself, whatever follows it. */
  lemma UnescapeChar(c: char, q: char, t: string)
    requires q == '"' || q == '\''
    ensures Unescape(EscapeChar(c, q) + t, q) == Prepend(c, Unescape(t, q))
  {
    var u := EscapeChar(c, q) + t;
    if HexEscaped(c) && !(c == q || c == '\\' || c == '\t' || c == '\n' || c == '\r') {
      var n := c as int;
      assert n < 256;
      assert u[0] == '\\' && u[1] == 'x' && u[2] == HexDigit(n / 16) && u[3] == HexDigit(n % 16);
      assert (16 * HexVal(u[2]) + HexVal(u[3])) as char == c;
      assert u[4..] == t;
    } else if |EscapeChar(c, q)| == 2 {
      assert u[2..] == t;
    } else {
      assert u[1..] == t;
    }
  }

  lemma {:induction false} UnescapeEscape(s: string, q: char)
    requires q == '"' || q == '\''
    ensures Unescape(Escape(s, q), q) == Some(s)
  {
    if s != [] {
      UnescapeEscape(s[1..], q);
      UnescapeChar(s[0], q, Escape(s[1..], q));
      assert [s[0]] + s[1..] == s;
    }
  }

  /** `repr` loses nothing: its literal reads back as the string. */
  lemma ReprRoundTrip(s: string)
    ensures ReadRepr(StrRepr(s)) == Some(s)
  {
    var r := StrRepr(s);
    assert r[1..|r| - 1] == Escape(s, QuoteOf(s));
    UnescapeEscape(s, QuoteOf(s));
  }

  /** A string with no quote, backslash or character `repr` escapes is written
      between single quotes as it is. */
  lemma {:induction false} PlainRepr(s: string)
    requires forall i :: 0 <= i < |s| ==> s[i] != '\'' && s[i] != '"' && s[i] != '\\'
                                          && s[i] != '\t' && s[i] != '\n' && s[i] != '\r' && !HexEscaped(s[i])
    ensures StrRepr(s) == "'" + s + "'"
  {
    PlainEscape(s, '\'');
  }

  lemma {:induction false} PlainEscape(s: string, q: char)
    requires forall i :: 0 <= i < |s| ==> s[i] != q && s[i] != '\\'
                                          && s[i] != '\t' && s[i] != '\n' && s[i] != '\r' && !HexEscaped(s[i])
    ensures Escape(s, q) == s
  {
    if s != [] {
      PlainEscape(s[1..], q);
      assert [s[0]] + s[1..] == s;
    }
  }

  /** `repr(v)` for a parsed JSON value (`str(v)` for a list or a dict): `None`,
      `True`/`False`, the decimal integer, the quoted string, and the elements or
      `key: value` pairs between brackets or braces, separated by `, `. */
  function JsonRepr(v: Json): (r: string)
    ensures r != []
    ensures v.JStr? ==> r == StrRepr(v.s)
    ensures v.JArr? ==> |r| >= 2 && r[0] == '[' && r[|r| - 1] == ']'
    ensures v.JObj? ==> |r| >= 2 && r[0] == '{' && r[|r| - 1] == '}'
    decreases v
  {
    match v
    case JNull => "None"
    case JBool(b) => if b then "True" else "False"
    case JInt(n) => IntToStr(n)
    case JStr(s) => StrRepr(s)
    case JArr(items) =>
      "[" + Join(seq(|items|, i requires 0 <= i < |items| => JsonRepr(items[i])), ", ") + "]"
    case JObj(fields) =>
      "{" + Join(seq(|fields|, i requires 0 <= i < |fields| =>
                       assert fields[i] in fields;
                       StrRepr(fields[i].0) + ": " + JsonRepr(fields[i].1)), ", ") + "}"
  }

  /** `str(v)`: a string as it is, any other value as its `repr`. */
  function PyStr(v: Json): (r: string)
    ensures v.JStr? ==> r == v.s
    ensures !v.JStr? ==> r == JsonRepr(v)
    ensures Truthy(v) ==> r != []
  {
    if v.JStr? then v.s else JsonRepr(v)
  }
}
