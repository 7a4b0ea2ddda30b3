/** The MySQL helper: account entries read from the environment, the choice of
    account and schema, the read-only gate on queries, and the decoding of the
    tab-separated output of `mysql --batch` into columns and rows. */
module Mysql {
  import opened Wrappers
  import opened Text
  import opened Json
  import PyRepr

  // ----- environment values -----

  /** An environment variable's value with surrounding blanks removed; a blank
      or empty value counts as unset. */
  function Env(raw: Option<string>): (r: Option<string>)
    ensures r.Some? ==> r.value != [] && Strip(r.value) == r.value
    ensures raw.None? ==> r.None?
    ensures raw.Some? && Strip(raw.value) != [] ==> r == Some(Strip(raw.value))
  {
    if raw.None? then None
    else
      var v := Strip(raw.value);
      StripEnds(raw.value);
      if v == [] then None
      else
        StripOfNonSpaceEnds(v);
        Some(v)
  }

  // ----- accounts -----

  datatype Account = Account(name: string, host: string, port: string, username: string,
                             password: string, database: string)

  const DefaultPort := 3306

  const InvalidAccount := "[ERROR] Invalid account entry: host/username/password are required"

  /** `_normalize_account`: the aliases `host`/`hostname`, `username`/`user` and
      `database`/`schema` are read in that order of preference, an empty (falsy)
      value falls through to the next, and the name, port and database default to
      the fallback name, 3306 and the empty string. */
  function NormalizeAccount(raw: seq<(string, Json)>, fallbackName: string): (r: Result<Account>)
    ensures r.Ok? ==> r.value.host != [] && r.value.username != [] && r.value.port != []
    ensures Field(raw, "password") == JNull ==> r == Err(InvalidAccount)
    ensures !Truthy(Field(raw, "host")) && !Truthy(Field(raw, "hostname")) ==> r == Err(InvalidAccount)
    ensures !Truthy(Field(raw, "username")) && !Truthy(Field(raw, "user")) ==> r == Err(InvalidAccount)
    ensures r.Err? <==> Field(raw, "password") == JNull || (!Truthy(Field(raw, "host")) && !Truthy(Field(raw, "hostname")))
                        || (!Truthy(Field(raw, "username")) && !Truthy(Field(raw, "user")))
  {
    var name := Or(Field(raw, "name"), JStr(fallbackName));
    var host := Or(Field(raw, "host"), Field(raw, "hostname"));
    var username := Or(Field(raw, "username"), Field(raw, "user"));
    var password := Field(raw, "password");
    var port := Or(Field(raw, "port"), JInt(DefaultPort));
    var database := Or(Or(Field(raw, "database"), Field(raw, "schema")), JStr(""));
    if !Truthy(host) || !Truthy(username) || password == JNull then Err(InvalidAccount)
    else
      Ok(Account(PyRepr.PyStr(name), PyRepr.PyStr(host), PyRepr.PyStr(port), PyRepr.PyStr(username),
                 PyRepr.PyStr(password), PyRepr.PyStr(database)))
  }

  /** `str(3306)`. */
  lemma DefaultPortText()
    ensures IntToStr(DefaultPort) == "3306"
  {
    assert NatToStr(3306) == NatToStr(330) + [DigitChar(6)];
    assert NatToStr(330) == NatToStr(33) + [DigitChar(0)];
    assert NatToStr(33) == NatToStr(3) + [DigitChar(3)];
  }

  /** An account given with string values under the first-choice keys only: the name
      is the fallback, the port 3306 and the database empty; an empty password is
      accepted. */
  lemma AccountDefaults(raw: seq<(string, Json)>, fallbackName: string, host: string, username: string, password: string)
    requires Field(raw, "host") == JStr(host) && host != []
    requires Field(raw, "username") == JStr(username) && username != []
    requires Field(raw, "password") == JStr(password)
    requires Field(raw, "name") == JNull && Field(raw, "port") == JNull
    requires Field(raw, "database") == JNull && Field(raw, "schema") == JNull
    ensures NormalizeAccount(raw, fallbackName) == Ok(Account(fallbackName, host, "3306", username, password, ""))
  {
    DefaultPortText();
    assert Or(Field(raw, "name"), JStr(fallbackName)) == JStr(fallbackName);
    assert Or(Field(raw, "host"), Field(raw, "hostname")) == JStr(host);
    assert Or(Field(raw, "username"), Field(raw, "user")) == JStr(username);
    assert Or(Field(raw, "port"), JInt(DefaultPort)) == JInt(DefaultPort);
    assert Or(Or(Field(raw, "database"), Field(raw, "schema")), JStr("")) == JStr("");
  }

  /** An account given under the alternative keys only: `hostname`, `user` and
      `schema` are taken in place of `host`, `username` and `database`. */
  lemma AccountAliases(raw: seq<(string, Json)>, fallbackName: string, host: string, username: string,
                       password: string, schema: string)
    requires !Truthy(Field(raw, "host")) && Field(raw, "hostname") == JStr(host) && host != []
    requires !Truthy(Field(raw, "username")) && Field(raw, "user") == JStr(username) && username != []
    requires Field(raw, "password") == JStr(password)
    requires !Truthy(Field(raw, "database")) && Field(raw, "schema") == JStr(schema)
    requires Field(raw, "name") == JStr(fallbackName) && Field(raw, "port") == JStr("3306")
    ensures NormalizeAccount(raw, fallbackName) == Ok(Account(fallbackName, host, "3306", username, password, schema))
  {
    if schema == [] {
      assert Or(Or(Field(raw, "database"), Field(raw, "schema")), JStr("")) == JStr("");
    }
  }

  /** `", ".join(a.name for a in accounts)`. */
  function AccountNames(accounts: seq<Account>): (r: string)
  {
    Join(seq(|accounts|, i requires 0 <= i < |accounts| => accounts[i].name), ", ")
  }

  /** The tail of every selection error: `Available: ` and the account names. */
  function Available(accounts: seq<Account>): string {
    "Available: " + AccountNames(accounts)
  }

  lemma EndsWithSuffix(p: string, t: string)
    ensures EndsWith(p + t, t)
  {
    assert (p + t)[|p + t| - |t|..] == t;
  }

  /** The first account named `n`, as the `for account in accounts` search finds it. */
  function FirstNamed(accounts: seq<Account>, n: string): (r: Option<Account>)
    ensures r.Some? <==> exists i :: 0 <= i < |accounts| && accounts[i].name == n
    ensures r.Some? ==> exists i :: 0 <= i < |accounts| && accounts[i] == r.value && r.value.name == n
                          && forall j :: 0 <= j < i ==> accounts[j].name != n
  {
    if accounts == [] then None
    else if accounts[0].name == n then Some(accounts[0])
    else
      var t := FirstNamed(accounts[1..], n);
      assert forall i :: 1 <= i < |accounts| ==> accounts[i] == accounts[1..][i - 1];
      t
  }

  /** `_select_account`: an explicit name must match an entry; without one, a single
      account is taken, and otherwise the `MYSQL_DEFAULT_ACCOUNT` name (as `defaultVar`,
      the variable's raw value) must match. Every error lists the available names.
      An empty `accountName` stands for an absent `--account`. */
  function SelectAccount(accounts: seq<Account>, accountName: string, defaultVar: Option<string>): (r: Result<Account>)
    ensures r.Ok? ==> r.value in accounts
    ensures accountName != [] ==> (r.Ok? <==> exists i :: 0 <= i < |accounts| && accounts[i].name == accountName)
    ensures accountName != [] && r.Ok? ==> r.value.name == accountName
    ensures accountName == [] && |accounts| == 1 ==> r == Ok(accounts[0])
    ensures accountName == [] && |accounts| != 1 ==>
              (r.Ok? <==> Env(defaultVar).Some? && exists i :: 0 <= i < |accounts| && accounts[i].name == Env(defaultVar).value)
    ensures accountName == [] && |accounts| != 1 && r.Ok? ==> r.value.name == Env(defaultVar).value
    ensures r.Err? ==> EndsWith(r.msg, Available(accounts))
  {
    var names := Available(accounts);
    if accountName != [] then
      (match FirstNamed(accounts, accountName)
       case Some(a) => Ok(a)
       case None =>
         EndsWithSuffix("[ERROR] Unknown account '" + accountName + "'. ", names);
         Err("[ERROR] Unknown account '" + accountName + "'. " + names))
    else if |accounts| == 1 then Ok(accounts[0])
    else
      match Env(defaultVar)
      case Some(d) =>
        (match FirstNamed(accounts, d)
         case Some(a) => Ok(a)
         case None =>
           EndsWithSuffix("[ERROR] MYSQL_DEFAULT_ACCOUNT='" + d + "' not found. ", names);
           Err("[ERROR] MYSQL_DEFAULT_ACCOUNT='" + d + "' not found. " + names))
      case None =>
        EndsWithSuffix("[ERROR] Multiple accounts found. Use --account. ", names);
        Err("[ERROR] Multiple accounts found. Use --account. " + names)
  }

  /** When several accounts share the requested name, the first of them is chosen. */
  lemma SelectFirstOfName(accounts: seq<Account>, accountName: string, defaultVar: Option<string>, i: nat)
    requires i < |accounts| && accounts[i].name == accountName && accountName != []
    requires forall j :: 0 <= j < i ==> accounts[j].name != accountName
    ensures SelectAccount(accounts, accountName, defaultVar) == Ok(accounts[i])
  {
    var r := FirstNamed(accounts, accountName);
    var k :| 0 <= k < |accounts| && accounts[k] == r.value && r.value.name == accountName
             && forall j :: 0 <= j < k ==> accounts[j].name != accountName;
  }

  // ----- schema -----

  /** `_resolve_schema`: the `--schema` argument, else `MYSQL_DEFAULT_SCHEMA` (as
      `defaultVar`, the variable's raw value), else the account's database; an empty
      value at every step gives no schema. An empty `schemaArg` stands for an absent
      argument. */
  function ResolveSchema(account: Account, schemaArg: string, defaultVar: Option<string>): (r: Option<string>)
    ensures r.Some? ==> r.value != []
    ensures schemaArg != [] ==> r == Some(schemaArg)
    ensures schemaArg == [] && Env(defaultVar).Some? ==> r == Env(defaultVar)
    ensures schemaArg == [] && Env(defaultVar).None? ==> (r.Some? <==> account.database != [])
    ensures r.Some? ==> r.value in {schemaArg, Env(defaultVar).GetOr([]), account.database}
  {
    if schemaArg != [] then Some(schemaArg)
    else
      match Env(defaultVar)
      case Some(d) => Some(d)
      case None => if account.database != [] then Some(account.database) else None
  }

  // ----- read-only query gate -----

  const ReadOnlyKeywords: set<string> := {"SELECT", "WITH", "EXPLAIN", "SHOW", "DESCRIBE", "DESC"}

  const EmptyQuery := "[ERROR] Empty query"

  const NotReadOnly := "[ERROR] Only read-only queries are allowed (SELECT/SHOW/DESCRIBE/EXPLAIN/WITH)"

  /** The statement with surrounding blanks and one trailing `;` removed. */
  function TrimStatement(query: string): (q: string)
    ensures |q| <= |query|
  {
    var q := Strip(query);
    if EndsWith(q, ";") then Strip(q[..|q| - 1]) else q
  }

  /** The first blank-separated word of a statement, upper-cased; empty for a blank
      statement. */
  function Verb(q: string): (r: string)
  {
    if Strip(q) == [] then [] else Upper(FirstWord(q))
  }

  /** `_normalize_query`: the trimmed statement, when it is not empty and its verb is
      one of the read-only keywords. */
  function NormalizeQuery(query: string): (r: Result<string>)
    ensures r.Ok? <==> TrimStatement(query) != [] && Verb(TrimStatement(query)) in ReadOnlyKeywords
    ensures r.Ok? ==> r.value == TrimStatement(query) && Strip(r.value) == r.value
    ensures r.Err? ==> r.msg == (if TrimStatement(query) == [] then EmptyQuery else NotReadOnly)
  {
    var q := TrimStatement(query);
    TrimmedIsStripped(query);
    if q == [] then Err(EmptyQuery)
    else if Verb(q) !in ReadOnlyKeywords then Err(NotReadOnly)
    else Ok(q)
  }

  lemma TrimmedIsStripped(query: string)
    ensures Strip(TrimStatement(query)) == TrimStatement(query)
  {
    var q := Strip(query);
    StripEnds(query);
    if EndsWith(q, ";") {
      StripEnds(q[..|q| - 1]);
      StripOfNonSpaceEnds(Strip(q[..|q| - 1]));
    } else {
      StripOfNonSpaceEnds(q);
    }
  }

  /** An accepted statement that does not itself end in `;` is accepted again unchanged:
      the gate is idempotent. */
  lemma NormalizeQueryIdempotent(query: string)
    requires NormalizeQuery(query).Ok? && !EndsWith(NormalizeQuery(query).value, ";")
    ensures NormalizeQuery(NormalizeQuery(query).value) == NormalizeQuery(query)
  {
    var q := NormalizeQuery(query).value;
    assert TrimStatement(q) == q;
  }

  /** One trailing `;` makes no difference to the gate's verdict or result. */
  lemma {:induction false} NormalizeQuerySemicolon(query: string)
    requires !EndsWith(Strip(query), ";")
    ensures NormalizeQuery(query + ";") == NormalizeQuery(query)
  {
    var l := LStrip(query);
    LStripSpec(query);
    LStripAppend(query, ";");
    assert LStrip(query + ";") == l + ";";
    RStripNonSpaceEnd(l + ";");
    assert Strip(query + ";") == l + ";";
    assert (l + ";")[..|l + ";"| - 1] == l;
    assert l == [] || !IsSpace(l[0]);
    LStripOfNonSpaceStart(l);
    assert TrimStatement(query + ";") == Strip(query);
  }

  lemma {:induction false} LStripAppend(s: string, t: string)
    requires t != [] && !IsSpace(t[0])
    ensures LStrip(s + t) == LStrip(s) + t
    decreases |s|
  {
    if s == [] {
      assert s + t == t;
    } else {
      assert (s + t)[0] == s[0];
      assert (s + t)[1..] == s[1..] + t;
      if IsSpace(s[0]) { LStripAppend(s[1..], t); }
    }
  }

  lemma RStripNonSpaceEnd(s: string)
    requires s != [] && !IsSpace(s[|s| - 1])
    ensures RStrip(s) == s
  {
  }

  lemma LStripOfNonSpaceStart(s: string)
    requires s == [] || !IsSpace(s[0])
    ensures LStrip(s) == s
  {
  }

  // ----- escapes of the batch format -----

  /** The character that the escape backslash-`c` stands for: `t`, `n`, `r`, `0`, `Z`
      and `b` name TAB, LF, CR, NUL, 0x1A and BS; any other character (the backslash
      and both quotes among them) stands for itself. */
  function DecodeEscape(c: char): char {
    match c
    case 't' => '\t'
    case 'n' => '\n'
    case 'r' => '\r'
    case '0' => '\U{0}'
    case 'Z' => '\U{1A}'
    case 'b' => '\U{8}'
    case _ => c
  }

  /** `_unescape_mysql`, read from the front: a backslash with a character after it is
      decoded with that character; any other character, a final lone backslash
      included, is kept. */
  function Unescape(s: string): (r: string)
    ensures |r| <= |s|
    decreases |s|
  {
    if s == [] then []
    else if s[0] == '\\' && |s| > 1 then [DecodeEscape(s[1])] + Unescape(s[2..])
    else [s[0]] + Unescape(s[1..])
  }

  lemma UnescapeAt(s: string, i: nat)
    requires i < |s|
    ensures Unescape(s[i..]) == if s[i] == '\\' && i + 1 < |s| then [DecodeEscape(s[i + 1])] + Unescape(s[i + 2..])
                                 else [s[i]] + Unescape(s[i + 1..])
  {
    assert s[i..][1..] == s[i + 1..];
    if i + 1 < |s| { assert s[i..][2..] == s[i + 2..]; }
  }

  /** The decoding loop of `_unescape_mysql`. */
  method UnescapeMysql(value: string) returns (r: string)
    ensures r == Unescape(value)
  {
    var out := [];
    var i := 0;
    while i < |value|
      invariant 0 <= i <= |value|
      invariant out + Unescape(value[i..]) == Unescape(value)
    {
      UnescapeAt(value, i);
      var c := value[i];
      var d: char;
      var n: nat;
      if c == '\\' && i + 1 < |value| {
        d, n := DecodeEscape(value[i + 1]), 2;
      } else {
        d, n := c, 1;
      }
      assert Unescape(value[i..]) == [d] + Unescape(value[i + n..]);
      assert (out + [d]) + Unescape(value[i + n..]) == out + ([d] + Unescape(value[i + n..]));
      out, i := out + [d], i + n;
    }
    r := out;
  }

  /** A string without a backslash decodes to itself. */
  lemma {:induction false} UnescapePlain(s: string)
    requires !HasChar(s, '\\')
    ensures Unescape(s) == s
    decreases |s|
  {
    if s != [] {
      assert s[0] != '\\';
      assert !HasChar(s[1..], '\\') by {
        forall i | 0 <= i < |s[1..]| ensures s[1..][i] != '\\' { assert s[1..][i] == s[i + 1]; }
      }
      UnescapePlain(s[1..]);
    }
  }

  /** The escape form of one character, written with the code the decoder reads back. */
  function EscapeChar(c: char): (r: string)
    ensures |r| >= 1 && forall i :: 0 <= i < |r| ==> r[i] != '\t' && r[i] != '\n'
  {
    if c == '\\' then "\\\\"
    else if c == '\t' then "\\t"
    else if c == '\n' then "\\n"
    else if c == '\r' then "\\r"
    else if c == '\U{0}' then "\\0"
    else if c == '\U{1A}' then "\\Z"
    else if c == '\U{8}' then "\\b"
    else [c]
  }

  /** A value written in the batch format's escaped form: no tab and no line feed
      is left in it. */
  function Escape(s: string): (r: string)
    ensures |r| >= |s|
    ensures forall i :: 0 <= i < |r| ==> r[i] != '\t' && r[i] != '\n'
  {
    if s == [] then []
    else
      var h, t := EscapeChar(s[0]), Escape(s[1..]);
      assert forall i :: 0 <= i < |h + t| ==> (h + t)[i] == if i < |h| then h[i] else t[i - |h|];
      h + t
  }

  /** A character is either kept as it is, or written as a backslash and a code that
      decodes back to it. */
  lemma EscapeCharCodes(c: char)
    ensures var e := EscapeChar(c);
            (e == [c] && c != '\\') || (|e| == 2 && e[0] == '\\' && e[1] in EscapeCodes && DecodeEscape(e[1]) == c)
  {
  }

  const EscapeCodes := "\\tnr0Zb"

  /** Decoding undoes escaping, whatever follows the escaped text. */
  lemma {:induction false} UnescapeEscapeAppend(s: string, t: string)
    ensures Unescape(Escape(s) + t) == s + Unescape(t)
    decreases |s|
  {
    if s != [] {
      var e := EscapeChar(s[0]);
      var rest := Escape(s[1..]) + t;
      var x := e + rest;
      assert Escape(s) + t == x;
      EscapeCharCodes(s[0]);
      UnescapeEscapeAppend(s[1..], t);
      if |e| == 1 {
        assert x[0] == s[0] && x[1..] == rest;
        assert Unescape(x) == [s[0]] + Unescape(rest);
      } else {
        assert x[0] == '\\' && x[1] == e[1] && x[2..] == rest;
        assert Unescape(x) == [s[0]] + Unescape(rest);
      }
      calc {
        Unescape(Escape(s) + t);
        [s[0]] + (s[1..] + Unescape(t));
        ([s[0]] + s[1..]) + Unescape(t);
        { assert [s[0]] + s[1..] == s; }
        s + Unescape(t);
      }
    } else {
      assert Escape(s) + t == t;
    }
  }

  lemma EscapeRoundTrip(s: string)
    ensures Unescape(Escape(s)) == s
  {
    UnescapeEscapeAppend(s, []);
    assert Escape(s) + [] == Escape(s);
  }

  /** A lone backslash after a complete escaped text is kept as it is. */
  lemma TrailingBackslashKept(s: string)
    ensures Unescape(Escape(s) + "\\") == s + "\\"
  {
    UnescapeEscapeAppend(s, "\\");
  }

  // ----- rows of the batch output -----

  /** A cell of the output as a JSON value: `\N` is SQL NULL, anything else is decoded. */
  function CellValue(cell: string): (r: Json)
    ensures r.JNull? || r.JStr?
  {
    if cell == "\\N" then JNull else JStr(Unescape(cell))
  }

  /** `cells[idx] if idx < len(cells) else ""`, decoded. */
  function ValueAt(cells: seq<string>, idx: nat): (r: Json)
    ensures idx >= |cells| ==> r == JStr("")
  {
    if idx < |cells| then CellValue(cells[idx]) else CellValue("")
  }

  /** The row dict after its first `k` columns were filled: `row[col] = value`, so a
      later column of the same name overwrites an earlier one. */
  function RowOf(columns: seq<string>, cells: seq<string>, k: nat): (r: seq<(string, Json)>)
    requires k <= |columns|
  {
    if k == 0 then [] else Put(RowOf(columns, cells, k - 1), columns[k - 1], ValueAt(cells, k - 1))
  }

  /** The keys of a row are the column names, each once. */
  lemma {:induction false} RowKeys(columns: seq<string>, cells: seq<string>, k: nat)
    requires k <= |columns|
    ensures forall c :: c in Keys(RowOf(columns, cells, k)) <==> c in columns[..k]
    ensures DistinctKeys(RowOf(columns, cells, k))
  {
    if k > 0 {
      var prev, c0, v := RowOf(columns, cells, k - 1), columns[k - 1], ValueAt(cells, k - 1);
      var row := Put(prev, c0, v);
      assert RowOf(columns, cells, k) == row;
      RowKeys(columns, cells, k - 1);
      assert columns[..k] == columns[..k - 1] + [c0];
      PutKeys(prev, c0, v);
      PutKeepsDistinct(prev, c0, v);
      forall c ensures c in Keys(row) <==> c in columns[..k] {
        assert c in columns[..k] <==> c in columns[..k - 1] || c == c0;
      }
    }
  }

  /** The row of one line: one key for each column name. */
  function Row(columns: seq<string>, cells: seq<string>): (r: seq<(string, Json)>)
  {
    RowOf(columns, cells, |columns|)
  }

  /** The value under a column name is the cell of that column's last occurrence:
      missing cells read as the empty string and cells beyond the last column are
      not looked at. */
  lemma {:induction false} RowLookup(columns: seq<string>, cells: seq<string>, i: nat, k: nat)
    requires i < k <= |columns|
    requires forall j :: i < j < k ==> columns[j] != columns[i]
    ensures Lookup(RowOf(columns, cells, k), columns[i]) == Some(ValueAt(cells, i))
  {
    if k == i + 1 {
      PutSpec(RowOf(columns, cells, i), columns[i], ValueAt(cells, i));
    } else {
      RowLookup(columns, cells, i, k - 1);
      PutOther(RowOf(columns, cells, k - 1), columns[k - 1], ValueAt(cells, k - 1), columns[i]);
    }
  }

  /** Cells past the last column make no difference to the row. */
  lemma {:induction false} RowDropsExtra(columns: seq<string>, cells: seq<string>, extra: seq<string>, k: nat)
    requires k <= |columns| <= |cells|
    ensures RowOf(columns, cells + extra, k) == RowOf(columns, cells, k)
  {
    if k > 0 {
      RowDropsExtra(columns, cells, extra, k - 1);
      assert (cells + extra)[k - 1] == cells[k - 1];
    }
  }

  /** The column names: the cells of the header line, decoded. */
  function HeaderColumns(line: string): (r: seq<string>)
  {
    var header := Split(line, '\t');
    seq(|header|, i requires 0 <= i < |header| => Unescape(header[i]))
  }

  /** One row for each line, keyed by the column names. */
  function LineRows(columns: seq<string>, ls: seq<string>): (r: seq<seq<(string, Json)>>)
  {
    seq(|ls|, j requires 0 <= j < |ls| => Row(columns, Split(ls[j], '\t')))
  }

  /** The columns and rows for the lines of the output: the header cells decoded, and
      one row for each later line. */
  function Table(lines: seq<string>): (r: (seq<string>, seq<seq<(string, Json)>>))
  {
    if lines == [] then ([], [])
    else
      var columns := HeaderColumns(lines[0]);
      (columns, LineRows(columns, lines[1..]))
  }

  /** `_parse_tsv` as written: the lines are those of `splitlines`. */
  function ParsedTsv(output: string): (r: (seq<string>, seq<seq<(string, Json)>>))
  {
    Table(SplitLines(output))
  }

  /** Shape of the parse: nothing for empty output; otherwise one row for each line
      after the header, and every row holds exactly the column names as keys. */
  lemma TsvShape(output: string)
    ensures output == [] ==> ParsedTsv(output) == ([], [])
    ensures output != [] ==> |ParsedTsv(output).1| == |SplitLines(output)| - 1
    ensures forall j, c :: 0 <= j < |ParsedTsv(output).1| ==>
              (c in Keys(ParsedTsv(output).1[j]) <==> c in ParsedTsv(output).0)
    ensures forall j :: 0 <= j < |ParsedTsv(output).1| ==> DistinctKeys(ParsedTsv(output).1[j])
  {
    var lines := SplitLines(output);
    if lines != [] {
      var cols := HeaderColumns(lines[0]);
      var rows := LineRows(cols, lines[1..]);
      assert ParsedTsv(output) == (cols, rows);
      forall j | 0 <= j < |rows|
        ensures (forall c :: c in Keys(rows[j]) <==> c in cols) && DistinctKeys(rows[j])
      {
        LineRowKeys(cols, lines[1..], j);
      }
    }
  }

  /** Every row of the table holds exactly the column names as keys, once each. */
  lemma LineRowKeys(cols: seq<string>, ls: seq<string>, j: nat)
    requires j < |ls|
    ensures var row := LineRows(cols, ls)[j];
      (forall c :: c in Keys(row) <==> c in cols) && DistinctKeys(row)
  {
    assert cols[..|cols|] == cols;
    RowKeys(cols, Split(ls[j], '\t'), |cols|);
  }

  /** The row-filling loop of `_parse_tsv` for one line. */
  method FillRow(columns: seq<string>, cells: seq<string>) returns (row: seq<(string, Json)>)
    ensures row == Row(columns, cells)
  {
    row := [];
    var idx := 0;
    while idx < |columns|
      invariant 0 <= idx <= |columns|
      invariant row == RowOf(columns, cells, idx)
    {
      var cell := if idx < |cells| then cells[idx] else "";
      var value: Json;
      if cell == "\\N" {
        value := JNull;
      } else {
        var s := UnescapeMysql(cell);
        value := JStr(s);
      }
      row := Put(row, columns[idx], value);
      idx := idx + 1;
    }
  }

  /** `_parse_tsv`: the header's cells decoded, then one row per later line. */
  method ParseTsv(output: string) returns (columns: seq<string>, rows: seq<seq<(string, Json)>>)
    ensures (columns, rows) == ParsedTsv(output)
  {
    var lines := SplitLines(output);
    if lines == [] {
      return [], [];
    }
    columns := DecodeHeader(lines[0]);
    rows := BuildRows(columns, lines[1..]);
  }

  /** The list comprehension that decodes the header cells. */
  method DecodeHeader(line: string) returns (columns: seq<string>)
    ensures columns == HeaderColumns(line)
  {
    var header := Split(line, '\t');
    columns := [];
    var i := 0;
    while i < |header|
      invariant 0 <= i <= |header|
      invariant |columns| == i && forall k :: 0 <= k < i ==> columns[k] == Unescape(header[k])
    {
      var c := UnescapeMysql(header[i]);
      columns := columns + [c];
      i := i + 1;
    }
  }

  /** The loop over the lines after the header. */
  method BuildRows(columns: seq<string>, body: seq<string>) returns (rows: seq<seq<(string, Json)>>)
    ensures rows == LineRows(columns, body)
  {
    rows := [];
    var j := 0;
    while j < |body|
      invariant 0 <= j <= |body|
      invariant |rows| == j && forall k :: 0 <= k < j ==> rows[k] == Row(columns, Split(body[k], '\t'))
    {
      var row := FillRow(columns, Split(body[j], '\t'));
      rows := rows + [row];
      j := j + 1;
    }
  }

  // ----- what the parse is meant to invert -----

  /** One cell of the batch format: `\N` for NULL, the escaped text otherwise. */
  function EncodeCell(v: Option<string>): (r: string)
  {
    match v
    case None => "\\N"
    case Some(s) => Escape(s)
  }

  /** The JSON value a cell ought to come back as. */
  function CellJson(v: Option<string>): Json {
    match v
    case None => JNull
    case Some(s) => JStr(s)
  }

  lemma DecodeEncodedCell(v: Option<string>)
    ensures CellValue(EncodeCell(v)) == CellJson(v)
  {
    if v.Some? {
      EscapeNotNull(v.value);
      EscapeRoundTrip(v.value);
    }
  }

  /** No escaped text is the NULL marker `\N`. */
  lemma EscapeNotNull(s: string)
    ensures Escape(s) != "\\N"
  {
    if s != [] {
      var e := EscapeChar(s[0]);
      EscapeCharCodes(s[0]);
      assert Escape(s) == e + Escape(s[1..]);
      assert 'N' !in EscapeCodes;
      assert |"\\N"| == 2 && "\\N"[0] == '\\' && "\\N"[1] == 'N';
    }
  }

  /** The cells of one line of the batch format. */
  function EncodedCells(vs: seq<Option<string>>): (r: seq<string>)
  {
    seq(|vs|, i requires 0 <= i < |vs| => EncodeCell(vs[i]))
  }

  /** One line of the batch format: the cells joined by tabs. */
  function EncodeLine(vs: seq<Option<string>>): string {
    Join(EncodedCells(vs), "\t")
  }

  /** The header line: the escaped column names joined by tabs. */
  function HeaderLine(header: seq<string>): string {
    Join(seq(|header|, i requires 0 <= i < |header| => Escape(header[i])), "\t")
  }

  /** The batch output for a header and rows, each line ended by a line feed. */
  function BatchOutput(header: seq<string>, rows: seq<seq<Option<string>>>): string {
    Terminated([HeaderLine(header)] + seq(|rows|, j requires 0 <= j < |rows| => EncodeLine(rows[j])))
  }

  lemma EncodeCellClean(v: Option<string>, c: char)
    requires c == '\t' || c == '\n'
    ensures !HasChar(EncodeCell(v), c)
  {
    if v.None? {
      assert EncodeCell(v) == "\\N";
    }
  }

  /** A line of the batch format holds no line feed. */
  lemma LineClean(vs: seq<Option<string>>)
    ensures !HasChar(EncodeLine(vs), '\n')
  {
    forall k | 0 <= k < |vs| ensures !HasChar(EncodedCells(vs)[k], '\n') {
      EncodeCellClean(vs[k], '\n');
    }
    JoinNoChar(EncodedCells(vs), "\t", '\n');
  }

  lemma HeaderClean(header: seq<string>)
    ensures !HasChar(HeaderLine(header), '\n')
  {
    var parts := seq(|header|, i requires 0 <= i < |header| => Escape(header[i]));
    JoinNoChar(parts, "\t", '\n');
  }

  /** The header line splits back into the column names. */
  lemma HeaderRoundTrip(header: seq<string>)
    requires |header| >= 1
    ensures HeaderColumns(HeaderLine(header)) == header
  {
    var parts := seq(|header|, i requires 0 <= i < |header| => Escape(header[i]));
    SplitJoin(parts, '\t');
    forall i | 0 <= i < |header| ensures Unescape(parts[i]) == header[i] {
      EscapeRoundTrip(header[i]);
    }
  }

  /** A line splits back into its cells, each decoding to the value it was written
      from; a cell missing from the line reads as the empty string. */
  lemma LineValues(vs: seq<Option<string>>, i: nat)
    ensures ValueAt(Split(EncodeLine(vs), '\t'), i) == if i < |vs| then CellJson(vs[i]) else JStr("")
  {
    var cells := EncodedCells(vs);
    if vs == [] {
      assert Split(EncodeLine(vs), '\t') == [""] by { assert EncodeLine(vs) == []; }
      assert Unescape("") == "";
    } else {
      forall k | 0 <= k < |vs| ensures !HasChar(cells[k], '\t') {
        EncodeCellClean(vs[k], '\t');
      }
      SplitJoin(cells, '\t');
      if i < |vs| { DecodeEncodedCell(vs[i]); }
    }
  }

  /** The lines of the batch format, as a line-feed split finds them. */
  function BatchLines(output: string): (r: seq<string>)
  {
    var parts := Split(output, '\n');
    if parts[|parts| - 1] == [] then parts[..|parts| - 1] else parts
  }

  /** The parse with lines taken at line feeds only: the batch format's own line ends. */
  function BatchTable(output: string): (r: (seq<string>, seq<seq<(string, Json)>>))
  {
    Table(BatchLines(output))
  }

  /** The line-feed parse inverts the batch format: the columns come back, one row per
      written row, and under each column name (at its last occurrence in the header)
      the value that was written, or the empty string where the row was short. */
  lemma BatchRoundTrip(header: seq<string>, rows: seq<seq<Option<string>>>)
    requires |header| >= 1
    ensures BatchTable(BatchOutput(header, rows)).0 == header
    ensures |BatchTable(BatchOutput(header, rows)).1| == |rows|
    ensures forall j, i :: 0 <= j < |rows| && 0 <= i < |header| && header[i] !in header[i + 1..] ==>
              Lookup(BatchTable(BatchOutput(header, rows)).1[j], header[i])
                == Some(if i < |rows[j]| then CellJson(rows[j][i]) else JStr(""))
  {
    var body := seq(|rows|, j requires 0 <= j < |rows| => EncodeLine(rows[j]));
    var ls := [HeaderLine(header)] + body;
    forall k | 0 <= k < |ls| ensures !HasChar(ls[k], '\n') {
      if k == 0 { HeaderClean(header); } else { LineClean(rows[k - 1]); }
    }
    SplitTerminated(ls);
    assert BatchLines(BatchOutput(header, rows)) == ls by {
      assert (ls + [[]])[..|ls|] == ls;
    }
    HeaderRoundTrip(header);
    assert ls[1..] == body;
    var t := BatchTable(BatchOutput(header, rows));
    assert t == (header, LineRows(header, body));
    forall j, i | 0 <= j < |rows| && 0 <= i < |header| && header[i] !in header[i + 1..]
      ensures Lookup(t.1[j], header[i]) == Some(if i < |rows[j]| then CellJson(rows[j][i]) else JStr(""))
    {
      assert forall m :: i < m < |header| ==> header[m] == header[i + 1..][m - i - 1];
      RowLookup(header, Split(body[j], '\t'), i, |header|);
      LineValues(rows[j], i);
    }
  }

  /** Text the batch format writes as it is: no character with an escape, no line
      boundary. */
  predicate Verbatim(s: string) {
    NoLineBreak(s) && forall i :: 0 <= i < |s| ==> EscapeChar(s[i]) == [s[i]]
  }

  lemma {:induction false} EscapeKept(s: string)
    requires forall i :: 0 <= i < |s| ==> EscapeChar(s[i]) == [s[i]]
    ensures Escape(s) == s
  {
    if s != [] {
      assert EscapeChar(s[0]) == [s[0]];
      EscapeKept(s[1..]);
      assert s == [s[0]] + s[1..];
    }
  }

  /** The parse as written splits a row at a form feed inside a value: one column
      and one row holding `a`, a form feed and `b` come back as two rows, where the
      line-feed parse finds the one row. */
  lemma FormFeedSplitsRow(col: string, a: string, b: string)
    requires Verbatim(col) && Verbatim(a) && Verbatim(b)
    ensures |ParsedTsv(BatchOutput([col], [[Some(a + "\U{0C}" + b)]])).1| == 2
    ensures |BatchTable(BatchOutput([col], [[Some(a + "\U{0C}" + b)]])).1| == 1
  {
    var v := a + "\U{0C}" + b;
    FormFeedOutput(col, a, b);
    FormFeedLines(col, a, b);
    BatchRoundTrip([col], [[Some(v)]]);
  }

  /** The batch output of one column and one row holding `a`, a form feed and `b`. */
  lemma FormFeedOutput(col: string, a: string, b: string)
    requires Verbatim(col) && Verbatim(a) && Verbatim(b)
    ensures BatchOutput([col], [[Some(a + "\U{0C}" + b)]]) == col + ['\n'] + (a + ['\U{0C}'] + (b + ['\n'] + []))
  {
    var v := a + "\U{0C}" + b;
    assert forall i :: 0 <= i < |v| ==> EscapeChar(v[i]) == [v[i]] by {
      assert forall i :: 0 <= i < |v| ==> v[i] == if i < |a| then a[i] else if i == |a| then '\U{0C}' else b[i - |a| - 1];
    }
    EscapeKept(v);
    EscapeKept(col);
    assert EncodeLine([Some(v)]) == v by { assert EncodedCells([Some(v)]) == [v]; }
    assert HeaderLine([col]) == col;
    assert [HeaderLine([col])] + seq(1, j requires 0 <= j < 1 => EncodeLine([[Some(v)]][j])) == [col, v];
    assert [col, v][1..] == [v] && [v][1..] == [];
    assert Terminated([v]) == v + "\n" + [];
    assert Terminated([col, v]) == col + "\n" + Terminated([v]);
  }

  /** `splitlines` cuts that output into three lines, the form feed ending one. */
  lemma FormFeedLines(col: string, a: string, b: string)
    requires Verbatim(col) && Verbatim(a) && Verbatim(b)
    ensures |ParsedTsv(col + ['\n'] + (a + ['\U{0C}'] + (b + ['\n'] + []))).1| == 2
  {
    SplitLinesCons(col, '\n', a + ['\U{0C}'] + (b + ['\n'] + []));
    SplitLinesCons(a, '\U{0C}', b + ['\n'] + []);
    SplitLinesCons(b, '\n', []);
  }
}
