/** The request-building helpers that the GitLab issue and merge-request
    command lines share: the project id in a URL path, the pagination headers,
    `key=value` query parameters, and the options that are sent only when
    they were given. */
module Gitlab {
  import opened Wrappers
  import opened Text
  import opened Json
  import Url
  import PyRepr

  // ---------------------------------------------------------------------------
  // Project ids

  /** `quote(unquote(project_id), safe="")`: a path such as `group/project`
      becomes one URL path segment, and an id that is already escaped is not
      escaped twice. */
  function EncodeProjectId(id: string): (r: string)
    ensures !HasChar(r, '/')
  {
    Url.Quote(Url.Unquote(id))
  }

  /** Encoding an encoded id changes nothing more. */
  lemma EncodeIdempotent(id: string)
    ensures EncodeProjectId(EncodeProjectId(id)) == EncodeProjectId(id)
  {
    Url.UnquoteQuote(Url.Unquote(id));
  }

  /** An id without `%` is simply quoted, and unquoting gives it back. */
  lemma EncodePlainId(id: string)
    requires !HasChar(id, '%')
    ensures EncodeProjectId(id) == Url.Quote(id)
    ensures Url.Unquote(EncodeProjectId(id)) == id
  {
    Url.UnquotePlain(id);
    Url.UnquoteQuote(id);
  }

  // ---------------------------------------------------------------------------
  // Pagination

  /** The `pagination` object of a list command. */
  datatype Pagination = Pagination(page: int, perPage: int, total: int, totalPages: int)

  /** `to_int(name, default)` over the lower-cased response headers. */
  function HeaderInt(headers: map<string, string>, name: string, default: int): int {
    if name in headers && PyInt(headers[name]).Some? then PyInt(headers[name]).value else default
  }

  /** `_pagination(headers)`. */
  function PaginationOf(headers: map<string, string>): Pagination {
    Pagination(HeaderInt(headers, "x-page", 1), HeaderInt(headers, "x-per-page", 20),
               HeaderInt(headers, "x-total", 0), HeaderInt(headers, "x-total-pages", 0))
  }

  /** A header that is missing or not an integer gives its default: 1, 20, 0, 0. */
  lemma PaginationDefaults(headers: map<string, string>)
    ensures "x-page" !in headers || PyInt(headers["x-page"]).None? ==> PaginationOf(headers).page == 1
    ensures "x-per-page" !in headers || PyInt(headers["x-per-page"]).None? ==> PaginationOf(headers).perPage == 20
    ensures "x-total" !in headers || PyInt(headers["x-total"]).None? ==> PaginationOf(headers).total == 0
    ensures "x-total-pages" !in headers || PyInt(headers["x-total-pages"]).None? ==> PaginationOf(headers).totalPages == 0
  {
  }

  /** Headers holding the numbers as GitLab writes them are read back exactly. */
  lemma PaginationRoundTrip(headers: map<string, string>, p: Pagination)
    requires "x-page" in headers && headers["x-page"] == IntToStr(p.page)
    requires "x-per-page" in headers && headers["x-per-page"] == IntToStr(p.perPage)
    requires "x-total" in headers && headers["x-total"] == IntToStr(p.total)
    requires "x-total-pages" in headers && headers["x-total-pages"] == IntToStr(p.totalPages)
    ensures PaginationOf(headers) == p
  {
    PyIntOfIntToStr(p.page);
    PyIntOfIntToStr(p.perPage);
    PyIntOfIntToStr(p.total);
    PyIntOfIntToStr(p.totalPages);
  }

  // ---------------------------------------------------------------------------
  // --param key=value

  /** `p.split("=", 1)` with its two checks: a missing `=` and an empty key
      are errors, and the value keeps every later `=`. */
  function ParseParam(p: string): (r: Result<(string, string)>)
    ensures r.Ok? ==> p == r.value.0 + "=" + r.value.1
    ensures r.Ok? ==> r.value.0 != [] && !HasChar(r.value.0, '=')
    ensures r.Err? <==> !HasChar(p, '=') || p[0] == '='
    ensures !HasChar(p, '=') ==> r == Err("[ERROR] Invalid --param: " + PyRepr.StrRepr(p) + " (expected key=value)")
    ensures HasChar(p, '=') && p[0] == '=' ==> r == Err("[ERROR] Invalid --param: " + PyRepr.StrRepr(p) + " (empty key)")
  {
    var k := Find(p, '=');
    if k < 0 then Err("[ERROR] Invalid --param: " + PyRepr.StrRepr(p) + " (expected key=value)")
    else if k == 0 then Err("[ERROR] Invalid --param: " + PyRepr.StrRepr(p) + " (empty key)")
    else
      assert p == p[..k] + "=" + p[k + 1..];
      Ok((p[..k], p[k + 1..]))
  }

  /** A key without `=` and any value make a parameter that reads back as themselves. */
  lemma ParamRoundTrip(k: string, v: string)
    requires k != [] && !HasChar(k, '=')
    ensures ParseParam(k + "=" + v) == Ok((k, v))
  {
    var p := k + "=" + v;
    assert p[|k|] == '=';
    FindAt(p, '=', |k|);
    assert p[..|k|] == k && p[|k| + 1..] == v;
  }

  /** The `--param` loop: the pairs in order, or the first bad parameter's error. */
  function ParseParams(ps: seq<string>): (r: Result<seq<(string, string)>>)
    ensures r.Ok? ==> |r.value| == |ps|
  {
    if ps == [] then Ok([])
    else
      var n := |ps| - 1;
      match ParseParams(ps[..n])
      case Err(e) => Err(e)
      case Ok(kvs) =>
        match ParseParam(ps[n])
        case Err(e) => Err(e)
        case Ok(kv) => Ok(kvs + [kv])
  }

  /** The extra parameters fail exactly when one of them is malformed, and
      otherwise each is its own `key=value` split. */
  lemma {:induction false} ParseParamsSpec(ps: seq<string>)
    ensures ParseParams(ps).Ok? <==> forall i :: 0 <= i < |ps| ==> ParseParam(ps[i]).Ok?
    ensures ParseParams(ps).Ok? ==> forall i :: 0 <= i < |ps| ==> ParseParams(ps).value[i] == ParseParam(ps[i]).value
  {
    if ps != [] {
      var n := |ps| - 1;
      ParseParamsSpec(ps[..n]);
      assert forall i :: 0 <= i < n ==> ps[..n][i] == ps[i];
    }
  }

  /** A bad parameter in a prefix fails the whole list with its error. */
  lemma {:induction false} ParamsPrefixErr(ps: seq<string>, n: nat)
    requires n <= |ps| && ParseParams(ps[..n]).Err?
    ensures ParseParams(ps) == ParseParams(ps[..n])
    decreases |ps| - n
  {
    if n < |ps| {
      var m := |ps| - 1;
      assert ps[..n] == ps[..m][..n];
      ParamsPrefixErr(ps[..m], n);
    } else {
      assert ps[..n] == ps;
    }
  }

  /** The `--param` loop appending to `params`. */
  method AppendParams(params: seq<(string, string)>, ps: seq<string>) returns (r: Result<seq<(string, string)>>)
    ensures ParseParams(ps).Err? ==> r == Err(ParseParams(ps).msg)
    ensures ParseParams(ps).Ok? ==> r == Ok(params + ParseParams(ps).value)
  {
    var out := params;
    for i := 0 to |ps|
      invariant ParseParams(ps[..i]).Ok? && out == params + ParseParams(ps[..i]).value
    {
      assert ps[..i + 1][..i] == ps[..i];
      var kv := ParseParam(ps[i]);
      if kv.Err? {
        ParamsPrefixErr(ps, i + 1);
        return Err(kv.msg);
      }
      out := out + [kv.value];
    }
    assert ps[..|ps|] == ps;
    return Ok(out);
  }

  // ---------------------------------------------------------------------------
  // Options sent only when given

  /** The given options, in order: what the `add` helper (and each
      `if value is not None: payload[key] = value`) keeps. */
  function Present<T>(opts: seq<(string, Option<T>)>): (r: seq<(string, T)>)
    ensures |r| <= |opts|
  {
    if opts == [] then []
    else
      var n := |opts| - 1;
      Present(opts[..n]) + (if opts[n].1.Some? then [(opts[n].0, opts[n].1.value)] else [])
  }

  /** An entry is kept exactly when its option was given with that value. */
  lemma {:induction false} PresentMembers<T>(opts: seq<(string, Option<T>)>)
    ensures forall k, v :: (k, v) in Present(opts) <==> (k, Some(v)) in opts
  {
    if opts != [] {
      var n := |opts| - 1;
      PresentMembers(opts[..n]);
      assert opts == opts[..n] + [opts[n]];
    }
  }

  /** Options none of which was given leave nothing. */
  lemma {:induction false} PresentNone<T>(opts: seq<(string, Option<T>)>)
    requires forall i :: 0 <= i < |opts| ==> opts[i].1.None?
    ensures Present(opts) == []
  {
    if opts != [] {
      PresentNone(opts[..|opts| - 1]);
    }
  }

  /** An option whose name no other option has is sent, with its value, exactly
      when it was given. */
  lemma PresentOnly<T>(opts: seq<(string, Option<T>)>, i: nat, v: T)
    requires i < |opts|
    requires forall j :: 0 <= j < |opts| && j != i ==> opts[j].0 != opts[i].0
    ensures opts[i].1.Some? ==> (opts[i].0, opts[i].1.value) in Present(opts)
    ensures opts[i].1.None? ==> (opts[i].0, v) !in Present(opts)
  {
    PresentMembers(opts);
  }

  /** The names of the given options, in order. */
  function GivenNames<T>(opts: seq<(string, Option<T>)>): (r: seq<string>) {
    if opts == [] then []
    else
      var n := |opts| - 1;
      GivenNames(opts[..n]) + (if opts[n].1.Some? then [opts[n].0] else [])
  }

  /** A payload holds keys for the given options and no others. */
  lemma {:induction false} PresentKeys(opts: seq<(string, Option<Json>)>)
    ensures Keys(Present(opts)) == GivenNames(opts)
  {
    if opts != [] {
      var n := |opts| - 1;
      PresentKeys(opts[..n]);
      KeysAppend(Present(opts[..n]), if opts[n].1.Some? then [(opts[n].0, opts[n].1.value)] else []);
    }
  }

  lemma {:induction false} KeysAppend(a: seq<(string, Json)>, b: seq<(string, Json)>)
    ensures Keys(a + b) == Keys(a) + Keys(b)
  {
  }

  /** Options with distinct names. */
  predicate DistinctNames<T>(opts: seq<(string, Option<T>)>) {
    forall i, j :: 0 <= i < j < |opts| ==> opts[i].0 != opts[j].0
  }

  /** Reading a key of the payload gives its option's value; an option that
      was not given has no key. */
  lemma {:induction false} PresentLookup(opts: seq<(string, Option<Json>)>, i: nat)
    requires i < |opts| && DistinctNames(opts)
    ensures Lookup(Present(opts), opts[i].0) == opts[i].1
  {
    var n := |opts| - 1;
    var pre := Present(opts[..n]);
    var last := if opts[n].1.Some? then [(opts[n].0, opts[n].1.value)] else [];
    if i < n {
      assert opts[..n][i] == opts[i];
      PresentLookup(opts[..n], i);
      LookupAppend(pre, last, opts[i].0);
    } else {
      assert opts[i].0 !in GivenNames(opts[..n]) by {
        GivenNamesFrom(opts[..n]);
        forall j | 0 <= j < n ensures opts[..n][j].0 != opts[i].0 { assert opts[..n][j] == opts[j]; }
      }
      PresentKeysOf(opts[..n]);
      LookupAppend(pre, last, opts[i].0);
      if opts[n].1.Some? { assert last[1..] == []; }
    }
  }

  /** Every given name is the name of an option. */
  lemma {:induction false} GivenNamesFrom<T>(opts: seq<(string, Option<T>)>)
    ensures forall k :: k in GivenNames(opts) ==> exists j :: 0 <= j < |opts| && opts[j].0 == k
  {
    if opts != [] {
      var n := |opts| - 1;
      GivenNamesFrom(opts[..n]);
      forall k | k in GivenNames(opts[..n]) ensures exists j :: 0 <= j < |opts| && opts[j].0 == k {
        var j :| 0 <= j < n && opts[..n][j].0 == k;
        assert opts[j] == opts[..n][j];
      }
    }
  }

  lemma PresentKeysOf(opts: seq<(string, Option<Json>)>)
    ensures forall k :: k in Keys(Present(opts)) <==> k in GivenNames(opts)
  {
    PresentKeys(opts);
  }

  /** Reading a key of `a + b`: `a` first. */
  lemma {:induction false} LookupAppend(a: seq<(string, Json)>, b: seq<(string, Json)>, k: string)
    ensures Lookup(a + b, k) == if k in Keys(a) then Lookup(a, k) else Lookup(b, k)
  {
    if a == [] {
      assert a + b == b;
    } else {
      assert (a + b)[0] == a[0];
      assert (a + b)[1..] == a[1..] + b;
      if a[0].0 != k {
        LookupAppend(a[1..], b, k);
        assert k in Keys(a) <==> k in Keys(a[1..]) by { assert Keys(a) == [a[0].0] + Keys(a[1..]); }
      }
    }
  }

  /** The sequence of `add` calls, or of conditional payload keys, appending to a list. */
  method AddAll<T>(start: seq<(string, T)>, opts: seq<(string, Option<T>)>) returns (r: seq<(string, T)>)
    ensures r == start + Present(opts)
  {
    r := start;
    for i := 0 to |opts|
      invariant r == start + Present(opts[..i])
    {
      assert opts[..i + 1][..i] == opts[..i];
      if opts[i].1.Some? {
        r := r + [(opts[i].0, opts[i].1.value)];
      }
    }
    assert opts[..|opts|] == opts;
  }

  /** `str(bool(x)).lower()`. */
  function BoolText(b: bool): (r: string)
    ensures r == "true" <==> b
  {
    if b then "true" else "false"
  }

  function BoolOpt(b: Option<bool>): Option<string> {
    if b.Some? then Some(BoolText(b.value)) else None
  }

  function IntOpt(n: Option<int>): Option<string> {
    if n.Some? then Some(IntToStr(n.value)) else None
  }

  /** `",".join(labels)` when the repeatable `--labels` option was given. */
  function LabelsOpt(labels: seq<string>): Option<string> {
    if labels != [] then Some(Join(labels, ",")) else None
  }

  /** One pair per value, all under the same name. */
  function Each(name: string, values: seq<string>): (r: seq<(string, string)>)
    ensures |r| == |values|
    ensures forall i :: 0 <= i < |values| ==> r[i] == (name, values[i])
  {
    if values == [] then [] else Each(name, values[..|values| - 1]) + [(name, values[|values| - 1])]
  }

  /** The loop that appends one pair per value. */
  method AppendEach(params: seq<(string, string)>, name: string, values: seq<string>) returns (r: seq<(string, string)>)
    ensures r == params + Each(name, values)
  {
    r := params;
    for i := 0 to |values|
      invariant r == params + Each(name, values[..i])
    {
      assert values[..i + 1][..i] == values[..i];
      r := r + [(name, values[i])];
    }
    assert values[..|values|] == values;
  }

  /** The values under one name, in order. */
  function Values(params: seq<(string, string)>, name: string): seq<string> {
    if params == [] then []
    else
      var n := |params| - 1;
      Values(params[..n], name) + (if params[n].0 == name then [params[n].1] else [])
  }

  lemma {:induction false} ValuesAppend(a: seq<(string, string)>, b: seq<(string, string)>, name: string)
    ensures Values(a + b, name) == Values(a, name) + Values(b, name)
    decreases |b|
  {
    if b == [] {
      assert a + b == a;
    } else {
      var n := |b| - 1;
      assert (a + b)[..|a + b| - 1] == a + b[..n];
      ValuesAppend(a, b[..n], name);
    }
  }

  /** Each value becomes its own pair, in order. */
  lemma {:induction false} ValuesOfEach(name: string, values: seq<string>)
    ensures Values(Each(name, values), name) == values
  {
    if values != [] {
      var n := |values| - 1;
      ValuesOfEach(name, values[..n]);
      assert values == values[..n] + [values[n]];
    }
  }

  /** Options whose names differ from `name` contribute no value under it. */
  lemma {:induction false} ValuesOfOthers(opts: seq<(string, Option<string>)>, name: string)
    requires forall i :: 0 <= i < |opts| ==> opts[i].0 != name
    ensures Values(Present(opts), name) == []
  {
    if opts != [] {
      var n := |opts| - 1;
      ValuesOfOthers(opts[..n], name);
      ValuesAppend(Present(opts[..n]), if opts[n].1.Some? then [(opts[n].0, opts[n].1.value)] else [], name);
    }
  }
}
