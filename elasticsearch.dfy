/** The Elasticsearch/Kibana CLI: relative times, the translation of simple KQL into
    an Elasticsearch bool query, the KQL of the service-logs command and the parts of
    a Kibana Discover URL. */
module Elasticsearch {
  import opened Wrappers
  import opened Text
  import Url

  // ----- _parse_time_range -----

  /** A resolved time: an instant, in whole seconds since 0001-01-01T00:00:00 UTC
      (the earliest `datetime`), or the stripped text when it is not a Kibana
      relative time. */
  datatype TimeBound = Instant(seconds: nat) | Verbatim(text: string)

  predicate IsUnit(c: char) { c == 's' || c == 'm' || c == 'h' || c == 'd' || c == 'w' || c == 'M' }

  /** Seconds per unit of `delta_map`; a month is 30 days. */
  function UnitSeconds(u: char): nat {
    match u
    case 's' => 1
    case 'm' => 60
    case 'h' => 3600
    case 'd' => 86400
    case 'w' => 604800
    case 'M' => 2592000
    case _ => 3600
  }

  /** The largest number of days a `timedelta` holds. */
  const MaxDays: nat := 999999999

  const OverflowError := "OverflowError"

  /** The count and unit of `^now-(\d+)([smhdwM])$`. */
  function RelativeOffset(e: string): (r: Option<(nat, char)>)
    ensures r.Some? ==> StartsWith(e, "now-") && IsUnit(e[|e| - 1]) && AllDigits(e[4..|e| - 1])
    ensures r.Some? ==> r.value == (DigitsValue(e[4..|e| - 1]), e[|e| - 1])
  {
    if |e| >= 6 && e[..4] == "now-" && IsUnit(e[|e| - 1]) && AllDigits(e[4..|e| - 1])
    then Some((DigitsValue(e[4..|e| - 1]), e[|e| - 1]))
    else None
  }

  /** `now - delta` for `N` units: all six deltas of `delta_map` are built before
      one is picked, so the month delta of `N * 30` days overflows for any unit
      once it passes `MaxDays`; an instant before the year 1 overflows too. */
  function Before(now: nat, n: nat, u: char): (r: Result<TimeBound>)
    ensures r.Ok? <==> n * 30 <= MaxDays && n * UnitSeconds(u) <= now
    ensures r.Ok? ==> r.value.Instant? && r.value.seconds + n * UnitSeconds(u) == now
  {
    if n * 30 > MaxDays || now < n * UnitSeconds(u) then Err(OverflowError)
    else Ok(Instant(now - n * UnitSeconds(u)))
  }

  /** `_resolve`: `now`, `now-N<unit>`, or the stripped text as it is. */
  function Resolve(now: nat, expr: string): (r: Result<TimeBound>)
    ensures r.Ok? && r.value.Verbatim? ==> r.value.text == Strip(expr) && r.value.text != "now" && RelativeOffset(r.value.text).None?
    ensures r.Ok? && r.value.Instant? ==> r.value.seconds <= now
    ensures r.Err? ==> r.msg == OverflowError && RelativeOffset(Strip(expr)).Some?
    ensures RelativeOffset(Strip(expr)).None? ==> r.Ok?
  {
    var e := Strip(expr);
    if e == "now" then Ok(Instant(now))
    else match RelativeOffset(e)
      case Some((n, u)) => Before(now, n, u)
      case None => Ok(Verbatim(e))
  }

  /** `_parse_time_range`, with the clock reading as a parameter: the start is
      resolved first, and an overflow in either ends the command. */
  function ParseTimeRange(from: string, to: string, now: nat): (r: Result<(TimeBound, TimeBound)>)
    ensures r.Ok? <==> Resolve(now, from).Ok? && Resolve(now, to).Ok?
    ensures r.Ok? ==> r.value == (Resolve(now, from).value, Resolve(now, to).value)
  {
    match Resolve(now, from)
    case Err(e) => Err(e)
    case Ok(a) =>
      match Resolve(now, to)
      case Err(e) => Err(e)
      case Ok(b) => Ok((a, b))
  }

  /** `now-N<unit>` is `N` units before `now`, unless the month delta of `N * 30`
      days exceeds `MaxDays` (whatever the unit) or the instant falls before the
      year 1: then it is an OverflowError. */
  lemma ResolveRelative(now: nat, n: nat, u: char)
    requires IsUnit(u)
    ensures Resolve(now, "now-" + NatToStr(n) + [u])
      == if n * 30 > MaxDays || now < n * UnitSeconds(u) then Err(OverflowError)
         else Ok(Instant(now - n * UnitSeconds(u)))
  {
    var d := NatToStr(n);
    var e := "now-" + d + [u];
    assert !IsSpace(e[0]) && !IsSpace(e[|e| - 1]);
    StripOfNonSpaceEnds(e);
    assert e[..4] == "now-" && e[4..|e| - 1] == d;
    assert e != "now";
    DigitsOfNatToStr(n);
  }

  /** Blanks around a time expression do not matter. */
  lemma ResolveStripped(now: nat, expr: string)
    ensures Resolve(now, expr) == Resolve(now, Strip(expr))
  {
    StripEnds(expr);
    StripOfNonSpaceEnds(Strip(expr));
  }

  // ----- _build_es_query -----

  /** The clauses the query builder emits. A wildcard names the `.keyword` sub-field. */
  datatype Clause = Wildcard(field: string, value: string) | MatchPhrase(field: string, value: string)
                  | QueryString(query: string)

  /** `{"bool": {"must": ..., "filter": [range]}}`; `must` is None for the form with the
      time filter only. */
  datatype Query = Query(must: Option<seq<Clause>>, timestampField: string, gte: TimeBound, lte: TimeBound)

  /** The first index at or after `i` that is not blank. */
  function SpaceEnd(s: string, i: nat): (r: nat)
    requires i <= |s|
    ensures i <= r <= |s| && (r == |s| || !IsSpace(s[r]))
    ensures forall k :: i <= k < r ==> IsSpace(s[k])
    decreases |s| - i
  {
    if i < |s| && IsSpace(s[i]) then SpaceEnd(s, i + 1) else i
  }

  /** The end of a match of `\s+(?:AND|and)\s+` that starts at `i`. The blank runs are
      maximal: a shorter first run would leave a blank where `A` or `a` must be. */
  function AndMatch(s: string, i: nat): (r: Option<nat>)
    requires i <= |s|
    ensures r.Some? ==> i < r.value <= |s|
  {
    if i < |s| && IsSpace(s[i]) then
      var j := SpaceEnd(s, i);
      if j + 4 <= |s| && (s[j..j + 3] == "AND" || s[j..j + 3] == "and") && IsSpace(s[j + 3])
      then Some(SpaceEnd(s, j + 3))
      else None
    else None
  }

  /** `re.split` from the piece starting at `start`, the search being at `i`. */
  function SplitAndFrom(s: string, start: nat, i: nat): (r: seq<string>)
    requires start <= i <= |s|
    ensures |r| >= 1
    decreases |s| - i
  {
    if i == |s| then [s[start..]]
    else match AndMatch(s, i)
      case Some(e) => [s[start..i]] + SplitAndFrom(s, e, e)
      case None => SplitAndFrom(s, start, i + 1)
  }

  /** `re.split(r"\s+(?:AND|and)\s+", s)`. */
  function SplitAnd(s: string): (r: seq<string>)
    ensures |r| >= 1
  {
    SplitAndFrom(s, 0, 0)
  }

  /** Positions without a match are passed over. */
  lemma {:induction false} SkipNoMatch(s: string, start: nat, i: nat, m: nat)
    requires start <= i <= m <= |s|
    requires forall k :: i <= k < m ==> AndMatch(s, k).None?
    ensures SplitAndFrom(s, start, i) == SplitAndFrom(s, start, m)
    decreases m - i
  {
    if i < m {
      SkipNoMatch(s, start, i + 1, m);
    }
  }

  /** Text without a blank-surrounded `AND` or `and` is one part. */
  lemma SplitAndNone(s: string)
    requires forall k :: 0 <= k < |s| ==> AndMatch(s, k).None?
    ensures SplitAnd(s) == [s]
  {
    SkipNoMatch(s, 0, 0, |s|);
  }

  /** `[\w.@-]`, for ASCII. */
  predicate IsFieldChar(c: char) { IsWordChar(c) || c == '.' || c == '@' || c == '-' }

  predicate IsFieldName(f: string) {
    |f| > 0 && forall k :: 0 <= k < |f| ==> IsFieldChar(f[k])
  }

  function FieldEnd(s: string, i: nat): (r: nat)
    requires i <= |s|
    ensures i <= r <= |s| && (r == |s| || !IsFieldChar(s[r]))
    ensures forall k :: i <= k < r ==> IsFieldChar(s[k])
    decreases |s| - i
  {
    if i < |s| && IsFieldChar(s[i]) then FieldEnd(s, i + 1) else i
  }

  /** `^([\w.@-]+)\s*:\s*`: the field and the text after the colon and its blanks. */
  function FieldAndRest(part: string): (r: Option<(string, string)>)
    ensures r.Some? ==> IsFieldName(r.value.0) && (r.value.1 == [] || !IsSpace(r.value.1[0]))
  {
    var f := FieldEnd(part, 0);
    var a := SpaceEnd(part, f);
    if f > 0 && a < |part| && part[a] == ':' then
      var b := SpaceEnd(part, a + 1);
      Some((part[..f], part[b..]))
    else None
  }

  /** A value with `*` becomes a wildcard on `field.keyword`, any other a `match_phrase`. */
  function ValueClause(field: string, value: string): (r: Clause)
    ensures HasChar(value, '*') <==> r.Wildcard?
    ensures r.Wildcard? ==> r == Wildcard(field + ".keyword", value)
    ensures r.MatchPhrase? ==> r == MatchPhrase(field, value)
  {
    if HasChar(value, '*') then Wildcard(field + ".keyword", value) else MatchPhrase(field, value)
  }

  /** `"([^"]*)"$` after the colon. */
  predicate IsQuoted(rest: string) {
    |rest| >= 2 && rest[0] == '"' && rest[|rest| - 1] == '"' && !HasChar(rest[1..|rest| - 1], '"')
  }

  /** The clause for one stripped part: `field : "value"`, then `field : token`, then
      `query_string` with the part as it is. */
  function ClauseOf(part: string): (r: Clause)
    ensures r.QueryString? ==> r.query == part
    ensures !HasChar(part, ':') ==> r == QueryString(part)
  {
    match FieldAndRest(part)
    case None => QueryString(part)
    case Some((field, rest)) =>
      if IsQuoted(rest) then ValueClause(field, rest[1..|rest| - 1])
      else if rest != [] && NoSpace(rest) then ValueClause(field, rest)
      else QueryString(part)
  }

  /** The clause of one part: none for a blank part. */
  function PartClauses(part: string): (r: seq<Clause>)
    ensures |r| <= 1
  {
    var p := Strip(part);
    if p == [] then [] else [ClauseOf(p)]
  }

  /** The clause list of a few parts: one per part that is not blank. */
  function Clauses(parts: seq<string>): (r: seq<Clause>)
    ensures |r| <= |parts|
  {
    if parts == [] then [] else Clauses(parts[..|parts| - 1]) + PartClauses(parts[|parts| - 1])
  }

  /** What `_build_es_query` returns: the time range's overflow, or the query. */
  function QueryOf(kql: Option<string>, from: string, to: string, field: string, now: nat): (r: Result<Query>)
    ensures r.Ok? <==> ParseTimeRange(from, to, now).Ok?
    ensures r.Err? ==> r.msg == OverflowError
    ensures r.Ok? ==> (r.value.must.None? <==> kql.None? || Strip(kql.value) == [])
    ensures r.Ok? ==> r.value.timestampField == field && (r.value.gte, r.value.lte) == ParseTimeRange(from, to, now).value
  {
    match ParseTimeRange(from, to, now)
    case Err(e) => Err(e)
    case Ok((gte, lte)) =>
      if kql.None? || Strip(kql.value) == [] then Ok(Query(None, field, gte, lte))
      else Ok(Query(Some(Clauses(SplitAnd(Strip(kql.value)))), field, gte, lte))
  }

  /** `_build_es_query`, appending one clause per part. */
  method BuildEsQuery(kql: Option<string>, from: string, to: string, field: string, now: nat)
    returns (q: Result<Query>)
    ensures q == QueryOf(kql, from, to, field, now)
  {
    var range := ParseTimeRange(from, to, now);
    if range.Err? {
      return Err(range.msg);
    }
    var (gte, lte) := range.value;
    if kql.None? || Strip(kql.value) == [] {
      return Ok(Query(None, field, gte, lte));
    }
    var must: seq<Clause> := [];
    var parts := SplitAnd(Strip(kql.value));
    for i := 0 to |parts|
      invariant must == Clauses(parts[..i])
    {
      ClausesPrefixStep(parts, i);
      var part := Strip(parts[i]);
      if part != [] {
        must := must + [ClauseOf(part)];
      }
    }
    assert parts[..|parts|] == parts;
    return Ok(Query(Some(must), field, gte, lte));
  }

  /** The clauses of consecutive runs of parts follow each other. */
  lemma {:induction false} ClausesAppend(a: seq<string>, b: seq<string>)
    ensures Clauses(a + b) == Clauses(a) + Clauses(b)
    decreases |b|
  {
    if b == [] {
      assert a + b == a;
    } else {
      var b', l := b[..|b| - 1], b[|b| - 1];
      var ab' := a + b';
      assert a + b == ab' + [l];
      assert b == b' + [l];
      ClausesSnoc(ab', l);
      ClausesSnoc(b', l);
      ClausesAppend(a, b');
      var ca, cb', pl := Clauses(a), Clauses(b'), PartClauses(l);
      assert Clauses(a + b) == ca + cb' + pl;
      assert Clauses(b) == cb' + pl;
      assert ca + cb' + pl == ca + (cb' + pl);
    }
  }

  lemma ClausesPrefixStep(parts: seq<string>, i: nat)
    requires i < |parts|
    ensures Clauses(parts[..i + 1]) == Clauses(parts[..i]) + PartClauses(parts[i])
  {
    assert parts[..i + 1] == parts[..i] + [parts[i]];
    ClausesSnoc(parts[..i], parts[i]);
  }

  lemma ClausesSnoc(ps: seq<string>, p: string)
    ensures Clauses(ps + [p]) == Clauses(ps) + PartClauses(p)
  {
    assert (ps + [p])[..|ps|] == ps;
  }

  /** A part that is not blank gives exactly one clause, in its place. */
  lemma ClausesFirst(p: string, rest: seq<string>)
    requires Strip(p) != []
    ensures Clauses([p] + rest) == [ClauseOf(Strip(p))] + Clauses(rest)
  {
    ClausesAppend([p], rest);
    assert [p][..0] == [];
    assert Clauses([p]) == Clauses([]) + PartClauses(p);
  }

  /** `field : rest` with any blanks around the colon. */
  lemma FieldAndRestOf(field: string, a: string, b: string, rest: string)
    requires IsFieldName(field)
    requires forall k :: 0 <= k < |a| ==> IsSpace(a[k])
    requires forall k :: 0 <= k < |b| ==> IsSpace(b[k])
    requires rest == [] || !IsSpace(rest[0])
    ensures FieldAndRest(field + a + ":" + b + rest) == Some((field, rest))
  {
    var s := field + a + ":" + b + rest;
    var f, c := |field|, |field| + |a| + 1;
    FieldAndRestEnds(field, a, b, rest, s);
    FieldAndRestAt(s, f, c - 1, c + |b|);
  }

  /** Where the field, the blanks and the colon of `field : rest` end. */
  lemma FieldAndRestEnds(field: string, a: string, b: string, rest: string, s: string)
    requires IsFieldName(field)
    requires forall k :: 0 <= k < |a| ==> IsSpace(a[k])
    requires forall k :: 0 <= k < |b| ==> IsSpace(b[k])
    requires rest == [] || !IsSpace(rest[0])
    requires s == field + a + ":" + b + rest
    ensures var f, c := |field|, |field| + |a| + 1;
      0 < f && c + |b| <= |s| && s[c - 1] == ':' && s[..f] == field && s[c + |b|..] == rest
      && FieldEnd(s, 0) == f && SpaceEnd(s, f) == c - 1 && SpaceEnd(s, c) == c + |b|
  {
    var f, c := |field|, |field| + |a| + 1;
    FiveSlices(field, a, ":", b, rest);
    FieldEndOf(field, s[f..]);
    SpaceEndOf(s, f, a, s[c - 1..]);
    SpaceEndOf(s, c, b, rest);
  }

  /** The pieces of a five-part concatenation, read back by slicing. */
  lemma FiveSlices(p: string, q: string, r: string, t: string, u: string)
    ensures var s := p + q + r + t + u;
      var i, j, k := |p|, |p| + |q|, |p| + |q| + |r|;
      s[..i] == p && s[i..] == q + s[j..] && s[j..] == r + s[k..] && s[k..] == t + u
      && s == p + s[i..]
  {
  }

  lemma FieldAndRestAt(s: string, f: nat, a: nat, b: nat)
    requires 0 < f <= a < b <= |s| && s[a] == ':'
    requires FieldEnd(s, 0) == f && SpaceEnd(s, f) == a && SpaceEnd(s, a + 1) == b
    ensures FieldAndRest(s) == Some((s[..f], s[b..]))
  {
  }

  lemma FieldEndOf(field: string, t: string)
    requires IsFieldName(field) && t != [] && !IsFieldChar(t[0])
    ensures FieldEnd(field + t, 0) == |field|
  {
    var s := field + t;
    assert forall k :: 0 <= k < |field| ==> s[k] == field[k];
    assert s[|field|] == t[0];
    FieldEndAt(s, 0, |field|);
  }

  /** A run of blanks at `i`, followed by text that does not start with one. */
  lemma SpaceEndOf(s: string, i: nat, blanks: string, t: string)
    requires i + |blanks| + |t| == |s| && s[i..] == blanks + t
    requires forall k :: 0 <= k < |blanks| ==> IsSpace(blanks[k])
    requires t == [] || !IsSpace(t[0])
    ensures SpaceEnd(s, i) == i + |blanks|
  {
    assert forall k :: i <= k < i + |blanks| ==> s[k] == s[i..][k - i] == blanks[k - i];
    if t != [] { assert s[i + |blanks|] == s[i..][|blanks|] == t[0]; }
    SpaceEndAt(s, i, i + |blanks|);
  }

  lemma {:induction false} FieldEndAt(s: string, i: nat, m: nat)
    requires i <= m <= |s|
    requires forall k :: i <= k < m ==> IsFieldChar(s[k])
    requires m == |s| || !IsFieldChar(s[m])
    ensures FieldEnd(s, i) == m
    decreases m - i
  {
    if i < m { FieldEndAt(s, i + 1, m); }
  }

  lemma {:induction false} SpaceEndAt(s: string, i: nat, m: nat)
    requires i <= m <= |s|
    requires forall k :: i <= k < m ==> IsSpace(s[k])
    requires m == |s| || !IsSpace(s[m])
    ensures SpaceEnd(s, i) == m
    decreases m - i
  {
    if i < m { SpaceEndAt(s, i + 1, m); }
  }

  /** `field : "value"` matches on the value with its quotes removed. */
  lemma QuotedClause(field: string, a: string, b: string, value: string)
    requires IsFieldName(field)
    requires forall k :: 0 <= k < |a| ==> IsSpace(a[k])
    requires forall k :: 0 <= k < |b| ==> IsSpace(b[k])
    requires !HasChar(value, '"')
    ensures ClauseOf(field + a + ":" + b + "\"" + value + "\"") == ValueClause(field, value)
  {
    var rest := "\"" + value + "\"";
    var part := field + a + ":" + b + rest;
    assert field + a + ":" + b + "\"" + value + "\"" == part;
    FieldAndRestOf(field, a, b, rest);
    assert rest[1..|rest| - 1] == value;
    ClauseOfQuoted(part, field, rest);
  }

  /** The clause of a part whose value is quoted. */
  lemma ClauseOfQuoted(part: string, field: string, rest: string)
    requires FieldAndRest(part) == Some((field, rest)) && IsQuoted(rest)
    ensures ClauseOf(part) == ValueClause(field, rest[1..|rest| - 1])
  {
  }

  /** `field : token` matches on the token when it is not quoted. */
  lemma TokenClause(field: string, a: string, b: string, token: string)
    requires IsFieldName(field)
    requires forall k :: 0 <= k < |a| ==> IsSpace(a[k])
    requires forall k :: 0 <= k < |b| ==> IsSpace(b[k])
    requires token != [] && NoSpace(token) && token[0] != '"'
    ensures ClauseOf(field + a + ":" + b + token) == ValueClause(field, token)
  {
    FieldAndRestOf(field, a, b, token);
  }

  /** `field : x OR y` is no single field test: it goes to `query_string` as written. */
  lemma OrIsQueryString(field: string, x: string, y: string)
    requires IsFieldName(field)
    requires x != [] && !IsSpace(x[0]) && x[0] != '"'
    ensures ClauseOf(field + " : " + x + " OR " + y) == QueryString(field + " : " + x + " OR " + y)
  {
    var rest := x + " OR " + y;
    assert field + " : " + x + " OR " + y == field + " " + ":" + " " + rest;
    FieldAndRestOf(field, " ", " ", rest);
    assert rest[|x|] == ' ';
  }

  // ----- cmd_service_logs -----

  const ServiceField := "kubernetes.service-name"

  /** The wildcard test on the service name. */
  function ServiceTest(service: string): string {
    ServiceField + " : \"*" + service + "*\""
  }

  /** The KQL of `service-logs`: the service test, and ` AND extra` when an extra query
      is given. */
  function ServiceKql(service: string, extra: Option<string>): string {
    if extra.Some? && extra.value != [] then ServiceTest(service) + " AND " + extra.value
    else ServiceTest(service)
  }

  /** The service test is always the first clause, a wildcard on the keyword field. */
  lemma ServiceLogsFirstClause(service: string, extra: Option<string>, from: string, to: string,
                               field: string, now: nat)
    requires NoSpace(service) && !HasChar(service, '"')
    requires extra.None? || extra.value == [] || !IsSpace(extra.value[|extra.value| - 1])
    ensures var q := QueryOf(Some(ServiceKql(service, extra)), from, to, field, now);
      q.Ok? ==> (q.value.must.Some? && |q.value.must.value| >= 1
                 && q.value.must.value[0] == Wildcard(ServiceField + ".keyword", "*" + service + "*"))
  {
    var p := ServiceTest(service);
    var k := ServiceKql(service, extra);
    ServiceKqlStripped(service, extra);
    var parts := SplitAnd(k);
    ServiceTestFirstPart(service, extra);
    assert parts == [p] + parts[1..];
    ServiceTestClause(service);
    ClausesFirst(p, parts[1..]);
  }

  lemma ServiceKqlStripped(service: string, extra: Option<string>)
    requires extra.None? || extra.value == [] || !IsSpace(extra.value[|extra.value| - 1])
    ensures Strip(ServiceKql(service, extra)) == ServiceKql(service, extra)
  {
    var k := ServiceKql(service, extra);
    assert k[0] == 'k';
    assert !IsSpace(k[|k| - 1]) by {
      if extra.Some? && extra.value != [] { assert k[|k| - 1] == extra.value[|extra.value| - 1]; }
      else { assert k[|k| - 1] == '"'; }
    }
    StripOfNonSpaceEnds(k);
  }

  /** The service test clause: a wildcard, since its value holds `*`. */
  lemma ServiceTestClause(service: string)
    requires !HasChar(service, '"')
    ensures Strip(ServiceTest(service)) == ServiceTest(service)
    ensures ClauseOf(ServiceTest(service)) == Wildcard(ServiceField + ".keyword", "*" + service + "*")
  {
    var p := ServiceTest(service);
    var v := "*" + service + "*";
    assert p == ServiceField + " " + ":" + " " + "\"" + v + "\"";
    assert !HasChar(v, '"') by {
      forall j | 0 <= j < |v| ensures v[j] != '"' { if 0 < j < |v| - 1 { assert v[j] == service[j - 1]; } }
    }
    assert ClauseOf(p) == Wildcard(ServiceField + ".keyword", v) by {
      ServiceFieldName();
      QuotedClause(ServiceField, " ", " ", v);
      assert v[0] == '*';
    }
    assert Strip(p) == p by {
      assert !IsSpace(p[0]) && !IsSpace(p[|p| - 1]);
      StripOfNonSpaceEnds(p);
    }
  }

  lemma ServiceFieldName()
    ensures IsFieldName(ServiceField)
  {
  }

  /** The KQL of `service-logs` splits first at the `AND` that follows the service test. */
  lemma ServiceTestFirstPart(service: string, extra: Option<string>)
    requires NoSpace(service)
    ensures SplitAnd(ServiceKql(service, extra))[0] == ServiceTest(service)
  {
    var p := ServiceTest(service);
    var k := ServiceKql(service, extra);
    assert k[..|p|] == p;
    NoMatchInServiceTest(service, k);
    SkipNoMatch(k, 0, 0, |p|);
    if k == p {
      assert SplitAndFrom(k, 0, |p|) == [k[0..]];
    } else {
      assert k[|p|..|p| + 5] == " AND ";
      assert SpaceEnd(k, |p|) == |p| + 1 by { SpaceEndAt(k, |p|, |p| + 1); }
      assert k[|p| + 1..|p| + 4] == "AND";
      assert AndMatch(k, |p|).Some?;
    }
  }

  /** Where the service test has its blanks. */
  lemma ServiceTestBlanks(service: string)
    requires NoSpace(service)
    ensures var p := ServiceTest(service);
      p[24] == ':' && p[26] == '"' && forall i :: 0 <= i < |p| && i != 23 && i != 25 ==> !IsSpace(p[i])
  {
    var p := ServiceTest(service);
    ServiceFieldName();
    forall i | 0 <= i < |p| && i != 23 && i != 25 ensures !IsSpace(p[i]) {
      if i < 23 {
        assert p[i] == ServiceField[i];
      } else if 28 <= i < |p| - 2 {
        assert p[i] == service[i - 28];
      }
    }
  }

  /** No blank inside the service test starts an `AND` separator. */
  lemma NoMatchInServiceTest(service: string, k: string)
    requires NoSpace(service) && StartsWith(k, ServiceTest(service))
    ensures forall i :: 0 <= i < |ServiceTest(service)| ==> AndMatch(k, i).None?
  {
    var p := ServiceTest(service);
    ServiceTestBlanks(service);
    assert k[..|p|] == p;
    assert k[23] == p[23] && k[24] == ':' && k[25] == p[25] && k[26] == '"';
    assert SpaceEnd(k, 23) == 24 by { SpaceEndAt(k, 23, 24); }
    assert SpaceEnd(k, 25) == 26 by { SpaceEndAt(k, 25, 26); }
    forall i | 0 <= i < |p| ensures AndMatch(k, i).None? {
      assert k[i] == p[i];
    }
  }

  // ----- _parse_kibana_url -----

  /** The five searches of `_parse_kibana_url`. */
  datatype Pattern =
    | SpacePattern   // /s/([^/]+)/app/discover, on the URL as given
    | IndexPattern   // index:([a-f0-9-]+)
    | KqlPattern     // _a=.*?query:\(language:kuery,query:'([^']*)'\)
    | FromPattern    // time:\(from:([^,)]+)
    | ToPattern      // time:\(from:[^,]+,to:([^)]+)\)

  const KqlLead := "query:(language:kuery,query:'"
  const TimeLead := "time:(from:"

  predicate IsIndexChar(c: char) { ('a' <= c <= 'f') || IsDigit(c) || c == '-' }

  /** The first index at or after `i` whose character `stop` accepts, or `|s|`. This is
      where a greedy negated class such as `[^/]+` ends. */
  function RunEnd(s: string, i: nat, stop: char -> bool): (r: nat)
    requires i <= |s|
    ensures i <= r <= |s| && (r == |s| || stop(s[r]))
    ensures forall k :: i <= k < r ==> !stop(s[k])
    decreases |s| - i
  {
    if i < |s| && !stop(s[i]) then RunEnd(s, i + 1, stop) else i
  }

  /** The lazy `.*?` of the KQL search: the first `j` from `i` at which the rest matches,
      with no line break passed over. */
  function LazyKql(s: string, j: nat): (r: Option<string>)
    requires j <= |s|
    ensures r.Some? ==> !HasChar(r.value, '\'')
    decreases |s| - j
  {
    if OccursAt(s, KqlLead, j) && OccursAt(s, "')", RunEnd(s, j + |KqlLead|, c => c == '\'')) then
      var e := RunEnd(s, j + |KqlLead|, c => c == '\'');
      var v := s[j + |KqlLead|..e];
      assert forall k :: 0 <= k < |v| ==> v[k] == s[j + |KqlLead| + k];
      Some(v)
    else if j < |s| && s[j] != '\n' then LazyKql(s, j + 1)
    else None
  }

  /** The capture of a match of the pattern that starts at `i`, if one does. */
  function MatchAt(p: Pattern, s: string, i: nat): (r: Option<string>)
    requires i <= |s|
    ensures r.Some? ==> r.value != [] || p == KqlPattern
  {
    match p
    case SpacePattern =>
      if OccursAt(s, "/s/", i) then
        var e := RunEnd(s, i + 3, c => c == '/');
        if e > i + 3 && OccursAt(s, "/app/discover", e) then Some(s[i + 3..e]) else None
      else None
    case IndexPattern =>
      if OccursAt(s, "index:", i) then
        var e := RunEnd(s, i + 6, c => !IsIndexChar(c));
        if e > i + 6 then Some(s[i + 6..e]) else None
      else None
    case KqlPattern =>
      if OccursAt(s, "_a=", i) then LazyKql(s, i + 3) else None
    case FromPattern =>
      if OccursAt(s, TimeLead, i) then
        var a := i + |TimeLead|;
        var e := RunEnd(s, a, c => c == ',' || c == ')');
        if e > a then Some(s[a..e]) else None
      else None
    case ToPattern =>
      if OccursAt(s, TimeLead, i) then
        var a := i + |TimeLead|;
        var c := RunEnd(s, a, c => c == ',');
        if c > a && OccursAt(s, ",to:", c) then
          var e := RunEnd(s, c + 4, c => c == ')');
          if e > c + 4 && e < |s| then Some(s[c + 4..e]) else None
        else None
      else None
  }

  /** `re.search`: the leftmost position from `i` where the pattern matches. */
  function FirstMatch(p: Pattern, s: string, i: nat): (r: Option<nat>)
    requires i <= |s|
    ensures r.Some? ==> i <= r.value < |s| && MatchAt(p, s, r.value).Some?
    ensures r.Some? ==> forall k :: i <= k < r.value ==> MatchAt(p, s, k).None?
    ensures r.None? ==> forall k :: i <= k < |s| ==> MatchAt(p, s, k).None?
    decreases |s| - i
  {
    if i == |s| then None
    else if MatchAt(p, s, i).Some? then Some(i)
    else FirstMatch(p, s, i + 1)
  }

  /** The capture of the leftmost match, or None. */
  function Search(p: Pattern, s: string): (r: Option<string>)
    ensures r.None? <==> forall k :: 0 <= k < |s| ==> MatchAt(p, s, k).None?
  {
    match FirstMatch(p, s, 0)
    case Some(k) => MatchAt(p, s, k)
    case None => None
  }

  /** The keys `_parse_kibana_url` found. */
  datatype Kibana = Kibana(space: Option<string>, indexPattern: Option<string>, kql: Option<string>,
                           timeFrom: Option<string>, timeTo: Option<string>)

  const NothingFound := Kibana(None, None, None, None, None)

  /** What `_parse_kibana_url` returns: None when no search matched. The searches but
      the first run on the percent-decoded URL, and the KQL is decoded once more. */
  function KibanaOf(url: string): (r: Option<Kibana>)
    ensures r.None? <==> Search(SpacePattern, url).None? && Search(IndexPattern, Url.Unquote(url)).None?
                         && Search(KqlPattern, Url.Unquote(url)).None?
                         && Search(FromPattern, Url.Unquote(url)).None? && Search(ToPattern, Url.Unquote(url)).None?
    ensures r.Some? ==> r.value.space == Search(SpacePattern, url)
                        && r.value.indexPattern == Search(IndexPattern, Url.Unquote(url))
  {
    var decoded := Url.Unquote(url);
    var kql := Search(KqlPattern, decoded);
    var found := Kibana(Search(SpacePattern, url), Search(IndexPattern, decoded),
                        if kql.Some? then Some(Url.Unquote(kql.value)) else None,
                        Search(FromPattern, decoded), Search(ToPattern, decoded));
    if found == NothingFound then None else Some(found)
  }

  /** `_parse_kibana_url`, filling the result key by key. */
  method ParseKibanaUrl(url: string) returns (r: Option<Kibana>)
    ensures r == KibanaOf(url)
  {
    var result := NothingFound;
    var m := Search(SpacePattern, url);
    if m.Some? { result := result.(space := m); }
    var decoded := Url.Unquote(url);
    m := Search(IndexPattern, decoded);
    if m.Some? { result := result.(indexPattern := m); }
    m := Search(KqlPattern, decoded);
    if m.Some? { result := result.(kql := Some(Url.Unquote(m.value))); }
    var mFrom := Search(FromPattern, decoded);
    var mTo := Search(ToPattern, decoded);
    if mFrom.Some? { result := result.(timeFrom := mFrom); }
    if mTo.Some? { result := result.(timeTo := mTo); }
    return if result == NothingFound then None else Some(result);
  }

  /** A space found in a URL is a non-empty run without `/` that sits between `/s/` and
      `/app/discover`. */
  lemma SpaceShape(url: string)
    requires Search(SpacePattern, url).Some?
    ensures var sp := Search(SpacePattern, url).value;
      sp != [] && !HasChar(sp, '/') && Contains(url, "/s/" + sp + "/app/discover")
  {
    SpaceMatchShape(url, FirstMatch(SpacePattern, url, 0).value);
  }

  /** The same, for a match at a known position. */
  lemma SpaceMatchShape(url: string, i: nat)
    requires i <= |url| && MatchAt(SpacePattern, url, i).Some?
    ensures var sp := MatchAt(SpacePattern, url, i).value;
      sp != [] && !HasChar(sp, '/') && Contains(url, "/s/" + sp + "/app/discover")
  {
    var e := RunEnd(url, i + 3, c => c == '/');
    var sp := url[i + 3..e];
    assert forall k :: 0 <= k < |sp| ==> sp[k] == url[i + 3 + k];
    var w := "/s/" + sp + "/app/discover";
    SliceJoin(url, i, i + 3, e, e + 13);
    assert url[i..i + |w|] == w;
    ContainsAt(url, w, i);
  }

  lemma SliceJoin(s: string, i: nat, j: nat, k: nat, m: nat)
    requires i <= j <= k <= m <= |s|
    ensures s[i..m] == s[i..j] + s[j..k] + s[k..m]
  {
  }

  /** Every `/s/<space>/app/discover` in a URL makes the result non-empty. */
  lemma DiscoverUrlFound(pre: string, sp: string, post: string)
    requires sp != [] && !HasChar(sp, '/')
    ensures KibanaOf(pre + "/s/" + sp + "/app/discover" + post).Some?
  {
    var url := pre + "/s/" + sp + "/app/discover" + post;
    var i := |pre|;
    assert url[i..i + 3] == "/s/";
    assert forall k :: 0 <= k < |sp| ==> url[i + 3 + k] == sp[k];
    RunEndAt(url, i + 3, i + 3 + |sp|, c => c == '/');
    assert url[i + 3 + |sp|..i + 3 + |sp| + 13] == "/app/discover";
    assert MatchAt(SpacePattern, url, i).Some?;
  }

  lemma {:induction false} RunEndAt(s: string, i: nat, m: nat, stop: char -> bool)
    requires i <= m <= |s|
    requires forall k :: i <= k < m ==> !stop(s[k])
    requires m == |s| || stop(s[m])
    ensures RunEnd(s, i, stop) == m
    decreases m - i
  {
    if i < m { RunEndAt(s, i + 1, m, stop); }
  }

  /** The captured index pattern id, time bounds and KQL keep to their character classes. */
  lemma CaptureClasses(p: Pattern, s: string, i: nat)
    requires i <= |s| && MatchAt(p, s, i).Some?
    ensures var v := MatchAt(p, s, i).value;
      (p == IndexPattern ==> forall k :: 0 <= k < |v| ==> IsIndexChar(v[k]))
      && (p == FromPattern ==> !HasChar(v, ',') && !HasChar(v, ')'))
      && (p == ToPattern ==> !HasChar(v, ')'))
      && (p == KqlPattern ==> !HasChar(v, '\''))
  {
    var v := MatchAt(p, s, i).value;
    match p
    case IndexPattern =>
      var e := RunEnd(s, i + 6, c => !IsIndexChar(c));
      assert forall k :: 0 <= k < |v| ==> v[k] == s[i + 6 + k];
    case FromPattern =>
      var a := i + |TimeLead|;
      assert forall k :: 0 <= k < |v| ==> v[k] == s[a + k];
    case ToPattern =>
      var a := i + |TimeLead|;
      var c := RunEnd(s, a, c => c == ',');
      assert forall k :: 0 <= k < |v| ==> v[k] == s[c + 4 + k];
    case _ =>
  }
}
