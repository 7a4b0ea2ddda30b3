/** Parsed JSON values as the scripts see them after `json.loads`: Python's
    `None`, `bool`, `int`, `str`, `list` and `dict`. A `dict` keeps its keys in
    insertion order, as Python's does. */
module Json {
  import opened Wrappers

  datatype Json =
    | JNull
    | JBool(b: bool)
    | JInt(n: int)
    | JStr(s: string)
    | JArr(items: seq<Json>)
    | JObj(fields: seq<(string, Json)>)

  /** Python truthiness: `None`, `False`, `0`, `""`, `[]` and `{}` are falsy. */
  predicate Truthy(j: Json) {
    match j
    case JNull => false
    case JBool(b) => b
    case JInt(n) => n != 0
    case JStr(s) => s != []
    case JArr(items) => items != []
    case JObj(fields) => fields != []
  }

  /** The keys of a dict, in order. */
  function Keys(fields: seq<(string, Json)>): (r: seq<string>)
    ensures |r| == |fields|
    ensures forall i :: 0 <= i < |fields| ==> r[i] == fields[i].0
  {
    if fields == [] then [] else [fields[0].0] + Keys(fields[1..])
  }

  /** A dict's keys are distinct. */
  predicate DistinctKeys(fields: seq<(string, Json)>) {
    forall i, j :: 0 <= i < j < |fields| ==> fields[i].0 != fields[j].0
  }

  /** `d.get(k)` on the pairs of a dict. */
  function Lookup(fields: seq<(string, Json)>, k: string): (r: Option<Json>)
    ensures r.Some? <==> k in Keys(fields)
    ensures r.Some? ==> exists i :: 0 <= i < |fields| && fields[i] == (k, r.value)
  {
    if fields == [] then None
    else if fields[0].0 == k then Some(fields[0].1)
    else Lookup(fields[1..], k)
  }

  /** `obj.get(k)` where `obj` may be any value: `None` unless `obj` is a dict holding `k`. */
  function Get(obj: Json, k: string): (r: Option<Json>)
    ensures r.Some? ==> obj.JObj? && k in Keys(obj.fields)
  {
    if obj.JObj? then Lookup(obj.fields, k) else None
  }

  /** `obj.get(k)` with a missing key read as `None`. */
  function GetOrNull(obj: Json, k: string): Json {
    Get(obj, k).GetOr(JNull)
  }

  /** `d.get(k)` with a missing key read as `None`: the value `Lookup` finds, without
      its contract, for readers of many keys. */
  function Field(fields: seq<(string, Json)>, k: string): Json {
    if fields == [] then JNull else if fields[0].0 == k then fields[0].1 else Field(fields[1..], k)
  }

  lemma {:induction false} FieldIsLookup(fields: seq<(string, Json)>, k: string)
    ensures Field(fields, k) == Lookup(fields, k).GetOr(JNull)
  {
    if fields != [] && fields[0].0 != k { FieldIsLookup(fields[1..], k); }
  }

  /** `d[k] = v`: an existing key keeps its place, a new key goes last. */
  function Put(fields: seq<(string, Json)>, k: string, v: Json): (r: seq<(string, Json)>)
  {
    if fields == [] then [(k, v)]
    else if fields[0].0 == k then [(k, v)] + fields[1..]
    else [fields[0]] + Put(fields[1..], k, v)
  }

  /** After `d[k] = v`, `d[k]` is `v`; the keys are those before, with `k` appended
      when it is new. */
  lemma PutSpec(fields: seq<(string, Json)>, k: string, v: Json)
    ensures Lookup(Put(fields, k, v), k) == Some(v)
    ensures k in Keys(fields) ==> Keys(Put(fields, k, v)) == Keys(fields)
    ensures k !in Keys(fields) ==> Keys(Put(fields, k, v)) == Keys(fields) + [k]
  {
    PutLookup(fields, k, v);
    PutKeys(fields, k, v);
  }

  lemma {:induction false} PutLookup(fields: seq<(string, Json)>, k: string, v: Json)
    ensures Lookup(Put(fields, k, v), k) == Some(v)
  {
    if fields != [] && fields[0].0 != k {
      PutLookup(fields[1..], k, v);
      var r := [fields[0]] + Put(fields[1..], k, v);
      assert r[0].0 != k && r[1..] == Put(fields[1..], k, v);
    }
  }

  lemma {:induction false} PutKeys(fields: seq<(string, Json)>, k: string, v: Json)
    ensures Keys(Put(fields, k, v)) == if k in Keys(fields) then Keys(fields) else Keys(fields) + [k]
  {
    if fields != [] {
      assert Keys(fields) == [fields[0].0] + Keys(fields[1..]);
      if fields[0].0 == k {
        var r := [(k, v)] + fields[1..];
        assert Keys(r) == [k] + Keys(r[1..]) && r[1..] == fields[1..];
      } else {
        PutKeys(fields[1..], k, v);
        var r := [fields[0]] + Put(fields[1..], k, v);
        assert Keys(r) == [fields[0].0] + Keys(r[1..]) && r[1..] == Put(fields[1..], k, v);
      }
    }
  }

  /** Assigning a key keeps the keys of a dict distinct. */
  lemma PutKeepsDistinct(fields: seq<(string, Json)>, k: string, v: Json)
    requires DistinctKeys(fields)
    ensures DistinctKeys(Put(fields, k, v))
  {
    var r := Put(fields, k, v);
    PutSpec(fields, k, v);
    forall i, j | 0 <= i < j < |r| ensures r[i].0 != r[j].0 {
      assert Keys(r)[i] == r[i].0 && Keys(r)[j] == r[j].0;
      if k in Keys(fields) || j < |fields| {
        assert Keys(fields)[i] == fields[i].0 && Keys(fields)[j] == fields[j].0;
      } else {
        assert Keys(fields)[i] == fields[i].0;
      }
    }
  }

  /** Assigning one key leaves every other key's value as it was. */
  lemma {:induction false} PutOther(fields: seq<(string, Json)>, k: string, v: Json, k2: string)
    requires k2 != k
    ensures Lookup(Put(fields, k, v), k2) == Lookup(fields, k2)
  {
    if fields != [] && fields[0].0 != k {
      PutOther(fields[1..], k, v, k2);
    }
  }

  /** A dict built from pairs of distinct keys answers each key with its own value. */
  lemma {:induction false} LookupDistinct(fields: seq<(string, Json)>, i: nat)
    requires DistinctKeys(fields) && i < |fields|
    ensures Lookup(fields, fields[i].0) == Some(fields[i].1)
  {
    if i > 0 {
      assert fields[0].0 != fields[i].0;
      assert DistinctKeys(fields[1..]) by {
        forall a, b | 0 <= a < b < |fields| - 1 ensures fields[1..][a].0 != fields[1..][b].0 {
          assert fields[1..][a] == fields[a + 1] && fields[1..][b] == fields[b + 1];
        }
      }
      assert fields[1..][i - 1] == fields[i];
      LookupDistinct(fields[1..], i - 1);
    }
  }

  /** `x or d`. */
  function Or(x: Json, d: Json): (r: Json)
    ensures Truthy(x) ==> r == x
    ensures !Truthy(x) ==> r == d
  {
    if Truthy(x) then x else d
  }

  /** `[x for x in xs if isinstance(x, str)]`. */
  function Strs(xs: seq<Json>): (r: seq<string>)
    ensures |r| <= |xs|
    ensures forall c :: c in r <==> JStr(c) in xs
  {
    if xs == [] then []
    else (if xs[0].JStr? then [xs[0].s] else []) + Strs(xs[1..])
  }

  /** `all(isinstance(x, str) for x in xs)`. */
  predicate AllStrs(xs: seq<Json>) {
    forall i :: 0 <= i < |xs| ==> xs[i].JStr?
  }

  /** The strings of a list of strings are all of it, in order. */
  lemma {:induction false} StrsOfStrs(xs: seq<string>)
    ensures Strs(StrValues(xs)) == xs
  {
    if xs != [] {
      assert StrValues(xs)[1..] == StrValues(xs[1..]);
      StrsOfStrs(xs[1..]);
    }
  }

  /** A list of strings as a JSON list. */
  function StrValues(xs: seq<string>): (r: seq<Json>)
    ensures |r| == |xs|
    ensures forall i :: 0 <= i < |xs| ==> r[i] == JStr(xs[i])
  {
    if xs == [] then [] else [JStr(xs[0])] + StrValues(xs[1..])
  }

  /** Reading the keys of a three-key dict. */
  lemma Lookup3(k1: string, v1: Json, k2: string, v2: Json, k3: string, v3: Json)
    requires k1 != k2 && k1 != k3 && k2 != k3
    ensures var f := [(k1, v1), (k2, v2), (k3, v3)];
      Lookup(f, k1) == Some(v1) && Lookup(f, k2) == Some(v2) && Lookup(f, k3) == Some(v3)
  {
    var f, g := [(k1, v1), (k2, v2), (k3, v3)], [(k2, v2), (k3, v3)];
    assert f[1..] == g && f[0] == (k1, v1);
    Lookup2(k2, v2, k3, v3);
    assert Lookup(f, k2) == Lookup(g, k2) && Lookup(f, k3) == Lookup(g, k3);
  }

  /** Reading the keys of a two-key dict. */
  lemma Lookup2(k1: string, v1: Json, k2: string, v2: Json)
    requires k1 != k2
    ensures Lookup([(k1, v1), (k2, v2)], k1) == Some(v1) && Lookup([(k1, v1), (k2, v2)], k2) == Some(v2)
  {
    assert [(k1, v1), (k2, v2)][1..] == [(k2, v2)];
  }

  /** The integer a value stands for in a comparison: an integer, or a boolean
      as 1 or 0. */
  function NumberOf(j: Json): (r: Option<int>)
    ensures r.Some? <==> j.JInt? || j.JBool?
  {
    match j
    case JInt(n) => Some(n)
    case JBool(b) => Some(if b then 1 else 0)
    case _ => None
  }

  /** Python's `==` on parsed values: `True` and `False` equal the integers 1 and
      0, lists are equal element by element, and dicts are equal when they have
      the same keys with equal values, whatever the order of their pairs (each
      key read as `Lookup` reads it). */
  predicate PyEq(a: Json, b: Json)
    decreases a
  {
    match a
    case JNull => b.JNull?
    case JBool(_) => NumberOf(b).Some? && NumberOf(a) == NumberOf(b)
    case JInt(_) => NumberOf(b).Some? && NumberOf(a) == NumberOf(b)
    case JStr(s) => b == JStr(s)
    case JArr(xs) => b.JArr? && |xs| == |b.items| && forall i :: 0 <= i < |xs| ==> PyEq(xs[i], b.items[i])
    case JObj(fs) =>
      b.JObj? && (forall k :: k in Keys(fs) ==> k in Keys(b.fields))
      && (forall k :: k in Keys(b.fields) ==> k in Keys(fs))
      && forall k :: k in Keys(fs) ==> PyEq(Lookup(fs, k).value, Lookup(b.fields, k).value)
  }

  /** Every value equals itself. */
  lemma {:induction false} PyEqRefl(a: Json)
    ensures PyEq(a, a)
    decreases a
  {
    match a
    case JArr(xs) =>
      forall i | 0 <= i < |xs| ensures PyEq(xs[i], xs[i]) { PyEqRefl(xs[i]); }
    case JObj(fs) =>
      forall k | k in Keys(fs) ensures PyEq(Lookup(fs, k).value, Lookup(fs, k).value) {
        PyEqRefl(Lookup(fs, k).value);
      }
    case _ =>
  }

  /** `True == 1`, but `True != "1"` and `None != False`. */
  lemma PyEqScalars()
    ensures PyEq(JBool(true), JInt(1)) && PyEq(JInt(0), JBool(false))
    ensures !PyEq(JBool(true), JStr("1")) && !PyEq(JNull, JBool(false))
  {
  }

  /** Two dicts holding the same two pairs in either order are equal. */
  lemma PyEqDictOrder(k1: string, v1: Json, k2: string, v2: Json)
    requires k1 != k2
    ensures PyEq(JObj([(k1, v1), (k2, v2)]), JObj([(k2, v2), (k1, v1)]))
  {
    Lookup2(k1, v1, k2, v2);
    Lookup2(k2, v2, k1, v1);
    PyEqRefl(v1);
    PyEqRefl(v2);
    assert Keys([(k1, v1), (k2, v2)]) == [k1, k2];
    assert Keys([(k2, v2), (k1, v1)]) == [k2, k1];
  }
}
