/** The knowledge-graph store of the memory client: a list of entities (a
    name, a type and observations) and a list of relations (from, to and a
    relation type), changed by the create, add and delete commands and read by
    the search and open commands. The graph that the commands load from and
    save to the memory file is the state of a `KnowledgeGraph` object; the
    input items are the parsed JSON values of the command's input. */
module Memory {
  import opened Wrappers
  import opened Text
  import opened Json

  datatype Entity = Entity(name: string, entityType: string, observations: seq<string>)

  datatype Relation = Relation(from: string, to: string, relationType: string)

  /** A subgraph, as the search and open commands print it. */
  datatype Graph = Graph(entities: seq<Entity>, relations: seq<Relation>)

  /** What add-observations reports for one input item. */
  datatype Addition = Addition(entityName: string, contents: seq<string>)

  function NameSet(es: seq<Entity>): set<string> {
    set e | e in es :: e.name
  }

  function RelationSet(rs: seq<Relation>): set<Relation> {
    set r | r in rs
  }

  lemma RelationSetSnoc(rs: seq<Relation>, r: Relation)
    ensures RelationSet(rs + [r]) == RelationSet(rs) + {r}
  {
    assert forall x :: x in rs + [r] <==> x in rs || x == r;
  }

  /** No two entities share a name. */
  predicate DistinctNames(es: seq<Entity>) {
    forall i, j :: 0 <= i < j < |es| ==> es[i].name != es[j].name
  }

  /** No relation appears twice. */
  predicate DistinctRelations(rs: seq<Relation>) {
    forall i, j :: 0 <= i < j < |rs| ==> rs[i] != rs[j]
  }

  /** Every relation joins two entities of the graph. */
  predicate Linked(es: seq<Entity>, rs: seq<Relation>) {
    forall r :: r in rs ==> r.from in NameSet(es) && r.to in NameSet(es)
  }

  lemma NameSetSnoc(es: seq<Entity>, e: Entity)
    ensures NameSet(es + [e]) == NameSet(es) + {e.name}
  {
    assert forall x :: x in es + [e] <==> x in es || x == e;
  }

  // ----- reading input items -----

  /** An entity item: a dict with a string `name`, a string `entityType` and a
      list (or nothing) under `observations`, of which the strings are kept. */
  function DecodeEntity(it: Json): Option<Entity> {
    if !it.JObj? then None
    else
      var name := GetOrNull(it, "name");
      var entityType := GetOrNull(it, "entityType");
      var obs := Or(GetOrNull(it, "observations"), JArr([]));
      if name.JStr? && entityType.JStr? && obs.JArr? then Some(Entity(name.s, entityType.s, Strs(obs.items)))
      else None
  }

  /** A relation item: a dict with string `from`, `to` and `relationType`. */
  function DecodeRelation(it: Json): Option<Relation> {
    if !it.JObj? then None
    else
      var from := GetOrNull(it, "from");
      var to := GetOrNull(it, "to");
      var relationType := GetOrNull(it, "relationType");
      if from.JStr? && to.JStr? && relationType.JStr? then Some(Relation(from.s, to.s, relationType.s))
      else None
  }

  function DecodeEntities(items: seq<Json>): (r: seq<Option<Entity>>)
    ensures |r| == |items|
    ensures forall i :: 0 <= i < |items| ==> r[i] == DecodeEntity(items[i])
  {
    if items == [] then [] else [DecodeEntity(items[0])] + DecodeEntities(items[1..])
  }

  function DecodeRelations(items: seq<Json>): (r: seq<Option<Relation>>)
    ensures |r| == |items|
    ensures forall i :: 0 <= i < |items| ==> r[i] == DecodeRelation(items[i])
  {
    if items == [] then [] else [DecodeRelation(items[0])] + DecodeRelations(items[1..])
  }

  /** The list under an input key: `data.get(key) or []` must be a list. */
  function InputList(v: Json, key: string): Result<seq<Json>> {
    var l := Or(v, JArr([]));
    if l.JArr? then Ok(l.items) else Err("'" + key + "' must be an array.")
  }

  // ----- create-entities -----

  /** The entities that create-entities appends over the names `existing`:
      each valid item whose name is neither among them nor taken by an earlier
      item of the batch, in input order. */
  function NewEntities(existing: set<string>, ds: seq<Option<Entity>>): seq<Entity>
    decreases |ds|
  {
    if ds == [] then []
    else
      var d := ds[0];
      if d.Some? && d.value.name !in existing then [d.value] + NewEntities(existing + {d.value.name}, ds[1..])
      else NewEntities(existing, ds[1..])
  }

  /** `NewEntities` from position `i` on takes item `i` first. */
  lemma NewEntitiesStep(existing: set<string>, ds: seq<Option<Entity>>, i: nat)
    requires i < |ds|
    ensures NewEntities(existing, ds[i..]) ==
      if ds[i].Some? && ds[i].value.name !in existing then [ds[i].value] + NewEntities(existing + {ds[i].value.name}, ds[i + 1..])
      else NewEntities(existing, ds[i + 1..])
  {
    assert ds[i..][0] == ds[i] && ds[i..][1..] == ds[i + 1..];
  }

  /** The new entities take no existing name and no name twice. */
  lemma {:induction false} NewEntitiesFresh(existing: set<string>, ds: seq<Option<Entity>>)
    ensures forall e :: e in NewEntities(existing, ds) ==> e.name !in existing
    ensures DistinctNames(NewEntities(existing, ds))
    decreases |ds|
  {
    if ds != [] {
      var d := ds[0];
      if d.Some? && d.value.name !in existing {
        NewEntitiesFresh(existing + {d.value.name}, ds[1..]);
        var tail := NewEntities(existing + {d.value.name}, ds[1..]);
        var r := [d.value] + tail;
        forall i, j | 0 <= i < j < |r| ensures r[i].name != r[j].name {
          assert r[j] == tail[j - 1];
          if i > 0 { assert r[i] == tail[i - 1]; }
        }
      } else {
        NewEntitiesFresh(existing, ds[1..]);
      }
    }
  }

  /** Entity names stay unique through create-entities. */
  lemma CreateKeepsNamesDistinct(es: seq<Entity>, ds: seq<Option<Entity>>)
    requires DistinctNames(es)
    ensures DistinctNames(es + NewEntities(NameSet(es), ds))
  {
    var created := NewEntities(NameSet(es), ds);
    NewEntitiesFresh(NameSet(es), ds);
    var r := es + created;
    forall i, j | 0 <= i < j < |r| ensures r[i].name != r[j].name {
      if j >= |es| {
        assert r[j] == created[j - |es|];
        if i >= |es| { assert r[i] == created[i - |es|]; }
        else { assert r[i] in es; }
      }
    }
  }

  /** Every created entity is the reading of one of the ds. */
  lemma {:induction false} NewEntitiesDecoded(existing: set<string>, ds: seq<Option<Entity>>)
    ensures forall e :: e in NewEntities(existing, ds) ==>
      exists k :: 0 <= k < |ds| && ds[k] == Some(e)
    decreases |ds|
  {
    if ds != [] {
      var d := ds[0];
      var existing' := if d.Some? && d.value.name !in existing then existing + {d.value.name} else existing;
      NewEntitiesDecoded(existing', ds[1..]);
      forall e | e in NewEntities(existing, ds)
        ensures exists k :: 0 <= k < |ds| && ds[k] == Some(e)
      {
        if e in NewEntities(existing', ds[1..]) {
          var k :| 0 <= k < |ds[1..]| && ds[1..][k] == Some(e);
          assert ds[1..][k] == ds[k + 1];
        } else {
          assert ds[0] == Some(e);
        }
      }
    }
  }

  /** Every valid item with a name not there before leads to an entity of that name. */
  lemma {:induction false} NewEntitiesCover(existing: set<string>, ds: seq<Option<Entity>>, k: nat)
    requires k < |ds| && ds[k].Some?
    requires ds[k].value.name !in existing
    ensures ds[k].value.name in NameSet(NewEntities(existing, ds))
    decreases k
  {
    var n := ds[k].value.name;
    var d := ds[0];
    if d.Some? && d.value.name !in existing {
      var tail := NewEntities(existing + {d.value.name}, ds[1..]);
      assert NewEntities(existing, ds) == [d.value] + tail;
      if n != d.value.name {
        assert ds[1..][k - 1] == ds[k];
        NewEntitiesCover(existing + {d.value.name}, ds[1..], k - 1);
        var e :| e in tail && e.name == n;
        assert e in NewEntities(existing, ds);
      } else {
        assert d.value in NewEntities(existing, ds);
      }
    } else {
      assert k > 0;
      assert ds[1..][k - 1] == ds[k];
      NewEntitiesCover(existing, ds[1..], k - 1);
    }
  }

  // ----- create-relations -----

  /** The relations that create-relations appends over the relations
      `existing`: each valid item whose triple is neither among them nor given
      by an earlier item, in input order. The endpoints are not looked up
      among the entities. */
  function NewRelations(existing: set<Relation>, ds: seq<Option<Relation>>): seq<Relation>
    decreases |ds|
  {
    if ds == [] then []
    else
      var d := ds[0];
      if d.Some? && d.value !in existing then [d.value] + NewRelations(existing + {d.value}, ds[1..])
      else NewRelations(existing, ds[1..])
  }

  lemma NewRelationsStep(existing: set<Relation>, ds: seq<Option<Relation>>, i: nat)
    requires i < |ds|
    ensures NewRelations(existing, ds[i..]) ==
      if ds[i].Some? && ds[i].value !in existing then [ds[i].value] + NewRelations(existing + {ds[i].value}, ds[i + 1..])
      else NewRelations(existing, ds[i + 1..])
  {
    assert ds[i..][0] == ds[i] && ds[i..][1..] == ds[i + 1..];
  }

  /** The new relations repeat no existing relation and none of each other. */
  lemma {:induction false} NewRelationsFresh(existing: set<Relation>, ds: seq<Option<Relation>>)
    ensures forall r :: r in NewRelations(existing, ds) ==> r !in existing
    ensures DistinctRelations(NewRelations(existing, ds))
    decreases |ds|
  {
    if ds != [] {
      var d := ds[0];
      if d.Some? && d.value !in existing {
        NewRelationsFresh(existing + {d.value}, ds[1..]);
        var tail := NewRelations(existing + {d.value}, ds[1..]);
        var r := [d.value] + tail;
        forall i, j | 0 <= i < j < |r| ensures r[i] != r[j] {
          assert r[j] == tail[j - 1];
          if i > 0 { assert r[i] == tail[i - 1]; }
        }
      } else {
        NewRelationsFresh(existing, ds[1..]);
      }
    }
  }

  /** The relation list stays duplicate-free through create-relations. */
  lemma CreateKeepsRelationsDistinct(rs: seq<Relation>, ds: seq<Option<Relation>>)
    requires DistinctRelations(rs)
    ensures DistinctRelations(rs + NewRelations(RelationSet(rs), ds))
  {
    var created := NewRelations(RelationSet(rs), ds);
    NewRelationsFresh(RelationSet(rs), ds);
    var all := rs + created;
    forall i, j | 0 <= i < j < |all| ensures all[i] != all[j] {
      if j >= |rs| {
        assert all[j] == created[j - |rs|];
        if i >= |rs| { assert all[i] == created[i - |rs|]; }
        else { assert all[i] in RelationSet(rs); }
      }
    }
  }

  /** Every valid item's triple is there afterwards, old or new. */
  lemma {:induction false} NewRelationsCover(existing: set<Relation>, ds: seq<Option<Relation>>, k: nat)
    requires k < |ds| && ds[k].Some?
    ensures ds[k].value in existing
      || ds[k].value in NewRelations(existing, ds)
    decreases k
  {
    var d := ds[0];
    if k > 0 {
      assert ds[1..][k - 1] == ds[k];
      if d.Some? && d.value !in existing {
        NewRelationsCover(existing + {d.value}, ds[1..], k - 1);
      } else {
        NewRelationsCover(existing, ds[1..], k - 1);
      }
    }
  }

  /** Every created relation is the reading of one of the ds. */
  lemma {:induction false} NewRelationsDecoded(existing: set<Relation>, ds: seq<Option<Relation>>)
    ensures forall r :: r in NewRelations(existing, ds) ==>
      exists k :: 0 <= k < |ds| && ds[k] == Some(r)
    decreases |ds|
  {
    if ds != [] {
      var d := ds[0];
      var existing' := if d.Some? && d.value !in existing then existing + {d.value} else existing;
      NewRelationsDecoded(existing', ds[1..]);
      forall r | r in NewRelations(existing, ds)
        ensures exists k :: 0 <= k < |ds| && ds[k] == Some(r)
      {
        if r in NewRelations(existing', ds[1..]) {
          var k :| 0 <= k < |ds[1..]| && ds[1..][k] == Some(r);
          assert ds[1..][k] == ds[k + 1];
        } else {
          assert ds[0] == Some(r);
        }
      }
    }
  }

  // ----- add-observations -----

  /** An add-observations item: a dict with a string `entityName` and a list
      (or nothing) under `contents`. */
  function DecodeAddition(it: Json): Option<(string, seq<Json>)> {
    if !it.JObj? then None
    else
      var name := GetOrNull(it, "entityName");
      var contents := Or(GetOrNull(it, "contents"), JArr([]));
      if name.JStr? && contents.JArr? then Some((name.s, contents.items))
      else None
  }

  /** The strings of `contents` not among the entity's observations before the
      item, in order; a string given twice is kept twice. */
  function NewObservations(contents: seq<Json>, obs: seq<string>): (r: seq<string>)
    ensures forall c :: c in r <==> JStr(c) in contents && c !in obs
  {
    if contents == [] then []
    else
      var h := if contents[0].JStr? && contents[0].s !in obs then [contents[0].s] else [];
      h + NewObservations(contents[1..], obs)
  }

  lemma {:induction false} NewObservationsAppend(a: seq<Json>, b: seq<Json>, obs: seq<string>)
    ensures NewObservations(a + b, obs) == NewObservations(a, obs) + NewObservations(b, obs)
    decreases |a|
  {
    if a == [] {
      assert a + b == b;
    } else {
      assert (a + b)[0] == a[0];
      assert (a + b)[1..] == a[1..] + b;
      NewObservationsAppend(a[1..], b, obs);
    }
  }

  /** A new string given twice in one item is appended twice. */
  lemma NewObservationsTwice(c: string, obs: seq<string>)
    requires c !in obs
    ensures NewObservations([JStr(c), JStr(c)], obs) == [c, c]
  {
    assert NewObservations([JStr(c)], obs) == [c] + NewObservations([], obs);
    assert NewObservations([JStr(c), JStr(c)], obs) == [c] + NewObservations([JStr(c)], obs);
  }

  /** `{e.name: e for e in entities}[n]`: the last entity of that name. */
  function LastIndex(es: seq<Entity>, n: string): (r: Option<nat>)
    ensures r.None? <==> n !in NameSet(es)
    ensures r.Some? ==> (r.value < |es| && es[r.value].name == n
      && forall j :: r.value < j < |es| ==> es[j].name != n)
  {
    if es == [] then None
    else if es[|es| - 1].name == n then Some(|es| - 1)
    else
      var r := LastIndex(es[..|es| - 1], n);
      assert forall e :: e in es ==> e in es[..|es| - 1] || e == es[|es| - 1];
      r
  }

  function DecodeAdditions(items: seq<Json>): (r: seq<Option<(string, seq<Json>)>>)
    ensures |r| == |items|
    ensures forall i :: 0 <= i < |items| ==> r[i] == DecodeAddition(items[i])
  {
    if items == [] then [] else [DecodeAddition(items[0])] + DecodeAdditions(items[1..])
  }

  /** add-observations over the ds from the current one on, with the
      reports so far in `acc`; an item naming an unknown entity stops it with
      an error. */
  function AddObservationsFrom(es: seq<Entity>, ds: seq<Option<(string, seq<Json>)>>, acc: seq<Addition>): Result<(seq<Entity>, seq<Addition>)>
    decreases |ds|
  {
    if ds == [] then Ok((es, acc))
    else match ds[0]
      case None => AddObservationsFrom(es, ds[1..], acc)
      case Some((n, contents)) =>
        var k := LastIndex(es, n);
        if k.None? then Err("Entity with name '" + n + "' not found")
        else
          var e := es[k.value];
          var added := NewObservations(contents, e.observations);
          AddObservationsFrom(es[k.value := e.(observations := e.observations + added)], ds[1..], acc + [Addition(n, added)])
  }

  lemma AddObservationsStep(es: seq<Entity>, ds: seq<Option<(string, seq<Json>)>>, i: nat, acc: seq<Addition>)
    requires i < |ds|
    ensures AddObservationsFrom(es, ds[i..], acc) ==
      match ds[i]
      case None => AddObservationsFrom(es, ds[i + 1..], acc)
      case Some((n, contents)) =>
        var k := LastIndex(es, n);
        if k.None? then Err("Entity with name '" + n + "' not found")
        else
          var e := es[k.value];
          var added := NewObservations(contents, e.observations);
          AddObservationsFrom(es[k.value := e.(observations := e.observations + added)], ds[i + 1..], acc + [Addition(n, added)])
  {
    assert ds[i..][0] == ds[i] && ds[i..][1..] == ds[i + 1..];
  }

  /** Adding observations keeps every entity in place with its name and type,
      and keeps every observation it had, in front of the new ones; the
      reports so far stay in front. */
  lemma {:induction false} AddObservationsKeeps(es: seq<Entity>, ds: seq<Option<(string, seq<Json>)>>, acc: seq<Addition>)
    requires AddObservationsFrom(es, ds, acc).Ok?
    ensures var (es2, res) := AddObservationsFrom(es, ds, acc).value;
      && |es2| == |es| && |acc| <= |res| && res[..|acc|] == acc
      && forall k :: 0 <= k < |es| ==>
        es2[k].name == es[k].name && es2[k].entityType == es[k].entityType
        && |es[k].observations| <= |es2[k].observations|
        && es2[k].observations[..|es[k].observations|] == es[k].observations
    decreases |ds|
  {
    if ds != [] {
      match ds[0]
      case None => AddObservationsKeeps(es, ds[1..], acc);
      case Some((n, contents)) =>
        var k := LastIndex(es, n).value;
        var added := NewObservations(contents, es[k].observations);
        var es1 := es[k := es[k].(observations := es[k].observations + added)];
        var acc1 := acc + [Addition(n, added)];
        AddObservationsKeeps(es1, ds[1..], acc1);
        var (es2, res) := AddObservationsFrom(es, ds, acc).value;
        assert res[..|acc1|][..|acc|] == acc;
        assert res[..|acc|] == res[..|acc1|][..|acc|];
        forall j | 0 <= j < |es|
          ensures |es[j].observations| <= |es2[j].observations|
            && es2[j].observations[..|es[j].observations|] == es[j].observations
        {
          var o, o1, o2 := es[j].observations, es1[j].observations, es2[j].observations;
          assert o1[..|o|] == o;
          assert o2[..|o|] == o2[..|o1|][..|o|];
        }
    }
  }

  lemma NameSetUpdate(es: seq<Entity>, k: nat, e: Entity)
    requires k < |es| && e.name == es[k].name
    ensures NameSet(es[k := e]) == NameSet(es)
  {
    var es' := es[k := e];
    forall n | n in NameSet(es') ensures n in NameSet(es) {
      var x :| x in es' && x.name == n;
      var i :| 0 <= i < |es'| && es'[i] == x;
      assert es[i].name == n;
    }
    forall n | n in NameSet(es) ensures n in NameSet(es') {
      var x :| x in es && x.name == n;
      var i :| 0 <= i < |es| && es[i] == x;
      assert es'[i].name == n;
    }
  }

  /** An item naming an entity that is not in the graph makes the command fail. */
  lemma {:induction false} AddObservationsUnknown(es: seq<Entity>, ds: seq<Option<(string, seq<Json>)>>, acc: seq<Addition>, j: nat)
    requires j < |ds| && ds[j].Some?
    requires ds[j].value.0 !in NameSet(es)
    ensures AddObservationsFrom(es, ds, acc).Err?
    decreases j
  {
    match ds[0]
    case None =>
      assert ds[1..][j - 1] == ds[j];
      AddObservationsUnknown(es, ds[1..], acc, j - 1);
    case Some((n, contents)) =>
      if LastIndex(es, n).Some? {
        var k := LastIndex(es, n).value;
        var added := NewObservations(contents, es[k].observations);
        var es1 := es[k := es[k].(observations := es[k].observations + added)];
        NameSetUpdate(es, k, es[k].(observations := es[k].observations + added));
        assert ds[1..][j - 1] == ds[j];
        AddObservationsUnknown(es1, ds[1..], acc + [Addition(n, added)], j - 1);
      }
  }

  // ----- delete-entities -----

  /** The entities whose name is not among `names`, in their order. */
  function KeepEntities(es: seq<Entity>, names: set<string>): (r: seq<Entity>)
    ensures forall e :: e in r <==> e in es && e.name !in names
  {
    if es == [] then []
    else (if es[0].name !in names then [es[0]] else []) + KeepEntities(es[1..], names)
  }

  /** The relations touching none of `names` at either end, in their order. */
  function KeepRelationsAway(rs: seq<Relation>, names: set<string>): (r: seq<Relation>)
    ensures forall x :: x in r <==> x in rs && x.from !in names && x.to !in names
  {
    if rs == [] then []
    else (if rs[0].from !in names && rs[0].to !in names then [rs[0]] else []) + KeepRelationsAway(rs[1..], names)
  }

  /** Filtering works piece by piece, so what is kept keeps its order. */
  lemma {:induction false} KeepEntitiesAppend(a: seq<Entity>, b: seq<Entity>, names: set<string>)
    ensures KeepEntities(a + b, names) == KeepEntities(a, names) + KeepEntities(b, names)
    decreases |a|
  {
    if a == [] {
      assert a + b == b;
    } else {
      assert (a + b)[0] == a[0];
      assert (a + b)[1..] == a[1..] + b;
      KeepEntitiesAppend(a[1..], b, names);
    }
  }

  lemma {:induction false} KeepRelationsAwayAppend(a: seq<Relation>, b: seq<Relation>, names: set<string>)
    ensures KeepRelationsAway(a + b, names) == KeepRelationsAway(a, names) + KeepRelationsAway(b, names)
    decreases |a|
  {
    if a == [] {
      assert a + b == b;
    } else {
      assert (a + b)[0] == a[0];
      assert (a + b)[1..] == a[1..] + b;
      KeepRelationsAwayAppend(a[1..], b, names);
    }
  }

  /** Deleting entities keeps the remaining names distinct. */
  lemma {:induction false} KeepEntitiesDistinct(es: seq<Entity>, names: set<string>)
    requires DistinctNames(es)
    ensures DistinctNames(KeepEntities(es, names))
    decreases |es|
  {
    if es != [] {
      assert DistinctNames(es[1..]) by {
        forall i, j | 0 <= i < j < |es| - 1 ensures es[1..][i].name != es[1..][j].name {
          assert es[1..][i] == es[i + 1] && es[1..][j] == es[j + 1];
        }
      }
      KeepEntitiesDistinct(es[1..], names);
      var tail := KeepEntities(es[1..], names);
      var h: seq<Entity> := if es[0].name !in names then [es[0]] else [];
      var r := h + tail;
      forall i, j | 0 <= i < j < |r| ensures r[i].name != r[j].name {
        assert r[j] == tail[j - |h|];
        if i >= |h| {
          assert r[i] == tail[i - |h|];
        } else {
          assert r[j] in es[1..];
          var m :| 0 <= m < |es[1..]| && es[1..][m] == r[j];
          assert es[m + 1] == r[j];
        }
      }
    }
  }

  /** When every relation joined two entities, it still does after deleting
      entities and the relations touching them. */
  lemma DeleteEntitiesKeepsLinked(es: seq<Entity>, rs: seq<Relation>, names: set<string>)
    requires Linked(es, rs)
    ensures Linked(KeepEntities(es, names), KeepRelationsAway(rs, names))
  {
    var es2 := KeepEntities(es, names);
    forall r | r in KeepRelationsAway(rs, names) ensures r.from in NameSet(es2) && r.to in NameSet(es2) {
      var a :| a in es && a.name == r.from;
      var b :| b in es && b.name == r.to;
      assert a in es2 && b in es2;
    }
  }

  // ----- delete-observations -----

  /** A delete-observations item: a dict with a string `entityName` and a list
      (or nothing) under `observations`, whose strings are to go. */
  function DecodeDeletion(it: Json): Option<(string, set<string>)> {
    if !it.JObj? then None
    else
      var name := GetOrNull(it, "entityName");
      var obs := Or(GetOrNull(it, "observations"), JArr([]));
      if name.JStr? && obs.JArr? then Some((name.s, set c | c in Strs(obs.items)))
      else None
  }

  function DecodeDeletions(items: seq<Json>): (r: seq<Option<(string, set<string>)>>)
    ensures |r| == |items|
    ensures forall i :: 0 <= i < |items| ==> r[i] == DecodeDeletion(items[i])
  {
    if items == [] then [] else [DecodeDeletion(items[0])] + DecodeDeletions(items[1..])
  }

  /** The observations not in `remove`, in their order. */
  function Without(obs: seq<string>, remove: set<string>): (r: seq<string>)
    ensures forall o :: o in r <==> o in obs && o !in remove
  {
    if obs == [] then []
    else (if obs[0] !in remove then [obs[0]] else []) + Without(obs[1..], remove)
  }

  /** One delete-observations item; an unknown entity is skipped. */
  function DeleteObservationsStep(es: seq<Entity>, d: Option<(string, set<string>)>): (r: seq<Entity>)
    ensures |r| == |es|
  {
    match d
    case None => es
    case Some((n, remove)) =>
      match LastIndex(es, n)
      case None => es
      case Some(k) => es[k := es[k].(observations := Without(es[k].observations, remove))]
  }

  function DeleteObservationsAll(es: seq<Entity>, ds: seq<Option<(string, set<string>)>>): (r: seq<Entity>)
    ensures |r| == |es|
    decreases |ds|
  {
    if ds == [] then es else DeleteObservationsAll(DeleteObservationsStep(es, ds[0]), ds[1..])
  }

  lemma DeleteObservationsStepAt(es: seq<Entity>, ds: seq<Option<(string, set<string>)>>, i: nat)
    requires i < |ds|
    ensures DeleteObservationsAll(es, ds[i..]) == DeleteObservationsAll(DeleteObservationsStep(es, ds[i]), ds[i + 1..])
  {
    assert ds[i..][0] == ds[i] && ds[i..][1..] == ds[i + 1..];
  }

  /** The entity an item names. */
  predicate Names(d: Option<(string, set<string>)>, n: string) {
    d.Some? && d.value.0 == n
  }

  /** delete-observations keeps every entity in place with its name and type,
      only ever drops observations, and leaves an entity no item names as it was. */
  lemma {:induction false} DeleteObservationsKeeps(es: seq<Entity>, ds: seq<Option<(string, set<string>)>>)
    ensures var es2 := DeleteObservationsAll(es, ds);
      forall k :: 0 <= k < |es| ==>
        && es2[k].name == es[k].name && es2[k].entityType == es[k].entityType
        && (forall o :: o in es2[k].observations ==> o in es[k].observations)
        && ((forall j :: 0 <= j < |ds| ==> !Names(ds[j], es[k].name)) ==> es2[k] == es[k])
    decreases |ds|
  {
    if ds != [] {
      var es1 := DeleteObservationsStep(es, ds[0]);
      DeleteObservationsKeeps(es1, ds[1..]);
      var es2 := DeleteObservationsAll(es, ds);
      forall k | 0 <= k < |es|
        ensures es2[k].name == es[k].name && es2[k].entityType == es[k].entityType
        ensures forall o :: o in es2[k].observations ==> o in es[k].observations
        ensures (forall j :: 0 <= j < |ds| ==> !Names(ds[j], es[k].name)) ==> es2[k] == es[k]
      {
        assert es1[k].name == es[k].name && es1[k].entityType == es[k].entityType;
        assert forall o :: o in es1[k].observations ==> o in es[k].observations;
        if forall j :: 0 <= j < |ds| ==> !Names(ds[j], es[k].name) {
          assert !Names(ds[0], es[k].name);
          assert es1[k] == es[k];
          forall j | 0 <= j < |ds[1..]| ensures !Names(ds[1..][j], es1[k].name) {
            assert ds[1..][j] == ds[j + 1];
          }
        }
      }
    }
  }

  /** With distinct names, an observation listed for an entity is gone from it afterwards. */
  lemma {:induction false} DeleteObservationsRemoves(es: seq<Entity>, ds: seq<Option<(string, set<string>)>>, j: nat, k: nat, o: string)
    requires DistinctNames(es) && k < |es| && j < |ds|
    requires ds[j].Some? && ds[j].value.0 == es[k].name
    requires o in ds[j].value.1
    ensures o !in DeleteObservationsAll(es, ds)[k].observations
    decreases j
  {
    var es1 := DeleteObservationsStep(es, ds[0]);
    assert DistinctNames(es1) by {
      assert forall i :: 0 <= i < |es| ==> es1[i].name == es[i].name;
    }
    if j == 0 {
      var (n, remove) := ds[0].value;
      var m := LastIndex(es, n).value;
      assert m == k;
      assert o !in es1[k].observations;
      DeleteObservationsKeeps(es1, ds[1..]);
    } else {
      assert es1[k].name == es[k].name;
      assert ds[1..][j - 1] == ds[j];
      DeleteObservationsRemoves(es1, ds[1..], j - 1, k, o);
    }
  }

  // ----- delete-relations -----

  /** The triples named by valid delete-relations items. */
  function DeleteKeys(ds: seq<Option<Relation>>): (r: set<Relation>)
    ensures forall x :: x in r <==> exists k :: 0 <= k < |ds| && ds[k] == Some(x)
  {
    set k | 0 <= k < |ds| && ds[k].Some? :: ds[k].value
  }

  /** The relations not in `keys`, in their order. */
  function KeepRelations(rs: seq<Relation>, keys: set<Relation>): (r: seq<Relation>)
    ensures forall x :: x in r <==> x in rs && x !in keys
  {
    if rs == [] then []
    else (if rs[0] !in keys then [rs[0]] else []) + KeepRelations(rs[1..], keys)
  }

  lemma {:induction false} KeepRelationsAppend(a: seq<Relation>, b: seq<Relation>, keys: set<Relation>)
    ensures KeepRelations(a + b, keys) == KeepRelations(a, keys) + KeepRelations(b, keys)
    decreases |a|
  {
    if a == [] {
      assert a + b == b;
    } else {
      assert (a + b)[0] == a[0];
      assert (a + b)[1..] == a[1..] + b;
      KeepRelationsAppend(a[1..], b, keys);
    }
  }

  // ----- search-nodes, open-nodes and the printed graph -----

  /** `q in e.name.lower() or q in e.entityType.lower() or any(q in o.lower() …)`, for a lowered `q`. */
  predicate Matches(e: Entity, q: string) {
    Contains(Lower(e.name), q) || Contains(Lower(e.entityType), q)
    || exists o :: o in e.observations && Contains(Lower(o), q)
  }

  function FilterMatching(es: seq<Entity>, q: string): (r: seq<Entity>)
    ensures forall e :: e in r <==> e in es && Matches(e, q)
  {
    if es == [] then []
    else (if Matches(es[0], q) then [es[0]] else []) + FilterMatching(es[1..], q)
  }

  function FilterNamed(es: seq<Entity>, names: set<string>): (r: seq<Entity>)
    ensures forall e :: e in r <==> e in es && e.name in names
  {
    if es == [] then []
    else (if es[0].name in names then [es[0]] else []) + FilterNamed(es[1..], names)
  }

  /** The relations with both ends among `names`, in their order. */
  function RelationsAmong(rs: seq<Relation>, names: set<string>): (r: seq<Relation>)
    ensures forall x :: x in r <==> x in rs && x.from in names && x.to in names
  {
    if rs == [] then []
    else (if rs[0].from in names && rs[0].to in names then [rs[0]] else []) + RelationsAmong(rs[1..], names)
  }

  /** search-nodes: the entities matching the lowered query, and exactly the
      relations between them. */
  function SearchNodes(es: seq<Entity>, rs: seq<Relation>, query: string): (g: Graph)
    ensures forall e :: e in g.entities <==> e in es && Matches(e, Lower(query))
    ensures Linked(g.entities, g.relations)
    ensures forall r :: r in g.relations <==>
      r in rs && r.from in NameSet(g.entities) && r.to in NameSet(g.entities)
  {
    var filtered := FilterMatching(es, Lower(query));
    Graph(filtered, RelationsAmong(rs, NameSet(filtered)))
  }

  /** open-nodes: the entities with one of the given names, and exactly the
      relations between them. */
  function OpenNodes(es: seq<Entity>, rs: seq<Relation>, names: seq<string>): (g: Graph)
    ensures forall e :: e in g.entities <==> e in es && e.name in names
    ensures Linked(g.entities, g.relations)
    ensures forall r :: r in g.relations <==>
      r in rs && r.from in NameSet(g.entities) && r.to in NameSet(g.entities)
  {
    var filtered := FilterNamed(es, set n | n in names);
    Graph(filtered, RelationsAmong(rs, NameSet(filtered)))
  }

  /** The empty query matches every entity. */
  lemma {:induction false} SearchEmptyQuery(es: seq<Entity>, rs: seq<Relation>)
    ensures SearchNodes(es, rs, "").entities == es
  {
    assert Lower("") == [];
    FilterAllMatch(es);
  }

  lemma {:induction false} FilterAllMatch(es: seq<Entity>)
    ensures FilterMatching(es, []) == es
    decreases |es|
  {
    if es != [] {
      assert OccursAt(Lower(es[0].name), [], 0);
      ContainsAt(Lower(es[0].name), [], 0);
      FilterAllMatch(es[1..]);
    }
  }

  /** Opening every name of a graph gives back all of it when it was linked. */
  lemma OpenAllNodes(es: seq<Entity>, rs: seq<Relation>)
    requires Linked(es, rs)
    ensures OpenNodes(es, rs, EntityNames(es)) == Graph(es, rs)
  {
    assert (set n | n in EntityNames(es)) == NameSet(es);
    FilterNamedAll(es, NameSet(es));
    RelationsAmongAll(rs, NameSet(es));
  }

  function EntityNames(es: seq<Entity>): (r: seq<string>)
    ensures |r| == |es|
    ensures forall i :: 0 <= i < |es| ==> r[i] == es[i].name
  {
    if es == [] then [] else [es[0].name] + EntityNames(es[1..])
  }

  lemma {:induction false} FilterNamedAll(es: seq<Entity>, names: set<string>)
    requires forall e :: e in es ==> e.name in names
    ensures FilterNamed(es, names) == es
    decreases |es|
  {
    if es != [] {
      FilterNamedAll(es[1..], names);
    }
  }

  lemma {:induction false} RelationsAmongAll(rs: seq<Relation>, names: set<string>)
    requires forall r :: r in rs ==> r.from in names && r.to in names
    ensures RelationsAmong(rs, names) == rs
    decreases |rs|
  {
    if rs != [] {
      RelationsAmongAll(rs[1..], names);
    }
  }

  function EntityJson(e: Entity): Json {
    JObj([("name", JStr(e.name)), ("entityType", JStr(e.entityType)), ("observations", JArr(StrValues(e.observations)))])
  }

  function RelationJson(r: Relation): Json {
    JObj([("from", JStr(r.from)), ("to", JStr(r.to)), ("relationType", JStr(r.relationType))])
  }

  function EntityJsons(es: seq<Entity>): (r: seq<Json>)
    ensures |r| == |es|
    ensures forall i :: 0 <= i < |es| ==> r[i] == EntityJson(es[i])
  {
    if es == [] then [] else [EntityJson(es[0])] + EntityJsons(es[1..])
  }

  function RelationJsons(rs: seq<Relation>): (r: seq<Json>)
    ensures |r| == |rs|
    ensures forall i :: 0 <= i < |rs| ==> r[i] == RelationJson(rs[i])
  {
    if rs == [] then [] else [RelationJson(rs[0])] + RelationJsons(rs[1..])
  }

  /** `_graph_to_json`: `{"entities": [...], "relations": [...]}`. */
  function GraphToJson(g: Graph): Json {
    JObj([("entities", JArr(EntityJsons(g.entities))), ("relations", JArr(RelationJsons(g.relations)))])
  }

  /** Each printed entity reads back, as an input item, as the same entity. */
  lemma EntityJsonRoundTrip(e: Entity)
    ensures DecodeEntity(EntityJson(e)) == Some(e)
  {
    EntityJsonFields(e);
    StrsOfStrs(e.observations);
  }

  lemma EntityJsonFields(e: Entity)
    ensures var j := EntityJson(e);
      && GetOrNull(j, "name") == JStr(e.name)
      && GetOrNull(j, "entityType") == JStr(e.entityType)
      && Or(GetOrNull(j, "observations"), JArr([])) == JArr(StrValues(e.observations))
  {
    assert |"name"| == 4 && |"entityType"| == 10 && |"observations"| == 12;
    Lookup3("name", JStr(e.name), "entityType", JStr(e.entityType), "observations", JArr(StrValues(e.observations)));
  }

  /** Each printed relation reads back as the same relation. */
  lemma RelationJsonRoundTrip(r: Relation)
    ensures DecodeRelation(RelationJson(r)) == Some(r)
  {
    var j := RelationJson(r);
    assert |"from"| == 4 && |"to"| == 2 && |"relationType"| == 12;
    Lookup3("from", JStr(r.from), "to", JStr(r.to), "relationType", JStr(r.relationType));
  }

  /** The printed graph lists every entity and then every relation, in order,
      each reading back as itself. */
  lemma GraphToJsonRoundTrip(g: Graph)
    ensures var j := GraphToJson(g);
      && GetOrNull(j, "entities") == JArr(EntityJsons(g.entities))
      && GetOrNull(j, "relations") == JArr(RelationJsons(g.relations))
    ensures forall i :: 0 <= i < |g.entities| ==> DecodeEntity(EntityJsons(g.entities)[i]) == Some(g.entities[i])
    ensures forall i :: 0 <= i < |g.relations| ==> DecodeRelation(RelationJsons(g.relations)[i]) == Some(g.relations[i])
  {
    assert |"entities"| == 8 && |"relations"| == 9;
    Lookup2("entities", JArr(EntityJsons(g.entities)), "relations", JArr(RelationJsons(g.relations)));
    forall i | 0 <= i < |g.entities| ensures DecodeEntity(EntityJsons(g.entities)[i]) == Some(g.entities[i]) {
      EntityJsonRoundTrip(g.entities[i]);
    }
    forall i | 0 <= i < |g.relations| ensures DecodeRelation(RelationJsons(g.relations)[i]) == Some(g.relations[i]) {
      RelationJsonRoundTrip(g.relations[i]);
    }
  }

  // ----- the store -----

  /** The graph as loaded from the memory file; a command that succeeds saves
      the new state back, one that fails saves nothing. */
  class KnowledgeGraph {
    var entities: seq<Entity>
    var relations: seq<Relation>

    constructor (entities: seq<Entity>, relations: seq<Relation>)
      ensures this.entities == entities && this.relations == relations
    {
      this.entities := entities;
      this.relations := relations;
    }

    /** Names unique and relations duplicate-free, as the create commands keep them. */
    predicate Valid()
      reads this
    {
      DistinctNames(entities) && DistinctRelations(relations)
    }

    /** create-entities: appends the new entities and reports exactly them. */
    method CreateEntities(incoming: Json) returns (r: Result<seq<Entity>>)
      modifies this
      ensures r.Err? <==> InputList(incoming, "entities").Err?
      ensures r.Err? ==> entities == old(entities)
      ensures r.Ok? ==> (r.value == NewEntities(NameSet(old(entities)), DecodeEntities(InputList(incoming, "entities").value))
        && entities == old(entities) + r.value)
      ensures relations == old(relations)
      ensures old(Valid()) ==> Valid()
    {
      var list := InputList(incoming, "entities");
      if list.Err? {
        return Err(list.msg);
      }
      var created := AppendNewEntities(DecodeEntities(list.value));
      r := Ok(created);
    }

    /** The loop of create-entities, over the readings of the items. */
    method AppendNewEntities(ds: seq<Option<Entity>>) returns (created: seq<Entity>)
      modifies this
      ensures created == NewEntities(NameSet(old(entities)), ds)
      ensures entities == old(entities) + created
      ensures relations == old(relations)
      ensures old(Valid()) ==> Valid()
    {
      var existing := NameSet(entities);
      created := [];
      var i := 0;
      while i < |ds|
        invariant 0 <= i <= |ds|
        invariant entities == old(entities) + created
        invariant relations == old(relations)
        invariant existing == NameSet(entities)
        invariant created + NewEntities(existing, ds[i..]) == NewEntities(NameSet(old(entities)), ds)
      {
        NewEntitiesStep(existing, ds, i);
        var d := ds[i];
        if d.Some? && d.value.name !in existing {
          NameSetSnoc(entities, d.value);
          entities := entities + [d.value];
          created := created + [d.value];
          existing := existing + {d.value.name};
        }
        i := i + 1;
      }
      if old(Valid()) {
        CreateKeepsNamesDistinct(old(entities), ds);
      }
    }

    /** create-relations: appends the new relations and reports exactly them. */
    method CreateRelations(incoming: Json) returns (r: Result<seq<Relation>>)
      modifies this
      ensures r.Err? <==> InputList(incoming, "relations").Err?
      ensures r.Err? ==> relations == old(relations)
      ensures r.Ok? ==> (r.value == NewRelations(RelationSet(old(relations)), DecodeRelations(InputList(incoming, "relations").value))
        && relations == old(relations) + r.value)
      ensures entities == old(entities)
      ensures old(Valid()) ==> Valid()
    {
      var list := InputList(incoming, "relations");
      if list.Err? {
        return Err(list.msg);
      }
      var created := AppendNewRelations(DecodeRelations(list.value));
      r := Ok(created);
    }

    /** The loop of create-relations, over the readings of the items. */
    method AppendNewRelations(ds: seq<Option<Relation>>) returns (created: seq<Relation>)
      modifies this
      ensures created == NewRelations(RelationSet(old(relations)), ds)
      ensures relations == old(relations) + created
      ensures entities == old(entities)
      ensures old(Valid()) ==> Valid()
    {
      var existing := RelationSet(relations);
      created := [];
      var i := 0;
      while i < |ds|
        invariant 0 <= i <= |ds|
        invariant relations == old(relations) + created
        invariant entities == old(entities)
        invariant existing == RelationSet(relations)
        invariant created + NewRelations(existing, ds[i..]) == NewRelations(RelationSet(old(relations)), ds)
      {
        NewRelationsStep(existing, ds, i);
        var d := ds[i];
        if d.Some? && d.value !in existing {
          RelationSetSnoc(relations, d.value);
          relations := relations + [d.value];
          created := created + [d.value];
          existing := existing + {d.value};
        }
        i := i + 1;
      }
      if old(Valid()) {
        CreateKeepsRelationsDistinct(old(relations), ds);
      }
    }

    /** add-observations: on success the entities are those of
        `AddObservationsFrom`; on an unknown entity nothing changes. */
    method AddObservations(incoming: Json) returns (r: Result<seq<Addition>>)
      modifies this
      ensures InputList(incoming, "observations").Err? ==>
        r == Err(InputList(incoming, "observations").msg) && entities == old(entities)
      ensures InputList(incoming, "observations").Ok? ==>
        var out := AddObservationsFrom(old(entities), DecodeAdditions(InputList(incoming, "observations").value), []);
        && (out.Err? ==> r == Err(out.msg) && entities == old(entities))
        && (out.Ok? ==> r == Ok(out.value.1) && entities == out.value.0)
      ensures relations == old(relations)
      ensures old(Valid()) ==> Valid()
    {
      var list := InputList(incoming, "observations");
      if list.Err? {
        return Err(list.msg);
      }
      r := ApplyAdditions(DecodeAdditions(list.value));
    }

    /** The loop of add-observations, over the readings of the items. The
        entities are changed on a copy that is kept only when every item names
        a known entity. */
    method ApplyAdditions(ds: seq<Option<(string, seq<Json>)>>) returns (r: Result<seq<Addition>>)
      modifies this
      ensures var out := AddObservationsFrom(old(entities), ds, []);
        && (out.Err? ==> r == Err(out.msg) && entities == old(entities))
        && (out.Ok? ==> r == Ok(out.value.1) && entities == out.value.0)
      ensures relations == old(relations)
      ensures old(Valid()) ==> Valid()
    {
      var ents := entities;
      var results: seq<Addition> := [];
      var i := 0;
      while i < |ds|
        invariant 0 <= i <= |ds|
        invariant entities == old(entities) && relations == old(relations)
        invariant |ents| == |entities|
        invariant forall k :: 0 <= k < |ents| ==> ents[k].name == entities[k].name
        invariant AddObservationsFrom(ents, ds[i..], results) == AddObservationsFrom(entities, ds, [])
      {
        AddObservationsStep(ents, ds, i, results);
        var d := ds[i];
        if d.Some? {
          var (n, contents) := d.value;
          var k := LastIndex(ents, n);
          if k.None? {
            return Err("Entity with name '" + n + "' not found");
          }
          var e := ents[k.value];
          var added := NewObservations(contents, e.observations);
          ents := ents[k.value := e.(observations := e.observations + added)];
          results := results + [Addition(n, added)];
        }
        i := i + 1;
      }
      assert ds[i..] == [];
      entities := ents;
      r := Ok(results);
    }

    /** delete-entities: drops the named entities and every relation touching them. */
    method DeleteEntities(entityNames: Json) returns (r: Result<()>)
      modifies this
      ensures var l := Or(entityNames, JArr([]));
        r.Ok? <==> l.JArr? && AllStrs(l.items)
      ensures r.Err? ==> entities == old(entities) && relations == old(relations)
      ensures r.Ok? ==>
        var names := set n | n in Strs(Or(entityNames, JArr([])).items);
        entities == KeepEntities(old(entities), names) && relations == KeepRelationsAway(old(relations), names)
      ensures old(Valid()) ==> Valid()
    {
      var l := Or(entityNames, JArr([]));
      if !l.JArr? || !AllStrs(l.items) {
        return Err("'entityNames' must be an array of strings.");
      }
      var names := set n | n in Strs(l.items);
      if Valid() {
        KeepEntitiesDistinct(entities, names);
        KeepRelationsAwayDistinct(relations, names);
      }
      entities := KeepEntities(entities, names);
      relations := KeepRelationsAway(relations, names);
      r := Ok(());
    }

    /** delete-observations: applies every item in turn to the entities. */
    method DeleteObservations(deletions: Json) returns (r: Result<()>)
      modifies this
      ensures r.Err? <==> InputList(deletions, "deletions").Err?
      ensures r.Err? ==> entities == old(entities)
      ensures r.Ok? ==> entities == DeleteObservationsAll(old(entities), DecodeDeletions(InputList(deletions, "deletions").value))
      ensures relations == old(relations)
      ensures old(Valid()) ==> Valid()
    {
      var list := InputList(deletions, "deletions");
      if list.Err? {
        return Err(list.msg);
      }
      ApplyDeletions(DecodeDeletions(list.value));
      r := Ok(());
    }

    /** The loop of delete-observations, over the readings of the items. */
    method ApplyDeletions(ds: seq<Option<(string, set<string>)>>)
      modifies this
      ensures entities == DeleteObservationsAll(old(entities), ds)
      ensures relations == old(relations)
      ensures old(Valid()) ==> Valid()
    {
      var i := 0;
      while i < |ds|
        invariant 0 <= i <= |ds|
        invariant relations == old(relations)
        invariant |entities| == |old(entities)|
        invariant forall k :: 0 <= k < |entities| ==> entities[k].name == old(entities)[k].name
        invariant DeleteObservationsAll(entities, ds[i..]) == DeleteObservationsAll(old(entities), ds)
      {
        DeleteObservationsStepAt(entities, ds, i);
        var d := ds[i];
        if d.Some? {
          var (n, remove) := d.value;
          var k := LastIndex(entities, n);
          if k.Some? {
            var e := entities[k.value];
            entities := entities[k.value := e.(observations := Without(e.observations, remove))];
          }
        }
        i := i + 1;
      }
      assert ds[i..] == [];
    }

    /** delete-relations: drops exactly the relations whose triple an item gives. */
    method DeleteRelations(incoming: Json) returns (r: Result<()>)
      modifies this
      ensures r.Err? <==> InputList(incoming, "relations").Err?
      ensures r.Err? ==> relations == old(relations)
      ensures r.Ok? ==> relations == KeepRelations(old(relations), DeleteKeys(DecodeRelations(InputList(incoming, "relations").value)))
      ensures entities == old(entities)
      ensures old(Valid()) ==> Valid()
    {
      var list := InputList(incoming, "relations");
      if list.Err? {
        return Err(list.msg);
      }
      var toDelete := CollectKeys(DecodeRelations(list.value));
      if Valid() {
        KeepRelationsDistinct(relations, toDelete);
      }
      relations := KeepRelations(relations, toDelete);
      r := Ok(());
    }
  }

  /** The loop of delete-relations that gathers the triples to drop. */
  method CollectKeys(ds: seq<Option<Relation>>) returns (toDelete: set<Relation>)
    ensures toDelete == DeleteKeys(ds)
  {
    toDelete := {};
    var i := 0;
    while i < |ds|
      invariant 0 <= i <= |ds|
      invariant toDelete == DeleteKeys(ds[..i])
    {
      assert ds[..i + 1] == ds[..i] + [ds[i]];
      if ds[i].Some? {
        toDelete := toDelete + {ds[i].value};
      }
      i := i + 1;
    }
    assert ds[..i] == ds;
  }

  lemma {:induction false} KeepRelationsAwayDistinct(rs: seq<Relation>, names: set<string>)
    requires DistinctRelations(rs)
    ensures DistinctRelations(KeepRelationsAway(rs, names))
    decreases |rs|
  {
    if rs != [] {
      assert DistinctRelations(rs[1..]) by {
        forall i, j | 0 <= i < j < |rs| - 1 ensures rs[1..][i] != rs[1..][j] {
          assert rs[1..][i] == rs[i + 1] && rs[1..][j] == rs[j + 1];
        }
      }
      KeepRelationsAwayDistinct(rs[1..], names);
      var tail := KeepRelationsAway(rs[1..], names);
      var h: seq<Relation> := if rs[0].from !in names && rs[0].to !in names then [rs[0]] else [];
      var r := h + tail;
      forall i, j | 0 <= i < j < |r| ensures r[i] != r[j] {
        assert r[j] == tail[j - |h|];
        if i >= |h| {
          assert r[i] == tail[i - |h|];
        } else {
          assert r[j] in rs[1..];
          var m :| 0 <= m < |rs[1..]| && rs[1..][m] == r[j];
          assert rs[m + 1] == r[j];
        }
      }
    }
  }

  lemma {:induction false} KeepRelationsDistinct(rs: seq<Relation>, keys: set<Relation>)
    requires DistinctRelations(rs)
    ensures DistinctRelations(KeepRelations(rs, keys))
    decreases |rs|
  {
    if rs != [] {
      assert DistinctRelations(rs[1..]) by {
        forall i, j | 0 <= i < j < |rs| - 1 ensures rs[1..][i] != rs[1..][j] {
          assert rs[1..][i] == rs[i + 1] && rs[1..][j] == rs[j + 1];
        }
      }
      KeepRelationsDistinct(rs[1..], keys);
      var tail := KeepRelations(rs[1..], keys);
      var h: seq<Relation> := if rs[0] !in keys then [rs[0]] else [];
      var r := h + tail;
      forall i, j | 0 <= i < j < |r| ensures r[i] != r[j] {
        assert r[j] == tail[j - |h|];
        if i >= |h| {
          assert r[i] == tail[i - |h|];
        } else {
          assert r[j] in rs[1..];
          var m :| 0 <= m < |rs[1..]| && rs[1..][m] == r[j];
          assert rs[m + 1] == r[j];
        }
      }
    }
  }
}
