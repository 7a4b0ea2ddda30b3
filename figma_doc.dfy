/** The document exporter's pure parts: collecting frames from a Figma node tree,
    turning names into safe file names, splitting node ids into render batches, and
    the display and file names of the `build` command. */
module FigmaDoc {
  import opened Wrappers
  import opened Text
  import opened Json

  // ---------------------------------------------------------------- frame tree

  /** `FrameInfo`: the fields are whatever the node holds, so they stay JSON values. */
  datatype FrameInfo = FrameInfo(nodeId: Json, name: Json, width: Json, height: Json, parentName: Json)

  /** Python raises AttributeError or TypeError on a node that is not a dict, on
      `children` that cannot be walked as a list of dicts, and on a bounding box that is
      not a dict; the model keeps one message for all of them. */
  const BadNode := "AttributeError"

  /** `d.get(k, default)` on the pairs of a dict. */
  function GetDefault(fields: seq<(string, Json)>, k: string, d: Json): (r: Json)
    ensures r == d || exists i :: 0 <= i < |fields| && fields[i].1 == r
  {
    if fields == [] then d
    else if fields[0].0 == k then fields[0].1
    else
      var r := GetDefault(fields[1..], k, d);
      assert r != d ==> exists i :: 0 <= i < |fields| && fields[i].1 == r by {
        if r != d {
          var i :| 0 <= i < |fields[1..]| && fields[1..][i].1 == r;
          assert fields[i + 1].1 == r;
        }
      }
      r
  }

  predicate IsFrameType(t: Json) {
    t == JStr("FRAME") || t == JStr("COMPONENT") || t == JStr("COMPONENT_SET")
  }

  function TypeOf(fields: seq<(string, Json)>): Json {
    GetDefault(fields, "type", JStr(""))
  }

  function NameOf(fields: seq<(string, Json)>): Json {
    GetDefault(fields, "name", JStr("Untitled"))
  }

  /** `node.get("absoluteBoundingBox", {})`, when that is a dict. */
  function BoxOf(fields: seq<(string, Json)>): Option<seq<(string, Json)>> {
    var b := GetDefault(fields, "absoluteBoundingBox", JObj([]));
    if b.JObj? then Some(b.fields) else None
  }

  /** The values `for child in node.get("children", [])` walks over: a list's items, and
      nothing for an empty string or dict. Any other value either cannot be iterated or
      yields strings, on which `.get` fails. */
  function ChildrenOf(fields: seq<(string, Json)>): (r: Option<seq<Json>>)
    ensures r.Some? && r.value != [] ==> exists i :: 0 <= i < |fields| && fields[i].1 == JArr(r.value)
  {
    match GetDefault(fields, "children", JArr([]))
    case JArr(items) => Some(items)
    case JStr(s) => if s == [] then Some([]) else None
    case JObj(f) => if f == [] then Some([]) else None
    case _ => None
  }

  /** The parent name handed to the children: a canvas passes its own name down, every
      other node the name it was given. */
  function ChildParent(fields: seq<(string, Json)>, parent: Json): Json {
    if TypeOf(fields) == JStr("CANVAS") then NameOf(fields) else parent
  }

  /** A node that `_collect_frames` records at this depth. */
  predicate Recorded(fields: seq<(string, Json)>, depth: nat) {
    IsFrameType(TypeOf(fields)) && depth > 0
  }

  /** The nodes `_collect_frames(node, parent, depth, max_depth)` records, with the parent
      name each is recorded under, in the order it records them. */
  function Collected(node: Json, parent: Json, depth: nat, maxDepth: int): Result<seq<(Json, Json)>>
    decreases node, 1
  {
    if !node.JObj? then Err(BadNode)
    else
      var fields := node.fields;
      var here := if Recorded(fields, depth) then [(node, parent)] else [];
      if Recorded(fields, depth) && BoxOf(fields).None? then Err(BadNode)
      else if Recorded(fields, depth) && depth >= maxDepth then Ok(here)
      else
        match ChildrenOf(fields)
        case None => Err(BadNode)
        case Some(children) =>
          if children == [] then Ok(here)
          else
            assert exists i :: 0 <= i < |fields| && fields[i].1 == JArr(children);
            match CollectedList(children, ChildParent(fields, parent), depth + 1, maxDepth)
            case Err(e) => Err(e)
            case Ok(below) => Ok(here + below)
  }

  /** The children's records, one child after another; the list is read from its end so
      that a loop over a growing prefix can follow it. */
  function CollectedList(children: seq<Json>, parent: Json, depth: nat, maxDepth: int): Result<seq<(Json, Json)>>
    decreases children, 0
  {
    if children == [] then Ok([])
    else
      var last := children[|children| - 1];
      match CollectedList(children[..|children| - 1], parent, depth, maxDepth)
      case Err(e) => Err(e)
      case Ok(front) =>
        match Collected(last, parent, depth, maxDepth)
        case Err(e) => Err(e)
        case Ok(back) => Ok(front + back)
  }

  /** The `FrameInfo` of a recorded node, with the defaults `_collect_frames` uses. */
  function FrameOf(node: Json, parent: Json): FrameInfo {
    var fields := if node.JObj? then node.fields else [];
    var box := BoxOf(fields).GetOr([]);
    FrameInfo(GetDefault(fields, "id", JStr("")), NameOf(fields),
      GetDefault(box, "width", JInt(0)), GetDefault(box, "height", JInt(0)), parent)
  }

  function FrameInfos(records: seq<(Json, Json)>): (r: seq<FrameInfo>)
    ensures |r| == |records|
  {
    if records == [] then [] else [FrameOf(records[0].0, records[0].1)] + FrameInfos(records[1..])
  }

  lemma {:induction false} FrameInfosAppend(a: seq<(Json, Json)>, b: seq<(Json, Json)>)
    ensures FrameInfos(a + b) == FrameInfos(a) + FrameInfos(b)
    decreases |a|
  {
    if a == [] {
      assert a + b == b;
    } else {
      assert (a + b)[1..] == a[1..] + b;
      FrameInfosAppend(a[1..], b);
    }
  }

  /** What `_collect_frames` returns: the frames of the recorded nodes. */
  function Frames(node: Json, parent: Json, depth: nat, maxDepth: int): Result<seq<FrameInfo>> {
    match Collected(node, parent, depth, maxDepth)
    case Err(e) => Err(e)
    case Ok(records) => Ok(FrameInfos(records))
  }

  /** What the loop over the children adds to `frames`. */
  function ListFrames(children: seq<Json>, parent: Json, depth: nat, maxDepth: int): Result<seq<FrameInfo>> {
    match CollectedList(children, parent, depth, maxDepth)
    case Err(e) => Err(e)
    case Ok(records) => Ok(FrameInfos(records))
  }

  /** `_collect_frames`. */
  method CollectFrames(node: Json, parent: Json, depth: nat, maxDepth: int) returns (r: Result<seq<FrameInfo>>)
    ensures r == Frames(node, parent, depth, maxDepth)
    decreases node, 1
  {
    if !node.JObj? {
      return Err(BadNode);
    }
    var fields := node.fields;
    var frames: seq<FrameInfo> := [];
    if Recorded(fields, depth) {
      if BoxOf(fields).None? {
        return Err(BadNode);
      }
      frames := [FrameOf(node, parent)];
      assert frames == FrameInfos([(node, parent)]);
      if depth >= maxDepth {
        return Ok(frames);
      }
    }
    var children := ChildrenOf(fields);
    if children.None? {
      return Err(BadNode);
    }
    var cs := children.value;
    if cs == [] {
      return Ok(frames);
    }
    assert exists i :: 0 <= i < |fields| && fields[i].1 == JArr(cs);
    var below := CollectChildren(cs, ChildParent(fields, parent), depth + 1, maxDepth);
    if below.Err? {
      return Err(below.msg);
    }
    ghost var here := if Recorded(fields, depth) then [(node, parent)] else [];
    FrameInfosAppend(here, CollectedList(cs, ChildParent(fields, parent), depth + 1, maxDepth).value);
    return Ok(frames + below.value);
  }

  /** The loop `for child in children: frames.extend(_collect_frames(child, …))`. */
  method CollectChildren(cs: seq<Json>, parent: Json, depth: nat, maxDepth: int) returns (r: Result<seq<FrameInfo>>)
    ensures r == ListFrames(cs, parent, depth, maxDepth)
    decreases cs, 0
  {
    var frames: seq<FrameInfo> := [];
    for i := 0 to |cs|
      invariant ListFrames(cs[..i], parent, depth, maxDepth) == Ok(frames)
    {
      var sub := CollectFrames(cs[i], parent, depth, maxDepth);
      assert cs[..i + 1][..i] == cs[..i] && cs[..i + 1][i] == cs[i];
      if sub.Err? {
        CollectedListErr(cs, i + 1, parent, depth, maxDepth, sub.msg);
        return Err(sub.msg);
      }
      FrameInfosAppend(CollectedList(cs[..i], parent, depth, maxDepth).value,
        Collected(cs[i], parent, depth, maxDepth).value);
      frames := frames + sub.value;
    }
    assert cs[..|cs|] == cs;
    return Ok(frames);
  }

  /** A child that fails makes the whole walk fail. */
  lemma CollectedListErr(cs: seq<Json>, i: nat, parent: Json, depth: nat, maxDepth: int, e: string)
    requires 0 < i <= |cs| && CollectedList(cs[..i - 1], parent, depth, maxDepth).Ok?
    requires Collected(cs[i - 1], parent, depth, maxDepth) == Err(e)
    ensures CollectedList(cs, parent, depth, maxDepth) == Err(e)
  {
    assert cs[..i][..i - 1] == cs[..i - 1] && cs[..i][i - 1] == cs[i - 1];
    ErrExtends(cs, i, parent, depth, maxDepth, e);
  }

  lemma {:induction false} ErrExtends(cs: seq<Json>, i: nat, parent: Json, depth: nat, maxDepth: int, e: string)
    requires i <= |cs| && CollectedList(cs[..i], parent, depth, maxDepth) == Err(e)
    ensures CollectedList(cs, parent, depth, maxDepth) == Err(e)
    decreases |cs| - i
  {
    if i < |cs| {
      assert cs[..i + 1][..i] == cs[..i];
      ErrExtends(cs, i + 1, parent, depth, maxDepth, e);
    } else {
      assert cs[..i] == cs;
    }
  }

  /** Only frames, components and component sets are recorded. */
  lemma {:induction false} CollectedAreFrames(node: Json, parent: Json, depth: nat, maxDepth: int)
    requires Collected(node, parent, depth, maxDepth).Ok?
    ensures forall k :: 0 <= k < |Collected(node, parent, depth, maxDepth).value| ==>
      var n := Collected(node, parent, depth, maxDepth).value[k].0; n.JObj? && IsFrameType(TypeOf(n.fields))
    decreases node, 1
  {
    var fields := node.fields;
    if !(Recorded(fields, depth) && depth >= maxDepth) {
      var children := ChildrenOf(fields).value;
      if children != [] {
        assert exists i :: 0 <= i < |fields| && fields[i].1 == JArr(children);
        CollectedListAreFrames(children, ChildParent(fields, parent), depth + 1, maxDepth);
      }
    }
  }

  lemma {:induction false} CollectedListAreFrames(children: seq<Json>, parent: Json, depth: nat, maxDepth: int)
    requires CollectedList(children, parent, depth, maxDepth).Ok?
    ensures forall k :: 0 <= k < |CollectedList(children, parent, depth, maxDepth).value| ==>
      var n := CollectedList(children, parent, depth, maxDepth).value[k].0; n.JObj? && IsFrameType(TypeOf(n.fields))
    decreases children, 0
  {
    if children != [] {
      CollectedListAreFrames(children[..|children| - 1], parent, depth, maxDepth);
      CollectedAreFrames(children[|children| - 1], parent, depth, maxDepth);
    }
  }

  /** The root (depth 0) is never recorded: what comes back is the children's frames. */
  lemma RootNotRecorded(node: Json, parent: Json, maxDepth: int)
    requires node.JObj? && ChildrenOf(node.fields).Some?
    ensures Collected(node, parent, 0, maxDepth)
      == CollectedList(ChildrenOf(node.fields).value, ChildParent(node.fields, parent), 1, maxDepth)
  {
    var below := CollectedList(ChildrenOf(node.fields).value, ChildParent(node.fields, parent), 1, maxDepth);
    if below.Ok? { assert [] + below.value == below.value; }
  }

  /** A frame recorded at or below `max_depth` contributes nothing beneath it. */
  lemma DeepFrameIsLeaf(node: Json, parent: Json, depth: nat, maxDepth: int)
    requires node.JObj? && Recorded(node.fields, depth) && BoxOf(node.fields).Some? && depth >= maxDepth
    ensures Collected(node, parent, depth, maxDepth) == Ok([(node, parent)])
  {
  }

  /** A frame above `max_depth` comes first, then everything found beneath it. */
  lemma ShallowFrameThenChildren(node: Json, parent: Json, depth: nat, maxDepth: int)
    requires node.JObj? && Recorded(node.fields, depth) && BoxOf(node.fields).Some? && depth < maxDepth
    requires ChildrenOf(node.fields).Some?
    requires CollectedList(ChildrenOf(node.fields).value, ChildParent(node.fields, parent), depth + 1, maxDepth).Ok?
    ensures Collected(node, parent, depth, maxDepth) == Ok([(node, parent)]
      + CollectedList(ChildrenOf(node.fields).value, ChildParent(node.fields, parent), depth + 1, maxDepth).value)
  {
    if ChildrenOf(node.fields).value == [] { assert [(node, parent)] + [] == [(node, parent)]; }
  }

  /** Any other node is walked through at every depth, recording nothing itself, and a
      canvas hands its own name to its children. */
  lemma OtherNodesDescend(node: Json, parent: Json, depth: nat, maxDepth: int)
    requires node.JObj? && !IsFrameType(TypeOf(node.fields)) && ChildrenOf(node.fields).Some?
    ensures Collected(node, parent, depth, maxDepth)
      == CollectedList(ChildrenOf(node.fields).value, ChildParent(node.fields, parent), depth + 1, maxDepth)
  {
    var below := CollectedList(ChildrenOf(node.fields).value, ChildParent(node.fields, parent), depth + 1, maxDepth);
    if below.Ok? { assert [] + below.value == below.value; }
  }

  /** A frame with no id, name or bounding box gets the defaults. */
  lemma FrameDefaults(fields: seq<(string, Json)>, parent: Json)
    requires "id" !in Keys(fields) && "name" !in Keys(fields) && "absoluteBoundingBox" !in Keys(fields)
    ensures FrameOf(JObj(fields), parent) == FrameInfo(JStr(""), JStr("Untitled"), JInt(0), JInt(0), parent)
  {
    GetDefaultLookup(fields, "id", JStr(""));
    GetDefaultLookup(fields, "name", JStr("Untitled"));
    GetDefaultLookup(fields, "absoluteBoundingBox", JObj([]));
  }

  /** A frame's id, name and size are read from its own keys and its bounding box. */
  lemma FrameFields(fields: seq<(string, Json)>, parent: Json, id: Json, name: Json, box: seq<(string, Json)>, w: Json, h: Json)
    requires Lookup(fields, "id") == Some(id) && Lookup(fields, "name") == Some(name)
    requires Lookup(fields, "absoluteBoundingBox") == Some(JObj(box))
    requires Lookup(box, "width") == Some(w) && Lookup(box, "height") == Some(h)
    ensures FrameOf(JObj(fields), parent) == FrameInfo(id, name, w, h, parent)
  {
    GetDefaultLookup(fields, "id", JStr(""));
    GetDefaultLookup(fields, "name", JStr("Untitled"));
    GetDefaultLookup(fields, "absoluteBoundingBox", JObj([]));
    GetDefaultLookup(box, "width", JInt(0));
    GetDefaultLookup(box, "height", JInt(0));
  }

  /** `d.get(k, default)` is the value `Lookup` finds, or the default. */
  lemma {:induction false} GetDefaultLookup(fields: seq<(string, Json)>, k: string, d: Json)
    ensures GetDefault(fields, k, d) == Lookup(fields, k).GetOr(d)
  {
    if fields != [] && fields[0].0 != k { GetDefaultLookup(fields[1..], k, d); }
  }

  // ---------------------------------------------------------------- file names

  /** The characters of the class `[<>:"/\\|?*\s]`. */
  predicate IsUnsafe(c: char) {
    c == '<' || c == '>' || c == ':' || c == '"' || c == '/' || c == '\\' || c == '|' || c == '?' || c == '*'
    || IsSpace(c)
  }

  predicate IsUnderscore(c: char) { c == '_' }

  /** The text after a leading run of characters in the class. */
  function DropRun(s: string, p: char -> bool): (r: string)
    ensures |r| <= |s| && (r == [] || !p(r[0]))
    ensures forall c :: c in r ==> c in s
  {
    if s != [] && p(s[0]) then DropRun(s[1..], p) else s
  }

  /** `re.sub(r'[…]+', '_', s)`: every maximal run of characters in the class becomes
      one `_`. */
  function Squash(s: string, p: char -> bool): (r: string)
    ensures forall c :: c in r ==> c == '_' || (c in s && !p(c))
    ensures r == [] <==> s == []
    ensures r != [] ==> (r[0] == '_' <==> p(s[0]) || s[0] == '_')
    decreases |s|
  {
    if s == [] then []
    else if p(s[0]) then "_" + Squash(DropRun(s, p), p)
    else [s[0]] + Squash(s[1..], p)
  }

  predicate NoDoubleUnderscore(s: string) {
    forall i :: 0 <= i < |s| - 1 ==> !(s[i] == '_' && s[i + 1] == '_')
  }

  /** `_sanitize_filename`. */
  function Sanitize(name: string): string {
    StripChar(Squash(Squash(name, IsUnsafe), IsUnderscore), '_')
  }

  /** After squashing the underscores no two are adjacent. */
  lemma {:induction false} SquashedSingles(s: string)
    ensures NoDoubleUnderscore(Squash(s, IsUnderscore))
    decreases |s|
  {
    if s != [] {
      if IsUnderscore(s[0]) {
        var t := DropRun(s, IsUnderscore);
        SquashedSingles(t);
        assert Squash(s, IsUnderscore) == "_" + Squash(t, IsUnderscore);
      } else {
        SquashedSingles(s[1..]);
      }
    }
  }

  /** A text without characters of the class is left as it is. */
  lemma {:induction false} SquashNone(s: string, p: char -> bool)
    requires forall i :: 0 <= i < |s| ==> !p(s[i])
    ensures Squash(s, p) == s
    decreases |s|
  {
    if s != [] {
      SquashNone(s[1..], p);
    }
  }

  /** Lone underscores are each their own run. */
  lemma {:induction false} SquashSingles(s: string)
    requires NoDoubleUnderscore(s)
    ensures Squash(s, IsUnderscore) == s
    decreases |s|
  {
    if s != [] {
      NoDoubleTail(s);
      SquashSingles(s[1..]);
      if s[0] == '_' {
        LoneUnderscoreRun(s);
        assert s == "_" + s[1..];
      } else {
        assert s == [s[0]] + s[1..];
      }
    }
  }

  lemma NoDoubleTail(s: string)
    requires s != [] && NoDoubleUnderscore(s)
    ensures NoDoubleUnderscore(s[1..])
  {
    forall i | 0 <= i < |s[1..]| - 1 ensures !(s[1..][i] == '_' && s[1..][i + 1] == '_') {
      assert s[1..][i] == s[i + 1] && s[1..][i + 1] == s[i + 2];
    }
  }

  /** A lone `_` is a run of one. */
  lemma LoneUnderscoreRun(s: string)
    requires s != [] && s[0] == '_' && NoDoubleUnderscore(s)
    ensures DropRun(s, IsUnderscore) == s[1..]
  {
    assert |s| > 1 ==> s[1] != '_';
  }

  /** The clean shape `_sanitize_filename` produces. */
  predicate Clean(s: string) {
    (forall i :: 0 <= i < |s| ==> !IsUnsafe(s[i]))
    && NoDoubleUnderscore(s)
    && (s == [] || (s[0] != '_' && s[|s| - 1] != '_'))
  }

  /** The output has no unsafe character, no `__`, and no `_` at either end. */
  lemma SanitizeClean(name: string)
    ensures Clean(Sanitize(name))
  {
    var b := Squash(Squash(name, IsUnsafe), IsUnderscore);
    SquashedSingles(Squash(name, IsUnsafe));
    SquashedSafe(name);
    StrippedClean(b);
  }

  /** Stripping `_` from both ends of a safe text without `__` makes it clean. */
  lemma StrippedClean(b: string)
    requires forall c :: c in b ==> !IsUnsafe(c)
    requires NoDoubleUnderscore(b)
    ensures Clean(StripChar(b, '_'))
  {
    var l := LStripChar(b, '_');
    LStripCharSpec(b, '_');
    RStripCharSpec(l, '_');
    InnerClean(b, l, RStripChar(l, '_'));
  }

  /** Squashing both classes leaves no unsafe character. */
  lemma SquashedSafe(name: string)
    ensures forall c :: c in Squash(Squash(name, IsUnsafe), IsUnderscore) ==> !IsUnsafe(c)
  {
  }

  /** A piece cut from the middle of a text, with no `_` at either end, keeps the
      text's safe characters and lone underscores. */
  lemma InnerClean(b: string, l: string, r: string)
    requires forall c :: c in b ==> !IsUnsafe(c)
    requires NoDoubleUnderscore(b)
    requires |l| <= |b| && l == b[|b| - |l|..]
    requires |r| <= |l| && r == l[..|r|]
    requires l == [] || l[0] != '_'
    requires r == [] || r[|r| - 1] != '_'
    ensures Clean(r)
  {
    assert r != [] ==> r[0] == l[0];
    var o := |b| - |l|;
    forall i | 0 <= i < |r| ensures r[i] == b[o + i] && !IsUnsafe(r[i]) {
      assert r[i] == l[i] == b[o + i];
      assert b[o + i] in b;
    }
  }

  /** `_sanitize_filename` is idempotent. */
  lemma SanitizeIdempotent(name: string)
    ensures Sanitize(Sanitize(name)) == Sanitize(name)
  {
    var s := Sanitize(name);
    SanitizeClean(name);
    SquashNone(s, IsUnsafe);
    SquashSingles(s);
    assert LStripChar(s, '_') == s;
    assert RStripChar(s, '_') == s;
  }

  // ---------------------------------------------------------------- render batches

  /** `range()` with a step of zero raises; the count is divided by it first. */
  const ZeroBatch := "ZeroDivisionError"

  /** The slices `node_ids[i : i + size]` for `i` in `range(0, len(node_ids), size)`. */
  function Chunks(ids: seq<string>, size: nat): (r: seq<seq<string>>)
    requires size > 0
    ensures forall k :: 0 <= k < |r| ==> 0 < |r[k]| <= size
    decreases |ids|
  {
    if ids == [] then []
    else if |ids| <= size then [ids]
    else [ids[..size]] + Chunks(ids[size..], size)
  }

  /** The batches of `cmd_export`, or the error of a zero batch size; a negative size
      gives an empty range and so no batch. */
  function BatchesOf(ids: seq<string>, size: int): Result<seq<seq<string>>> {
    if size == 0 then Err(ZeroBatch)
    else if size < 0 then Ok([])
    else Ok(Chunks(ids, size))
  }

  function Concat(bs: seq<seq<string>>): seq<string> {
    if bs == [] then [] else bs[0] + Concat(bs[1..])
  }

  /** The batches, put back together, are the ids. */
  lemma {:induction false} ChunksConcat(ids: seq<string>, size: nat)
    requires size > 0
    ensures Concat(Chunks(ids, size)) == ids
    decreases |ids|
  {
    if |ids| > size {
      ChunksConcat(ids[size..], size);
      assert ids[..size] + ids[size..] == ids;
    }
  }

  /** There are `(n + size - 1) // size` batches: the `total_batches` that is reported. */
  lemma {:induction false} ChunksCount(ids: seq<string>, size: nat)
    requires size > 0
    ensures |Chunks(ids, size)| == (|ids| + size - 1) / size
    decreases |ids|
  {
    var y := |ids| + size - 1;
    if |ids| > size {
      ChunksCount(ids[size..], size);
      var y' := |ids| - size + size - 1;
      var q := y' / size;
      assert y' == q * size + y' % size;
      assert y == (q + 1) * size + y' % size;
      DivUnique(y, size, q + 1, y' % size);
    } else if ids != [] {
      DivUnique(y, size, 1, |ids| - 1);
    } else {
      DivUnique(y, size, 0, size - 1);
    }
  }

  /** Euclidean division is determined by quotient and remainder. */
  lemma DivUnique(y: int, b: int, k: int, r: int)
    requires b > 0 && 0 <= r < b && y == k * b + r
    ensures y / b == k
  {
    var q, m := y / b, y % b;
    assert y == q * b + m && 0 <= m < b;
    assert (q - k) * b == r - m;
    MulBounds(q - k, b);
  }

  lemma MulBounds(c: int, b: int)
    requires b > 0
    ensures c >= 1 ==> c * b >= b
    ensures c <= -1 ==> c * b <= -b
  {
    if c >= 1 {
      MulAtLeast(c, b);
    } else if c <= -1 {
      MulAtLeast(-c, b);
      assert c * b == -((-c) * b);
    }
  }

  lemma {:induction false} MulAtLeast(c: nat, b: int)
    requires b > 0 && c >= 1
    ensures c * b >= b
    decreases c
  {
    if c > 1 {
      MulAtLeast(c - 1, b);
      assert c * b == (c - 1) * b + b;
    }
  }

  /** The loop of `cmd_export` over `range(0, len(node_ids), batch_size)`. */
  method RenderBatches(ids: seq<string>, size: int) returns (r: Result<seq<seq<string>>>)
    ensures r == BatchesOf(ids, size)
  {
    if size == 0 {
      return Err(ZeroBatch);
    }
    if size < 0 {
      return Ok([]);
    }
    var batches: seq<seq<string>> := [];
    var i := 0;
    while i < |ids|
      invariant 0 <= i <= |ids|
      invariant batches + Chunks(ids[i..], size) == Chunks(ids, size)
      decreases |ids| - i
    {
      var end := if i + size < |ids| then i + size else |ids|;
      var batch := ids[i..end];
      if end < |ids| {
        assert ids[i..][..size] == batch && ids[i..][size..] == ids[end..];
      } else {
        assert ids[i..] == batch && ids[end..] == [];
      }
      batches := batches + [batch];
      i := end;
    }
    assert Chunks(ids[i..], size) == [];
    assert batches + [] == batches;
    return Ok(batches);
  }

  // ---------------------------------------------------------------- build names

  /** Where pathlib splits a name: the last dot, when it is neither first nor last. */
  function SuffixAt(name: string): (i: int)
    ensures i == -1 || (0 < i < |name| - 1 && name[i] == '.')
  {
    var i := RFind(name, '.');
    if 0 < i < |name| - 1 then i else -1
  }

  /** `Path(name).stem`. */
  function Stem(name: string): string {
    var i := SuffixAt(name);
    if i >= 0 then name[..i] else name
  }

  /** `Path(name).suffix`. */
  function Suffix(name: string): string {
    var i := SuffixAt(name);
    if i >= 0 then name[i..] else ""
  }

  lemma StemSuffix(name: string)
    ensures Stem(name) + Suffix(name) == name
  {
  }

  /** The characters of `[_\-.\s]`. */
  predicate IsNumberSeparator(c: char) {
    c == '_' || c == '-' || c == '.' || IsSpace(c)
  }

  /** `re.sub(r"^\d+[_\-.\s]*", "", stem)`. */
  function DropNumber(stem: string): (r: string)
    ensures |r| <= |stem|
  {
    var n := LeadDigits(stem);
    if n == 0 then stem else DropRun(stem[n..], IsNumberSeparator)
  }

  /** The display name of an image: the stem without its number prefix (or the whole
      stem when nothing else is left), underscores read as spaces, stripped. */
  function DisplayName(stem: string): (r: string) {
    var d := DropNumber(stem);
    var d2 := if d == [] then stem else d;
    Strip(ReplaceAll(d2, "_", " "))
  }

  /** A display name has no underscore and no blank at either end. */
  lemma DisplayNameShape(stem: string)
    ensures !HasChar(DisplayName(stem), '_')
    ensures DisplayName(stem) == [] || (!IsSpace(DisplayName(stem)[0]) && !IsSpace(DisplayName(stem)[|DisplayName(stem)| - 1]))
  {
    var d := DropNumber(stem);
    var d2 := if d == [] then stem else d;
    var t := ReplaceAll(d2, "_", " ");
    ReplacedAway(d2);
    StripKeepsOut(t, '_');
    StripEnds(t);
  }

  /** Replacing `_` by a space leaves no `_`. */
  lemma {:induction false} ReplacedAway(s: string)
    ensures !HasChar(ReplaceAll(s, "_", " "), '_')
    decreases |s|
  {
    if |s| >= 1 {
      ReplacedAway(s[1..]);
      var rest := ReplaceAll(s[1..], "_", " ");
      if s[..1] == "_" {
        NoCharAppend(" ", rest);
      } else {
        assert s[0] != '_';
        NoCharAppend([s[0]], rest);
      }
    }
  }

  /** A stem that does not start with a digit keeps all of it before the underscores are
      replaced. */
  lemma DisplayNameUnnumbered(stem: string)
    requires stem == [] || !IsDigit(stem[0])
    ensures DisplayName(stem) == Strip(ReplaceAll(stem, "_", " "))
  {
  }

  function Zeros(n: nat): (r: string)
    ensures |r| == n && forall i :: 0 <= i < n ==> r[i] == '0'
  {
    if n == 0 then [] else "0" + Zeros(n - 1)
  }

  /** The `{n:03d}` format of a non-negative number. */
  function Pad3(n: nat): (r: string)
    ensures |r| >= 3 && forall i :: 0 <= i < |r| ==> IsDigit(r[i])
  {
    var d := NatToStr(n);
    (if |d| < 3 then Zeros(3 - |d|) else []) + d
  }

  /** Leading zeros do not change a number's value. */
  lemma {:induction false} ZerosValue(n: nat, d: string)
    requires forall i :: 0 <= i < |d| ==> IsDigit(d[i])
    ensures forall i :: 0 <= i < |Zeros(n) + d| ==> IsDigit((Zeros(n) + d)[i])
    ensures DigitsValue(Zeros(n) + d) == DigitsValue(d)
    decreases |d|
  {
    if d == [] {
      ZerosOnly(n);
      assert Zeros(n) + d == Zeros(n);
    } else {
      var init := d[..|d| - 1];
      ZerosValue(n, init);
      assert (Zeros(n) + d)[..|Zeros(n) + d| - 1] == Zeros(n) + init;
    }
  }

  lemma {:induction false} ZerosOnly(n: nat)
    ensures DigitsValue(Zeros(n)) == 0
  {
    if n > 0 {
      ZerosOnly(n - 1);
      assert Zeros(n)[..n - 1] == Zeros(n - 1);
    }
  }

  /** The padded number reads back as the number. */
  lemma Pad3Value(n: nat)
    ensures DigitsValue(Pad3(n)) == n
  {
    var d := NatToStr(n);
    DigitsOfNatToStr(n);
    if |d| < 3 {
      ZerosValue(3 - |d|, d);
    } else {
      assert Pad3(n) == d;
    }
  }

  /** The copy's file name for the image at `index` (counting from 0). */
  function OutFileName(index: nat, fileName: string): string {
    Numbered(index + 1, SafeName(fileName))
  }

  /** The sanitized display name followed by the lower-cased extension. */
  function SafeName(fileName: string): string {
    Sanitize(DisplayName(Stem(fileName))) + Lower(Suffix(fileName))
  }

  /** `f"{n:03d}_{rest}"`. */
  function Numbered(n: nat, rest: string): string {
    Pad3(n) + ("_" + rest)
  }

  /** Different positions give different file names: the number before the first `_`
      tells them apart. */
  lemma OutFileNamesDiffer(i: nat, a: string, j: nat, b: string)
    requires i != j
    ensures OutFileName(i, a) != OutFileName(j, b)
  {
    var s, t := SafeName(a), SafeName(b);
    NumberedDiffer(i + 1, s, j + 1, t);
    assert OutFileName(i, a) == Numbered(i + 1, s);
  }

  lemma NumberedDiffer(m: nat, s: string, n: nat, t: string)
    requires m != n
    ensures Numbered(m, s) != Numbered(n, t)
  {
    Pad3Value(m);
    Pad3Value(n);
    if Numbered(m, s) == Numbered(n, t) {
      NumberBeforeUnderscore(Pad3(m), s, Pad3(n), t);
    }
  }

  /** Two digit strings each followed by `_` start equal texts only when they are equal. */
  lemma NumberBeforeUnderscore(p: string, s: string, q: string, t: string)
    requires forall k :: 0 <= k < |p| ==> IsDigit(p[k])
    requires forall k :: 0 <= k < |q| ==> IsDigit(q[k])
    requires p + ("_" + s) == q + ("_" + t)
    ensures p == q
  {
    FirstUnderscore(p, s);
    FirstUnderscore(q, t);
    var x := p + ("_" + s);
    assert p == x[..|p|] && q == x[..|q|];
  }

  /** In digits followed by `_`, the first `_` is right after the digits. */
  lemma FirstUnderscore(p: string, s: string)
    requires forall k :: 0 <= k < |p| ==> IsDigit(p[k])
    ensures Find(p + ("_" + s), '_') == |p|
  {
    var x := p + ("_" + s);
    var f := Find(x, '_');
    assert x[|p|] == '_';
    assert forall k :: 0 <= k < |p| ==> x[k] == p[k] && x[k] != '_';
  }

  /** The `(display_name, out_filename)` pairs of `cmd_build`, for the sorted image
      names. */
  method BuildNames(fileNames: seq<string>) returns (processed: seq<(string, string)>)
    ensures |processed| == |fileNames|
    ensures forall k :: 0 <= k < |fileNames| ==>
      processed[k] == (DisplayName(Stem(fileNames[k])), OutFileName(k, fileNames[k]))
  {
    processed := [];
    ghost var want := seq(|fileNames|, k requires 0 <= k < |fileNames| =>
      (DisplayName(Stem(fileNames[k])), OutFileName(k, fileNames[k])));
    for idx := 0 to |fileNames|
      invariant processed == want[..idx]
    {
      var name := fileNames[idx];
      var displayName := DisplayName(Stem(name));
      var outFileName := Numbered(idx + 1, SafeName(name));
      TakeOneMore(want, idx);
      processed := processed + [(displayName, outFileName)];
    }
    assert want[..|want|] == want;
  }
}
