/** The Focalboard helpers of the Mattermost script: reading a board card's URL,
    the content order of a card, the order its content blocks are shown in, and
    the values of its properties. */
module Mattermost {
  import opened Wrappers
  import opened Text
  import opened Json
  import Url

  /** A Focalboard block or property template: a JSON dict. */
  type Block = seq<(string, Json)>

  // ---------------------------------------------------------------- card URLs

  datatype CardRef = CardRef(boardId: string, cardId: string, viewId: Option<string>, teamId: Option<string>)

  /** `[s for s in parts if s]`. */
  function NonEmpty(parts: seq<string>): (r: seq<string>)
    ensures forall i :: 0 <= i < |r| ==> r[i] != []
    ensures forall x :: x in r <==> x in parts && x != []
  {
    if parts == [] then [] else (if parts[0] == [] then [] else [parts[0]]) + NonEmpty(parts[1..])
  }

  lemma {:induction false} NonEmptyKeeps(parts: seq<string>)
    requires forall i :: 0 <= i < |parts| ==> parts[i] != []
    ensures NonEmpty(parts) == parts
  {
    if parts != [] { NonEmptyKeeps(parts[1..]); }
  }

  const Keywords: set<string> := {"team", "board", "shared", "workspace"}

  /** A segment that starts the card part of the path, in any letter case. */
  predicate IsKeyword(s: string) { Lower(s) in Keywords }

  /** The index of the first keyword segment, or -1. */
  function FirstKeyword(segs: seq<string>): (k: int)
    ensures -1 <= k < |segs|
    ensures k >= 0 ==> IsKeyword(segs[k])
    ensures forall i :: 0 <= i < |segs| && (k < 0 || i < k) ==> !IsKeyword(segs[i])
  {
    if segs == [] then -1
    else if IsKeyword(segs[0]) then 0
    else
      var k := FirstKeyword(segs[1..]);
      assert forall i :: 1 <= i < |segs| ==> segs[i] == segs[1..][i - 1];
      if k < 0 then -1 else k + 1
  }

  /** The segments from the first keyword on; all of them when none is a keyword. */
  function FromKeyword(raw: seq<string>): (r: seq<string>)
    ensures forall x :: x in r ==> x in raw
  {
    var k := FirstKeyword(raw);
    if k == -1 then raw else raw[k..]
  }

  /** `seg[i] if len(seg) > i else None`. */
  function Cell(seg: seq<string>, i: nat): Option<string> {
    if i < |seg| then Some(seg[i]) else None
  }

  /** A cell that Python reads as true: present and not empty. */
  predicate Present(c: Option<string>) { c.Some? && c.value != [] }

  /** The board, the view and the card are three consecutive segments after the first. */
  predicate Located(seg: seq<string>, c: CardRef) {
    c.boardId != [] && c.cardId != [] && c.viewId.Some?
    && exists k :: 1 <= k && k + 2 < |seg| && seg[k] == c.boardId && seg[k + 1] == c.viewId.value && seg[k + 2] == c.cardId
  }

  /** `parse_team`: `team/T/B/V/C` or `team/T/shared/B/V/C`. */
  function ParseTeam(seg: seq<string>): (r: Option<CardRef>)
    ensures r.Some? ==> Located(seg, r.value) && r.value.teamId == Some(seg[1]) && seg[1] != []
  {
    var teamId, third := Cell(seg, 1), Cell(seg, 2);
    if !Present(teamId) || !Present(third) then None
    else if Lower(third.value) == "shared" then
      var boardId, viewId, cardId := Cell(seg, 3), Cell(seg, 4), Cell(seg, 5);
      if !Present(boardId) || !Present(cardId) then None
      else
        var c := CardRef(boardId.value, cardId.value, viewId, teamId);
        assert seg[3] == c.boardId && seg[4] == c.viewId.value;
        Some(c)
    else
      var viewId, cardId := Cell(seg, 3), Cell(seg, 4);
      if !Present(cardId) then None
      else
        var c := CardRef(third.value, cardId.value, viewId, teamId);
        assert seg[2] == c.boardId && seg[3] == c.viewId.value;
        Some(c)
  }

  /** `parse_board` and `parse_shared`, which are the same: `board/B/V/C`. */
  function ParseBoard(seg: seq<string>): (r: Option<CardRef>)
    ensures r.Some? ==> Located(seg, r.value) && r.value.teamId == None
  {
    var boardId, viewId, cardId := Cell(seg, 1), Cell(seg, 2), Cell(seg, 3);
    if !Present(boardId) || !Present(cardId) then None
    else
      var c := CardRef(boardId.value, cardId.value, viewId, None);
      assert seg[1] == c.boardId && seg[2] == c.viewId.value;
      Some(c)
  }

  /** `parse_workspace`: `workspace/W/B/V/C` or `workspace/W/shared/B/V/C`; the
      workspace id is not kept. */
  function ParseWorkspace(seg: seq<string>): (r: Option<CardRef>)
    ensures r.Some? ==> Located(seg, r.value) && r.value.teamId == None
  {
    var next := Cell(seg, 2);
    if !Present(next) then None
    else if Lower(next.value) == "shared" then
      var boardId, viewId, cardId := Cell(seg, 3), Cell(seg, 4), Cell(seg, 5);
      if !Present(boardId) || !Present(cardId) then None
      else
        var c := CardRef(boardId.value, cardId.value, viewId, None);
        assert seg[3] == c.boardId && seg[4] == c.viewId.value;
        Some(c)
    else
      var viewId, cardId := Cell(seg, 3), Cell(seg, 4);
      if !Present(cardId) then None
      else
        var c := CardRef(next.value, cardId.value, viewId, None);
        assert seg[2] == c.boardId && seg[3] == c.viewId.value;
        Some(c)
  }

  /** The shape of the segments from the first keyword on, chosen by the first one. */
  function ParseSegments(seg: seq<string>): (r: Option<CardRef>)
    ensures r.Some? ==> seg != [] && IsKeyword(seg[0]) && Located(seg, r.value)
    ensures r.Some? ==> (r.value.teamId.Some? <==> Lower(seg[0]) == "team")
    ensures |seg| < 4 ==> r == None
  {
    if seg == [] then None
    else
      var head := Lower(seg[0]);
      if head == "team" then ParseTeam(seg)
      else if head == "board" || head == "shared" then ParseBoard(seg)
      else if head == "workspace" then ParseWorkspace(seg)
      else None
  }

  /** `_parse_board_card_url`: the non-empty segments of the URL's path, from the
      first keyword on; nothing when `urlparse` fails, as the exception is caught. */
  function ParseBoardCardUrl(url: string): (r: Option<CardRef>)
    ensures Url.UrlParse(url).Err? ==> r.None?
    ensures r.Some? ==> r.value.viewId.Some? && !HasChar(r.value.boardId, '/')
                        && !HasChar(r.value.cardId, '/') && !HasChar(r.value.viewId.value, '/')
  {
    match Url.UrlParse(url)
    case Err(_) => None
    case Ok(parts) => CardOfPath(parts.path)
  }

  function CardOfPath(path: string): (r: Option<CardRef>)
    ensures r.Some? ==> r.value.viewId.Some? && !HasChar(r.value.boardId, '/')
                        && !HasChar(r.value.cardId, '/') && !HasChar(r.value.viewId.value, '/')
  {
    var raw := NonEmpty(Split(path, '/'));
    if raw == [] then None
    else
      var segments := FromKeyword(raw);
      if segments == [] then None
      else
        SegmentsHaveNoSlash(path);
        ParseSegments(segments)
  }

  lemma SegmentsHaveNoSlash(path: string)
    ensures forall x :: x in FromKeyword(NonEmpty(Split(path, '/'))) ==> !HasChar(x, '/')
  {
    SplitNoSep(path, '/');
  }

  /** Anything after a recognised card is ignored. */
  lemma ParseIgnoresTrailing(seg: seq<string>, extra: seq<string>)
    requires ParseSegments(seg).Some?
    ensures ParseSegments(seg + extra) == ParseSegments(seg)
  {
    var s := seg + extra;
    assert forall i :: 0 <= i < |seg| ==> s[i] == seg[i];
    assert forall i: nat :: i < |seg| ==> Cell(s, i) == Cell(seg, i);
  }

  /** The segments before the first keyword are dropped. */
  lemma FromKeywordDropsPrefix(pre: seq<string>, seg: seq<string>)
    requires forall i :: 0 <= i < |pre| ==> !IsKeyword(pre[i])
    requires seg != [] && IsKeyword(seg[0])
    ensures FromKeyword(pre + seg) == seg
  {
    var s := pre + seg;
    assert s[|pre|] == seg[0];
    assert forall i :: 0 <= i < |pre| ==> s[i] == pre[i];
    assert s[|pre|..] == seg;
  }

  /** A path without any keyword segment names no card. */
  lemma NoKeywordNoCard(raw: seq<string>)
    requires forall i :: 0 <= i < |raw| ==> !IsKeyword(raw[i])
    ensures raw != [] ==> ParseSegments(FromKeyword(raw)) == None
  {
  }

  lemma TeamCard(h: string, t: string, b: string, v: string, c: string, extra: seq<string>)
    requires Lower(h) == "team" && Lower(b) != "shared"
    requires t != [] && b != [] && v != [] && c != []
    ensures ParseSegments([h, t, b, v, c] + extra) == Some(CardRef(b, c, Some(v), Some(t)))
  {
    ParseIgnoresTrailing([h, t, b, v, c], extra);
  }

  lemma TeamSharedCard(h: string, t: string, s: string, b: string, v: string, c: string, extra: seq<string>)
    requires Lower(h) == "team" && Lower(s) == "shared"
    requires t != [] && b != [] && v != [] && c != []
    ensures ParseSegments([h, t, s, b, v, c] + extra) == Some(CardRef(b, c, Some(v), Some(t)))
  {
    assert s != [] by { assert |Lower(s)| == |s|; }
    ParseIgnoresTrailing([h, t, s, b, v, c], extra);
  }

  lemma BoardCard(h: string, b: string, v: string, c: string, extra: seq<string>)
    requires Lower(h) == "board" || Lower(h) == "shared"
    requires b != [] && v != [] && c != []
    ensures ParseSegments([h, b, v, c] + extra) == Some(CardRef(b, c, Some(v), None))
  {
    ParseIgnoresTrailing([h, b, v, c], extra);
  }

  lemma WorkspaceCard(h: string, w: string, b: string, v: string, c: string, extra: seq<string>)
    requires Lower(h) == "workspace" && Lower(b) != "shared"
    requires w != [] && b != [] && v != [] && c != []
    ensures ParseSegments([h, w, b, v, c] + extra) == Some(CardRef(b, c, Some(v), None))
  {
    ParseIgnoresTrailing([h, w, b, v, c], extra);
  }

  lemma WorkspaceSharedCard(h: string, w: string, s: string, b: string, v: string, c: string, extra: seq<string>)
    requires Lower(h) == "workspace" && Lower(s) == "shared"
    requires w != [] && b != [] && v != [] && c != []
    ensures ParseSegments([h, w, s, b, v, c] + extra) == Some(CardRef(b, c, Some(v), None))
  {
    assert s != [] by { assert |Lower(s)| == |s|; }
    ParseIgnoresTrailing([h, w, s, b, v, c], extra);
  }

  /** A path segment as the path lemmas below use it: not empty, and none of the
      characters that end or are removed from a URL path. */
  predicate SegmentText(s: string) {
    s != [] && !HasChar(s, '/') && !HasChar(s, '?') && !HasChar(s, '#') && !HasChar(s, ';')
    && !HasChar(s, '\t') && !HasChar(s, '\r') && !HasChar(s, '\n')
  }

  /** An `https` link with a plain path is read by its path. */
  lemma CardUrl(host: string, path: string)
    requires Url.HostText(host) && Url.PathText(path) && !HasChar(path, ';')
    ensures ParseBoardCardUrl("https://" + host + path) == CardOfPath(path)
  {
    Url.SplitPlainUrl(host, path);
  }

  /** A link whose host has a bracket without its partner names no card, whatever
      its path says. */
  lemma CardUrlUnbalanced(host: string, path: string)
    requires Url.HostChars(host) && Url.PathText(path) && Url.UnbalancedBrackets(host)
    ensures ParseBoardCardUrl("https://" + host + path) == None
  {
    Url.SplitUnbalancedHost(host, path);
  }

  /** A path made of the given segments is read by those segments, from the first
      keyword on. */
  lemma CardOfSegments(segs: seq<string>)
    requires segs != [] && forall i :: 0 <= i < |segs| ==> SegmentText(segs[i])
    ensures CardOfPath("/" + Join(segs, "/")) == ParseSegments(FromKeyword(segs))
  {
    SplitOfSegments(segs);
    NonEmptyKeeps(segs);
    assert NonEmpty([""] + segs) == segs by { assert ([""] + segs)[1..] == segs; }
  }

  /** The segments make a plain path. */
  lemma PathOfSegments(segs: seq<string>)
    requires forall i :: 0 <= i < |segs| ==> SegmentText(segs[i])
    ensures Url.PathText("/" + Join(segs, "/")) && !HasChar("/" + Join(segs, "/"), ';')
  {
    var j := Join(segs, "/");
    var path := "/" + j;
    JoinNoChar(segs, "/", '?');
    JoinNoChar(segs, "/", '#');
    JoinNoChar(segs, "/", ';');
    JoinNoChar(segs, "/", '\t');
    JoinNoChar(segs, "/", '\r');
    JoinNoChar(segs, "/", '\n');
    forall i | 1 <= i < |path| ensures path[i] !in {'?', '#', ';', '\t', '\r', '\n'} {
      assert path[i] == j[i - 1];
    }
  }

  lemma SplitOfSegments(segs: seq<string>)
    requires segs != [] && forall i :: 0 <= i < |segs| ==> SegmentText(segs[i])
    ensures Split("/" + Join(segs, "/"), '/') == [""] + segs
  {
    SplitLeadingSlash(Join(segs, "/"));
    SplitJoin(segs, '/');
  }

  lemma SplitLeadingSlash(j: string)
    ensures Split("/" + j, '/') == [""] + Split(j, '/')
  {
    var s := "/" + j;
    assert Find(s, '/') == 0;
    assert s[1..] == j;
  }

  // ---------------------------------------------------------------- content order

  /** The strings of a nested list, left to right and depth first; every other
      value contributes nothing. */
  function OrderIds(e: Json): seq<string>
    decreases e, 1
  {
    match e
    case JStr(s) => [s]
    case JArr(items) => OrderIdsOf(items)
    case _ => []
  }

  function OrderIdsOf(items: seq<Json>): seq<string>
    decreases items, 0
  {
    if items == [] then [] else OrderIds(items[0]) + OrderIdsOf(items[1..])
  }

  lemma {:induction false} OrderIdsAppend(a: seq<Json>, b: seq<Json>)
    ensures OrderIdsOf(a + b) == OrderIdsOf(a) + OrderIdsOf(b)
  {
    if a == [] {
      assert a + b == b;
    } else {
      assert (a + b)[0] == a[0] && (a + b)[1..] == a[1..] + b;
      OrderIdsAppend(a[1..], b);
    }
  }

  /** A flat list of strings is read as it is. */
  lemma {:induction false} OrderIdsOfStrings(xs: seq<string>)
    ensures OrderIdsOf(StrValues(xs)) == xs
  {
    if xs != [] {
      assert StrValues(xs)[1..] == StrValues(xs[1..]);
      OrderIdsOfStrings(xs[1..]);
    }
  }

  /** A nested list reads as its items spliced into place. */
  lemma NestedOrderIds(inner: seq<Json>, rest: seq<Json>)
    ensures OrderIdsOf([JArr(inner)] + rest) == OrderIdsOf(inner) + OrderIdsOf(rest)
  {
    assert ([JArr(inner)] + rest)[1..] == rest;
  }

  /** Values that are neither strings nor lists change nothing. */
  lemma OtherValuesIgnored(x: Json, rest: seq<Json>)
    requires !x.JStr? && !x.JArr?
    ensures OrderIdsOf([x] + rest) == OrderIdsOf(rest)
  {
    assert ([x] + rest)[1..] == rest;
  }

  /** The list `_collect_content_order_ids` appends to. */
  class IdCollector {
    var ids: seq<string>

    constructor ()
      ensures ids == []
    {
      ids := [];
    }

    /** `_collect_content_order_ids(element, self)`. */
    method Collect(element: Json)
      modifies this
      ensures ids == old(ids) + OrderIds(element)
      decreases element
    {
      match element {
        case JStr(s) =>
          ids := ids + [s];
        case JArr(items) =>
          for i := 0 to |items|
            invariant ids == old(ids) + OrderIdsOf(items[..i])
          {
            Collect(items[i]);
            assert items[..i + 1] == items[..i] + [items[i]];
            OrderIdsAppend(items[..i], [items[i]]);
            assert OrderIdsOf([items[i]]) == OrderIds(items[i]);
          }
          assert items[..|items|] == items;
        case _ =>
      }
    }
  }

  /** What `_extract_content_order` returns. */
  function ContentOrder(card: Option<Block>): seq<string> {
    if card.None? || card.value == [] then []
    else
      var fields := Field(card.value, "fields");
      if !fields.JObj? then []
      else
        var order := Field(fields.fields, "contentOrder");
        if !order.JArr? then [] else OrderIdsOf(order.items)
  }

  /** `_extract_content_order`. */
  method ExtractContentOrder(card: Option<Block>) returns (out: seq<string>)
    ensures out == ContentOrder(card)
  {
    if card.None? || card.value == [] {
      return [];
    }
    var fields := Field(card.value, "fields");
    if !fields.JObj? {
      return [];
    }
    var order := Field(fields.fields, "contentOrder");
    if !order.JArr? {
      return [];
    }
    var collector := new IdCollector();
    for i := 0 to |order.items|
      invariant collector.ids == OrderIdsOf(order.items[..i])
    {
      collector.Collect(order.items[i]);
      assert order.items[..i + 1] == order.items[..i] + [order.items[i]];
      OrderIdsAppend(order.items[..i], [order.items[i]]);
      assert OrderIdsOf([order.items[i]]) == OrderIds(order.items[i]);
    }
    assert order.items[..|order.items|] == order.items;
    out := collector.ids;
  }

  /** A card with a list of ids as its content order gives those ids. */
  lemma ContentOrderOfList(card: Block, rest: Block, ids: seq<string>)
    requires card == [("fields", JObj([("contentOrder", JArr(StrValues(ids)))]))] + rest
    ensures ContentOrder(Some(card)) == ids
  {
    OrderIdsOfStrings(ids);
  }

  // ---------------------------------------------------------------- card contents

  /** `b.get("createAt") or 0` as a number: `True` is 1, and a value that is no
      number is read as 0. */
  function SortKey(b: Block): int
  {
    var v := Or(Field(b, "createAt"), JInt(0));
    if v.JInt? then v.n else if v.JBool? && v.b then 1 else 0
  }

  predicate Sorted(bs: seq<Block>)
  {
    forall i, j :: 0 <= i < j < |bs| ==> SortKey(bs[i]) <= SortKey(bs[j])
  }

  /** Insertion after every block with a smaller or equal key. */
  function Insert(b: Block, bs: seq<Block>): (r: seq<Block>)
    ensures multiset(r) == multiset(bs) + multiset{b}
  {
    if bs == [] then [b]
    else if SortKey(b) <= SortKey(bs[0]) then [b] + bs
    else
      var r := [bs[0]] + Insert(b, bs[1..]);
      assert bs == [bs[0]] + bs[1..];
      r
  }

  /** Python's `sorted(bs, key=lambda b: b.get("createAt") or 0)`. */
  function SortByCreated(bs: seq<Block>): (r: seq<Block>)
    ensures multiset(r) == multiset(bs)
  {
    if bs == [] then []
    else
      var r := Insert(bs[0], SortByCreated(bs[1..]));
      assert bs == [bs[0]] + bs[1..];
      r
  }

  lemma {:induction false} InsertSorted(b: Block, bs: seq<Block>)
    requires Sorted(bs)
    ensures Sorted(Insert(b, bs))
  {
    if bs != [] && SortKey(b) > SortKey(bs[0]) {
      var tail := bs[1..];
      assert Sorted(tail) by {
        forall i, j | 0 <= i < j < |tail| ensures SortKey(tail[i]) <= SortKey(tail[j]) {
          assert tail[i] == bs[i + 1] && tail[j] == bs[j + 1];
        }
      }
      var t := Insert(b, tail);
      InsertSorted(b, tail);
      assert forall j :: 0 <= j < |tail| ==> SortKey(bs[0]) <= SortKey(tail[j]) by {
        assert forall j :: 0 <= j < |tail| ==> tail[j] == bs[j + 1];
      }
      InsertAbove(b, tail, SortKey(bs[0]));
      var r := [bs[0]] + t;
      forall i, j | 0 <= i < j < |r| ensures SortKey(r[i]) <= SortKey(r[j]) {
        if i == 0 {
          assert r[j] == t[j - 1];
        } else {
          assert r[i] == t[i - 1] && r[j] == t[j - 1];
        }
      }
    }
  }

  /** A lower bound of the keys survives an insertion above it. */
  lemma {:induction false} InsertAbove(b: Block, bs: seq<Block>, lo: int)
    requires lo <= SortKey(b) && forall j :: 0 <= j < |bs| ==> lo <= SortKey(bs[j])
    ensures forall j :: 0 <= j < |Insert(b, bs)| ==> lo <= SortKey(Insert(b, bs)[j])
  {
    if bs != [] && SortKey(b) > SortKey(bs[0]) {
      var tail := bs[1..];
      assert forall j :: 0 <= j < |tail| ==> tail[j] == bs[j + 1];
      InsertAbove(b, tail, lo);
      var r := [bs[0]] + Insert(b, tail);
      assert forall j :: 1 <= j < |r| ==> r[j] == Insert(b, tail)[j - 1];
    }
  }

  lemma {:induction false} SortedSorted(bs: seq<Block>)
    ensures Sorted(SortByCreated(bs))
  {
    if bs != [] {
      SortedSorted(bs[1..]);
      InsertSorted(bs[0], SortByCreated(bs[1..]));
    }
  }

  /** The blocks of `bs` whose key is `k`, in order. */
  function WithKey(bs: seq<Block>, k: int): seq<Block>
  {
    if bs == [] then [] else (if SortKey(bs[0]) == k then [bs[0]] else []) + WithKey(bs[1..], k)
  }

  lemma {:induction false} InsertStable(b: Block, bs: seq<Block>, k: int)
    ensures WithKey(Insert(b, bs), k) == (if SortKey(b) == k then [b] else []) + WithKey(bs, k)
  {
    if bs == [] {
      WithKeyCons(b, [], k);
      assert [b] + [] == [b];
    } else if SortKey(b) <= SortKey(bs[0]) {
      WithKeyCons(b, bs, k);
    } else {
      var mine := if SortKey(b) == k then [b] else [];
      var head := if SortKey(bs[0]) == k then [bs[0]] else [];
      var t, w := Insert(b, bs[1..]), WithKey(bs[1..], k);
      assert Insert(b, bs) == [bs[0]] + t;
      InsertStable(b, bs[1..], k);
      WithKeyCons(bs[0], t, k);
      assert WithKey(Insert(b, bs), k) == head + (mine + w);
      WithKeyCons(bs[0], bs[1..], k);
      assert bs == [bs[0]] + bs[1..];
      assert WithKey(bs, k) == head + w;
      SwapEmpty(mine, head, w);
    }
  }

  lemma SwapEmpty<T>(mine: seq<T>, head: seq<T>, w: seq<T>)
    requires mine == [] || head == []
    ensures head + (mine + w) == mine + (head + w)
  {
    if mine == [] {
      assert mine + w == w;
      assert mine + (head + w) == head + w;
    } else {
      assert head + (mine + w) == mine + w;
      assert head + w == w;
    }
  }

  lemma WithKeyCons(x: Block, rest: seq<Block>, k: int)
    ensures WithKey([x] + rest, k) == (if SortKey(x) == k then [x] else []) + WithKey(rest, k)
  {
    assert ([x] + rest)[1..] == rest;
  }

  /** The sort is stable: blocks with equal keys keep their relative order. */
  lemma {:induction false} SortStable(bs: seq<Block>, k: int)
    ensures WithKey(SortByCreated(bs), k) == WithKey(bs, k)
  {
    if bs != [] {
      SortStable(bs[1..], k);
      InsertStable(bs[0], SortByCreated(bs[1..]), k);
      assert WithKey(bs, k) == (if SortKey(bs[0]) == k then [bs[0]] else []) + WithKey(bs[1..], k);
    }
  }

  const TypeError := "TypeError"

  /** A list or a dict: Python cannot hash it, so it can be neither a dict key
      nor looked up in a set. */
  predicate Unhashable(v: Json) {
    v.JArr? || v.JObj?
  }

  /** No block carries a truthy id that Python cannot hash. */
  predicate IndexableIds(bs: seq<Block>) {
    forall i :: 0 <= i < |bs| ==> !(Truthy(Field(bs[i], "id")) && Unhashable(Field(bs[i], "id")))
  }

  /** No block carries an id that Python cannot hash, truthy or not. */
  predicate HashableIds(bs: seq<Block>) {
    forall i :: 0 <= i < |bs| ==> !Unhashable(Field(bs[i], "id"))
  }

  /** `{b.get("id"): b for b in bs if b.get("id")}`: a later block replaces an
      earlier one with the same id, and a truthy list or dict id raises TypeError. */
  function IndexById(bs: seq<Block>): Result<map<Json, Block>> {
    if bs == [] then Ok(map[])
    else
      var r := IndexById(bs[..|bs| - 1]);
      var b := bs[|bs| - 1];
      var id := Field(b, "id");
      if r.Err? || !Truthy(id) then r
      else if Unhashable(id) then Err(TypeError)
      else Ok(r.value[id := b])
  }

  /** The index fails, with TypeError, exactly when a block carries a truthy list
      or dict id; otherwise it holds, for each truthy id, the last block carrying it. */
  lemma {:induction false} IndexKeepsLast(bs: seq<Block>, id: Json)
    ensures IndexById(bs).Ok? <==> IndexableIds(bs)
    ensures IndexById(bs).Err? ==> IndexById(bs).msg == TypeError
    ensures IndexById(bs).Ok? && id in IndexById(bs).value ==>
      (Truthy(id)
       && exists i :: 0 <= i < |bs| && bs[i] == IndexById(bs).value[id] && Field(bs[i], "id") == id
                      && forall j :: i < j < |bs| ==> Field(bs[j], "id") != id)
    ensures IndexById(bs).Ok? && id !in IndexById(bs).value ==>
      !Truthy(id) || forall i :: 0 <= i < |bs| ==> Field(bs[i], "id") != id
  {
    if bs != [] {
      var init := bs[..|bs| - 1];
      IndexKeepsLast(init, id);
      assert forall i :: 0 <= i < |init| ==> init[i] == bs[i];
      var n := |bs| - 1;
      if IndexById(bs).Ok? {
        var m := IndexById(init).value;
        if Truthy(Field(bs[n], "id")) && Field(bs[n], "id") == id {
          assert bs[n] == IndexById(bs).value[id];
        } else if id in m {
          var i :| 0 <= i < |init| && init[i] == m[id] && Field(init[i], "id") == id
                   && forall j :: i < j < |init| ==> Field(init[j], "id") != id;
          assert bs[i] == IndexById(bs).value[id];
        }
      }
    }
  }

  /** Once a prefix of the blocks fails, the whole comprehension fails. */
  lemma {:induction false} IndexErrStays(bs: seq<Block>, n: nat)
    requires n <= |bs| && IndexById(bs[..n]).Err?
    ensures IndexById(bs) == IndexById(bs[..n])
    decreases |bs|
  {
    if n == |bs| {
      assert bs[..n] == bs;
    } else {
      var init := bs[..|bs| - 1];
      assert init[..n] == bs[..n];
      IndexErrStays(init, n);
    }
  }

  /** Every block in the index is filed under its own id. */
  lemma {:induction false} IndexFiled(bs: seq<Block>)
    ensures IndexById(bs).Ok? ==>
      forall id :: id in IndexById(bs).value ==>
        Field(IndexById(bs).value[id], "id") == id && IndexById(bs).value[id] in bs
  {
    if bs != [] {
      var init := bs[..|bs| - 1];
      IndexFiled(init);
      assert forall b :: b in init ==> b in bs;
    }
  }

  /** The listed blocks: `by_id.get(bid)` for each id of the order that is found. */
  function Ordered(byId: map<Json, Block>, order: seq<string>): (r: seq<Block>)
    ensures |r| <= |order|
  {
    if order == [] then []
    else
      var bid := order[|order| - 1];
      Ordered(byId, order[..|order| - 1]) + (if JStr(bid) in byId then [byId[JStr(bid)]] else [])
  }

  /** The ids of the order that were found. */
  function Seen(byId: map<Json, Block>, order: seq<string>): set<string> {
    set bid | bid in order && JStr(bid) in byId
  }

  predicate IsSeen(b: Block, seen: set<string>) {
    var id := Field(b, "id");
    id.JStr? && id.s in seen
  }

  /** `[b for b in bs if b.get("id") not in seen]`: testing a list or dict id
      against the set raises TypeError, whatever the set holds. */
  function Unseen(bs: seq<Block>, seen: set<string>): (r: Result<seq<Block>>)
    ensures r.Ok? <==> HashableIds(bs)
    ensures r.Err? ==> r.msg == TypeError
    ensures r.Ok? ==> forall b :: b in r.value ==> b in bs && !IsSeen(b, seen)
  {
    if bs == [] then Ok([])
    else if Unhashable(Field(bs[0], "id")) then Err(TypeError)
    else
      var t := Unseen(bs[1..], seen);
      assert forall i :: 0 <= i < |bs| - 1 ==> bs[1..][i] == bs[i + 1];
      if t.Err? then t else Ok((if IsSeen(bs[0], seen) then [] else [bs[0]]) + t.value)
  }

  /** The blocks the same filter drops: those whose id was seen. */
  function SeenBlocks(bs: seq<Block>, seen: set<string>): (r: Result<seq<Block>>)
    ensures r.Ok? <==> HashableIds(bs)
    ensures r.Ok? ==> forall b :: b in r.value <==> b in bs && IsSeen(b, seen)
  {
    if bs == [] then Ok([])
    else if Unhashable(Field(bs[0], "id")) then Err(TypeError)
    else
      var t := SeenBlocks(bs[1..], seen);
      assert forall i :: 0 <= i < |bs| - 1 ==> bs[1..][i] == bs[i + 1];
      if t.Err? then t else Ok((if IsSeen(bs[0], seen) then [bs[0]] else []) + t.value)
  }

  /** What `_fetch_card_contents` returns for the blocks of a card. */
  function CardContents(blocks: seq<Block>, order: seq<string>): Result<seq<Block>>
  {
    if blocks == [] then Ok([])
    else if order == [] then Ok(SortByCreated(blocks))
    else
      match IndexById(blocks)
      case Err(e) => Err(e)
      case Ok(byId) =>
        match Unseen(blocks, Seen(byId, order))
        case Err(e) => Err(e)
        case Ok(rest) => Ok(Ordered(byId, order) + SortByCreated(rest))
  }

  /** The contents fail with TypeError exactly when there is an order to follow
      and some block's id is a list or a dict: a truthy one when the index is
      built, an empty one when the remaining blocks are filtered. */
  lemma CardContentsFails(blocks: seq<Block>, order: seq<string>)
    ensures CardContents(blocks, order).Err? <==> blocks != [] && order != [] && !HashableIds(blocks)
    ensures CardContents(blocks, order).Err? ==> CardContents(blocks, order).msg == TypeError
  {
    if blocks != [] && order != [] {
      IndexKeepsLast(blocks, JNull);
    }
  }

  /** A block whose id is a list fails the contents of a card with an order. */
  lemma UnhashableIdFails()
    ensures CardContents([[("id", JArr([JStr("x")]))]], ["a"]) == Err(TypeError)
    ensures CardContents([[("id", JObj([]))]], ["a"]) == Err(TypeError)
  {
    var b: Block := [("id", JArr([JStr("x")]))];
    assert Field(b, "id") == JArr([JStr("x")]);
    assert [b][..0] == [];
    var e: Block := [("id", JObj([]))];
    assert Field(e, "id") == JObj([]);
    assert [e][..0] == [];
  }

  /** The ordering part of `_fetch_card_contents`, given the card's blocks. */
  method FetchCardContents(blocks: seq<Block>, contentOrder: seq<string>) returns (r: Result<seq<Block>>)
    ensures r == CardContents(blocks, contentOrder)
  {
    if blocks == [] {
      return Ok([]);
    }
    if contentOrder == [] {
      return Ok(SortByCreated(blocks));
    }
    var byId := IndexBlocks(blocks);
    if byId.Err? {
      return Err(byId.msg);
    }
    var ordered, seen := ListOrdered(byId.value, contentOrder);
    var rest := Unseen(blocks, seen);
    if rest.Err? {
      return Err(rest.msg);
    }
    var all := AppendAll(ordered, SortByCreated(rest.value));
    return Ok(all);
  }

  /** The `by_id` comprehension, stopping at the first truthy list or dict id. */
  method IndexBlocks(blocks: seq<Block>) returns (byId: Result<map<Json, Block>>)
    ensures byId == IndexById(blocks)
  {
    var m := map[];
    for i := 0 to |blocks|
      invariant IndexById(blocks[..i]) == Ok(m)
    {
      assert blocks[..i + 1][..i] == blocks[..i];
      var id := Field(blocks[i], "id");
      if Truthy(id) {
        if Unhashable(id) {
          IndexErrStays(blocks, i + 1);
          return Err(TypeError);
        }
        m := m[id := blocks[i]];
      }
    }
    assert blocks[..|blocks|] == blocks;
    return Ok(m);
  }

  /** The loop over the content order. */
  method ListOrdered(byId: map<Json, Block>, contentOrder: seq<string>) returns (ordered: seq<Block>, seen: set<string>)
    ensures ordered == Ordered(byId, contentOrder)
    ensures seen == Seen(byId, contentOrder)
  {
    ordered, seen := [], {};
    for i := 0 to |contentOrder|
      invariant ordered == Ordered(byId, contentOrder[..i])
      invariant seen == Seen(byId, contentOrder[..i])
    {
      assert contentOrder[..i + 1][..i] == contentOrder[..i];
      assert contentOrder[..i + 1] == contentOrder[..i] + [contentOrder[i]];
      var bid := contentOrder[i];
      if JStr(bid) in byId {
        ordered := ordered + [byId[JStr(bid)]];
        seen := seen + {bid};
      }
    }
    assert contentOrder[..|contentOrder|] == contentOrder;
  }

  /** The loop appending the remaining blocks. */
  method AppendAll(ordered: seq<Block>, rest: seq<Block>) returns (r: seq<Block>)
    ensures r == ordered + rest
  {
    r := ordered;
    for i := 0 to |rest|
      invariant r == ordered + rest[..i]
    {
      assert rest[..i + 1] == rest[..i] + [rest[i]];
      r := r + [rest[i]];
    }
    assert rest[..|rest|] == rest;
  }

  /** With no content order the blocks are sorted, stably, by creation time. */
  lemma NoOrderSorts(blocks: seq<Block>, k: int)
    ensures CardContents(blocks, []).Ok?
    ensures Sorted(CardContents(blocks, []).value)
    ensures multiset(CardContents(blocks, []).value) == multiset(blocks)
    ensures WithKey(CardContents(blocks, []).value, k) == WithKey(blocks, k)
  {
    if blocks != [] {
      SortedSorted(blocks);
      SortStable(blocks, k);
    }
  }

  lemma {:induction false} OrderedPrefix(byId: map<Json, Block>, order: seq<string>, n: nat)
    requires n <= |order|
    ensures Ordered(byId, order[..n]) <= Ordered(byId, order)
    decreases |order| - n
  {
    if n < |order| {
      OrderedPrefix(byId, order, n + 1);
      assert order[..n + 1][..n] == order[..n];
    } else {
      assert order[..n] == order;
    }
  }

  /** The block found for the `i`th id of the order comes right after the blocks
      found for the ids before it. */
  lemma OrderedInOrder(byId: map<Json, Block>, order: seq<string>, i: nat)
    requires i < |order| && JStr(order[i]) in byId
    ensures |Ordered(byId, order[..i])| < |Ordered(byId, order)|
    ensures Ordered(byId, order)[|Ordered(byId, order[..i])|] == byId[JStr(order[i])]
  {
    OrderedPrefix(byId, order, i + 1);
    assert order[..i + 1][..i] == order[..i];
  }

  /** The blocks whose id is not in the order follow the listed ones, sorted. */
  lemma OrderedThenSorted(blocks: seq<Block>, order: seq<string>)
    requires blocks != [] && order != []
    ensures CardContents(blocks, order).Ok? ==>
      var byId := IndexById(blocks).value;
      var listed := Ordered(byId, order);
      var contents := CardContents(blocks, order).value;
      var tail := contents[|listed|..];
      contents[..|listed|] == listed
      && Sorted(tail)
      && multiset(tail) == multiset(Unseen(blocks, Seen(byId, order)).value)
  {
    if CardContents(blocks, order).Ok? {
      var byId := IndexById(blocks).value;
      var rest := Unseen(blocks, Seen(byId, order)).value;
      SortedSorted(rest);
      var listed := Ordered(byId, order);
      assert CardContents(blocks, order).value[|listed|..] == SortByCreated(rest);
    }
  }

  /** Distinct truthy ids. */
  predicate DistinctIds(bs: seq<Block>) {
    forall i, j :: 0 <= i < j < |bs| && Truthy(Field(bs[i], "id")) ==> Field(bs[i], "id") != Field(bs[j], "id")
  }

  predicate NoDup<T(==)>(s: seq<T>) {
    forall i, j :: 0 <= i < j < |s| ==> s[i] != s[j]
  }

  lemma {:induction false} NoDupCount<T>(s: seq<T>, x: T)
    requires NoDup(s)
    ensures multiset(s)[x] == if x in s then 1 else 0
  {
    if s != [] {
      assert s == [s[0]] + s[1..];
      NoDupCount(s[1..], x);
    }
  }

  lemma NoDupMultiset<T>(a: seq<T>, b: seq<T>)
    requires NoDup(a) && NoDup(b)
    requires forall x :: x in a <==> x in b
    ensures multiset(a) == multiset(b)
  {
    forall x ensures multiset(a)[x] == multiset(b)[x] {
      NoDupCount(a, x);
      NoDupCount(b, x);
    }
  }

  lemma {:induction false} PartitionSeen(bs: seq<Block>, seen: set<string>)
    ensures Unseen(bs, seen).Ok? ==>
      multiset(SeenBlocks(bs, seen).value) + multiset(Unseen(bs, seen).value) == multiset(bs)
  {
    if bs != [] && Unseen(bs, seen).Ok? {
      PartitionSeen(bs[1..], seen);
      assert bs == [bs[0]] + bs[1..];
    }
  }

  lemma {:induction false} SeenBlocksNoDup(bs: seq<Block>, seen: set<string>)
    requires DistinctIds(bs) && forall x :: x in seen ==> x != []
    ensures SeenBlocks(bs, seen).Ok? ==> NoDup(SeenBlocks(bs, seen).value)
  {
    if bs != [] && SeenBlocks(bs, seen).Ok? {
      var t := SeenBlocks(bs[1..], seen).value;
      assert DistinctIds(bs[1..]) by {
        forall i, j | 0 <= i < j < |bs| - 1 && Truthy(Field(bs[1..][i], "id"))
          ensures Field(bs[1..][i], "id") != Field(bs[1..][j], "id")
        {
          assert bs[1..][i] == bs[i + 1] && bs[1..][j] == bs[j + 1];
        }
      }
      SeenBlocksNoDup(bs[1..], seen);
      if IsSeen(bs[0], seen) {
        assert Truthy(Field(bs[0], "id"));
        forall j | 0 <= j < |bs| - 1 ensures bs[1..][j] != bs[0] {
          assert bs[1..][j] == bs[j + 1];
          assert Field(bs[0], "id") != Field(bs[j + 1], "id");
        }
        assert bs[0] !in t;
        var r := [bs[0]] + t;
        forall i, j | 0 <= i < j < |r| ensures r[i] != r[j] {
          if i == 0 { assert r[j] in t; } else { assert r[i] == t[i - 1] && r[j] == t[j - 1]; }
        }
      }
    }
  }

  /** The listed blocks are the blocks of the index under the ids of the order. */
  lemma {:induction false} OrderedMembers(byId: map<Json, Block>, order: seq<string>)
    ensures forall b :: b in Ordered(byId, order) <==> exists x :: x in order && JStr(x) in byId && b == byId[JStr(x)]
  {
    if order != [] {
      var init := order[..|order| - 1];
      OrderedMembers(byId, init);
      assert order == init + [order[|order| - 1]];
      assert forall x :: x in order <==> x in init || x == order[|order| - 1];
    }
  }

  lemma {:induction false} OrderedNoDup(byId: map<Json, Block>, order: seq<string>)
    requires NoDup(order)
    requires forall id :: id in byId ==> Field(byId[id], "id") == id
    ensures NoDup(Ordered(byId, order))
  {
    if order != [] {
      var init := order[..|order| - 1];
      var bid := order[|order| - 1];
      assert NoDup(init) by {
        forall i, j | 0 <= i < j < |init| ensures init[i] != init[j] { assert init[i] == order[i] && init[j] == order[j]; }
      }
      OrderedNoDup(byId, init);
      if JStr(bid) in byId {
        var l := Ordered(byId, init);
        OrderedMembers(byId, init);
        forall k | 0 <= k < |init| && JStr(init[k]) in byId ensures byId[JStr(init[k])] != byId[JStr(bid)] {
          assert init[k] == order[k];
          assert Field(byId[JStr(init[k])], "id") == JStr(init[k]);
        }
        assert byId[JStr(bid)] !in l;
        var r := l + [byId[JStr(bid)]];
        forall i, j | 0 <= i < j < |r| ensures r[i] != r[j] {
          if j == |l| { assert r[i] in l; } else { assert r[i] == l[i] && r[j] == l[j]; }
        }
      }
    }
  }

  /** With distinct block ids and an order without repeats, the card's contents
      are its blocks rearranged: none is lost and none is repeated. */
  lemma ContentsPermute(blocks: seq<Block>, order: seq<string>)
    requires DistinctIds(blocks) && NoDup(order)
    ensures CardContents(blocks, order).Ok? ==> multiset(CardContents(blocks, order).value) == multiset(blocks)
  {
    if blocks != [] && order != [] && CardContents(blocks, order).Ok? {
      var byId := IndexById(blocks).value;
      var seen := Seen(byId, order);
      var listed := Ordered(byId, order);
      var found := SeenBlocks(blocks, seen).value;
      IndexFiled(blocks);
      OrderedNoDup(byId, order);
      assert forall x :: x in seen ==> x != [] by {
        forall x | x in seen ensures x != [] {
          IndexKeepsLast(blocks, JStr(x));
        }
      }
      SeenBlocksNoDup(blocks, seen);
      OrderedMembers(byId, order);
      forall b ensures b in listed <==> b in found {
        if b in found {
          var k :| 0 <= k < |blocks| && blocks[k] == b;
          var x := Field(b, "id").s;
          assert x in order && JStr(x) in byId;
          IndexKeepsLast(blocks, JStr(x));
          var i :| 0 <= i < |blocks| && blocks[i] == byId[JStr(x)] && Field(blocks[i], "id") == JStr(x)
                   && forall j :: i < j < |blocks| ==> Field(blocks[j], "id") != JStr(x);
          assert Field(blocks[k], "id") == JStr(x) && Truthy(Field(blocks[k], "id"));
          assert i == k;
        }
      }
      NoDupMultiset(listed, found);
      PartitionSeen(blocks, seen);
    }
  }

  // ---------------------------------------------------------------- card properties

  datatype PropertyValue = PropertyValue(propertyId: string, propertyName: Json, propertyType: Json, value: Json)

  /** The dicts of a list. */
  function Dicts(xs: seq<Json>): (r: seq<Block>)
    ensures forall b :: b in r <==> JObj(b) in xs
  {
    if xs == [] then [] else (if xs[0].JObj? then [xs[0].fields] else []) + Dicts(xs[1..])
  }

  /** `board.get("cardProperties")`, a non-list read as `[]`, indexed by id. */
  function BoardTemplates(board: Block): seq<Block> {
    var props := Field(board, "cardProperties");
    Dicts(if props.JArr? then props.items else [])
  }

  /** The `lookup` comprehension over the board's property templates. */
  function Templates(board: Block): Result<map<Json, Block>> {
    IndexById(BoardTemplates(board))
  }

  /** `lookup.get(property_id) or {}`. */
  function Template(lookup: map<Json, Block>, propertyId: string): Block {
    if JStr(propertyId) in lookup then lookup[JStr(propertyId)] else []
  }

  function ValueOf(lookup: map<Json, Block>, p: (string, Json)): PropertyValue {
    var t := Template(lookup, p.0);
    PropertyValue(p.0, Field(t, "name"), Field(t, "type"), p.1)
  }

  /** The card's `fields.properties`, when it is a non-empty dict. */
  function CardProperties(card: Block): Option<Block> {
    var fields := Field(card, "fields");
    if !fields.JObj? then None
    else
      var props := Field(fields.fields, "properties");
      if !props.JObj? || props.fields == [] then None else Some(props.fields)
  }

  /** What `_build_card_property_values` returns, or the TypeError its `lookup`
      comprehension raises. */
  function PropertyValues(board: Option<Block>, card: Option<Block>): Result<seq<PropertyValue>> {
    if board.None? || board.value == [] || card.None? || card.value == [] then Ok([])
    else
      match CardProperties(card.value)
      case None => Ok([])
      case Some(props) =>
        match Templates(board.value)
        case Err(e) => Err(e)
        case Ok(lookup) => Ok(seq(|props|, i requires 0 <= i < |props| => ValueOf(lookup, props[i])))
  }

  /** `_build_card_property_values`. */
  method BuildCardPropertyValues(board: Option<Block>, card: Option<Block>) returns (out: Result<seq<PropertyValue>>)
    ensures out == PropertyValues(board, card)
  {
    if board.None? || board.value == [] || card.None? || card.value == [] {
      return Ok([]);
    }
    var fields := Field(card.value, "fields");
    if !fields.JObj? {
      return Ok([]);
    }
    var props := Field(fields.fields, "properties");
    if !props.JObj? || props.fields == [] {
      return Ok([]);
    }
    var lookup := IndexBlocks(BoardTemplates(board.value));
    if lookup.Err? {
      return Err(lookup.msg);
    }
    var values := [];
    for i := 0 to |props.fields|
      invariant |values| == i
      invariant forall j :: 0 <= j < i ==> values[j] == ValueOf(lookup.value, props.fields[j])
    {
      var (propertyId, value) := props.fields[i];
      var template := Template(lookup.value, propertyId);
      values := values + [PropertyValue(propertyId, Field(template, "name"), Field(template, "type"), value)];
    }
    assert values == seq(|props.fields|, i requires 0 <= i < |props.fields| => ValueOf(lookup.value, props.fields[i]));
    return Ok(values);
  }

  /** The name and type of a property come from the last template with its id,
      or are `None` when there is none. */
  predicate FromTemplate(ts: seq<Block>, pid: string, v: PropertyValue) {
    (exists k :: 0 <= k < |ts| && Field(ts[k], "id") == JStr(pid)
       && v.propertyName == Field(ts[k], "name") && v.propertyType == Field(ts[k], "type")
       && forall j :: k < j < |ts| ==> Field(ts[j], "id") != JStr(pid))
    || (v.propertyName == JNull && v.propertyType == JNull
        && (pid == [] || forall k :: 0 <= k < |ts| ==> Field(ts[k], "id") != JStr(pid)))
  }

  lemma ValueFromTemplate(ts: seq<Block>, p: (string, Json))
    ensures IndexById(ts).Ok? ==>
      ValueOf(IndexById(ts).value, p).propertyId == p.0 && ValueOf(IndexById(ts).value, p).value == p.1
      && FromTemplate(ts, p.0, ValueOf(IndexById(ts).value, p))
  {
    var pid := p.0;
    IndexKeepsLast(ts, JStr(pid));
    if IndexById(ts).Ok? {
      var lookup := IndexById(ts).value;
      if JStr(pid) in lookup {
        var k :| 0 <= k < |ts| && ts[k] == lookup[JStr(pid)] && Field(ts[k], "id") == JStr(pid)
                 && forall j :: k < j < |ts| ==> Field(ts[j], "id") != JStr(pid);
        assert Template(lookup, pid) == ts[k];
      } else {
        assert Template(lookup, pid) == [];
        if pid != [] {
          assert Truthy(JStr(pid));
        }
      }
    }
  }

  /** When the card has properties, the values fail with TypeError exactly when a
      board property template has a truthy list or dict id; otherwise there is one
      entry per card property, in order: its id and value, and the name and type
      of the last template with that id, or `None` when the board has none. */
  lemma PropertyValuesSpec(board: Block, card: Block, i: nat)
    requires board != [] && card != [] && CardProperties(card).Some?
    requires i < |CardProperties(card).value|
    ensures var out := PropertyValues(Some(board), Some(card));
      (out.Ok? <==> IndexableIds(BoardTemplates(board)))
      && (out.Err? ==> out.msg == TypeError)
    ensures var props := CardProperties(card).value;
      var out := PropertyValues(Some(board), Some(card));
      out.Ok? ==>
        |out.value| == |props| && out.value[i].propertyId == props[i].0 && out.value[i].value == props[i].1
        && FromTemplate(BoardTemplates(board), props[i].0, out.value[i])
  {
    var props := CardProperties(card).value;
    IndexKeepsLast(BoardTemplates(board), JNull);
    if Templates(board).Ok? {
      assert PropertyValues(Some(board), Some(card)).value[i] == ValueOf(Templates(board).value, props[i]);
      ValueFromTemplate(BoardTemplates(board), props[i]);
    }
  }

  /** No board, no card, or a card without properties gives no values, whatever
      the board's templates hold. */
  lemma NoPropertyValues(board: Option<Block>, card: Option<Block>)
    requires board.None? || board.value == [] || card.None? || card.value == []
             || CardProperties(card.value).None?
    ensures PropertyValues(board, card) == Ok([])
  {
  }
}
