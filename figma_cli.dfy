/** The Figma CLI's pure helpers: the rate-limit record read from a 429 response's
    headers and its message, the file-name suffix rule, the node list read from
    `--nodes-json`, and the split of render requests into PNG and SVG. */
module FigmaCli {
  import opened Wrappers
  import opened Text
  import opened Json

  // ---------------------------------------------------------------- rate limits

  /** `RateLimitInfo`: seconds to wait, and three optional header values. */
  datatype RateLimitInfo = RateLimitInfo(
    retryAfter: int,
    planTier: Option<string>,
    rateLimitType: Option<string>,
    upgradeLink: Option<string>)

  /** `int()` of a header value that is not an integer raises. */
  const ValueError := "ValueError"

  /** Header names compare equal when they agree ignoring case. */
  predicate SameName(a: string, b: string) {
    Lower(a) == Lower(b)
  }

  /** What `get_header(name)` returns: the value of the first key, in the dict's order,
      that matches `name` ignoring case. */
  function HeaderValue(headers: seq<(string, string)>, name: string): (r: Option<string>)
  {
    if headers == [] then None
    else if SameName(headers[0].0, name) then Some(headers[0].1)
    else HeaderValue(headers[1..], name)
  }

  /** `HeaderValue` finds nothing exactly when no key matches, and otherwise the value
      of the first key that does. */
  lemma {:induction false} HeaderValueSpec(headers: seq<(string, string)>, name: string)
    ensures HeaderValue(headers, name).None? <==>
      forall i :: 0 <= i < |headers| ==> !SameName(headers[i].0, name)
    ensures forall i :: 0 <= i < |headers| && FirstMatch(headers, name, i) ==>
      HeaderValue(headers, name) == Some(headers[i].1)
  {
    if headers != [] {
      HeaderValueSpec(headers[1..], name);
      assert forall i :: 1 <= i < |headers| ==> headers[1..][i - 1] == headers[i];
    }
  }

  /** Key `i` matches `name` and no earlier key does. */
  predicate FirstMatch(headers: seq<(string, string)>, name: string, i: nat)
    requires i < |headers|
  {
    SameName(headers[i].0, name) && forall j :: 0 <= j < i ==> !SameName(headers[j].0, name)
  }

  /** Asking with a name in another case gives the same answer. */
  lemma {:induction false} HeaderNameCase(headers: seq<(string, string)>, a: string, b: string)
    requires Lower(a) == Lower(b)
    ensures HeaderValue(headers, a) == HeaderValue(headers, b)
  {
    if headers != [] { HeaderNameCase(headers[1..], a, b); }
  }

  /** The nested `get_header` of `_parse_rate_limit_headers`: the loop over the keys. */
  method GetHeader(headers: seq<(string, string)>, name: string) returns (r: Option<string>)
    ensures r == HeaderValue(headers, name)
  {
    for i := 0 to |headers|
      invariant HeaderValue(headers, name) == HeaderValue(headers[i..], name)
    {
      if SameName(headers[i].0, name) {
        return Some(headers[i].1);
      }
      assert headers[i..][1..] == headers[i + 1..];
    }
    return None;
  }

  /** The Retry-After text `int()` reads: the header, or "60" when it is absent or empty. */
  function RetryText(retry: Option<string>): (t: string)
    ensures t != []
  {
    if retry.Some? && retry.value != [] then retry.value else "60"
  }

  /** The record built from the four header values `get_header` found, or the
      ValueError of `int()`. */
  function InfoOf(retry: Option<string>, planTier: Option<string>, rateLimitType: Option<string>,
                  upgradeLink: Option<string>): (r: Result<RateLimitInfo>)
    ensures r.Err? <==> PyInt(RetryText(retry)).None?
    ensures r.Ok? ==>
      r.value.planTier == planTier && r.value.rateLimitType == rateLimitType && r.value.upgradeLink == upgradeLink
  {
    match PyInt(RetryText(retry))
    case None => Err(ValueError)
    case Some(n) => Ok(RateLimitInfo(n, planTier, rateLimitType, upgradeLink))
  }

  /** What `_parse_rate_limit_headers` returns. */
  function RateLimitOf(headers: seq<(string, string)>): Result<RateLimitInfo> {
    InfoOf(HeaderValue(headers, "Retry-After"), HeaderValue(headers, "X-Figma-Plan-Tier"),
      HeaderValue(headers, "X-Figma-Rate-Limit-Type"), HeaderValue(headers, "X-Figma-Upgrade-Link"))
  }

  /** `_parse_rate_limit_headers`. */
  method ParseRateLimitHeaders(headers: seq<(string, string)>) returns (r: Result<RateLimitInfo>)
    ensures r == RateLimitOf(headers)
  {
    var retry := GetHeader(headers, "Retry-After");
    var text := if retry.Some? && retry.value != [] then retry.value else "60";
    var n := PyInt(text);
    if n.None? {
      return Err(ValueError);
    }
    var planTier := GetHeader(headers, "X-Figma-Plan-Tier");
    var rateLimitType := GetHeader(headers, "X-Figma-Rate-Limit-Type");
    var upgradeLink := GetHeader(headers, "X-Figma-Upgrade-Link");
    return Ok(RateLimitInfo(n.value, planTier, rateLimitType, upgradeLink));
  }

  /** With no Retry-After value, or an empty one, the wait is 60 seconds. */
  lemma RetryDefault(retry: Option<string>, planTier: Option<string>, rateLimitType: Option<string>,
                     upgradeLink: Option<string>)
    requires retry == None || retry == Some("")
    ensures InfoOf(retry, planTier, rateLimitType, upgradeLink).Ok?
    ensures InfoOf(retry, planTier, rateLimitType, upgradeLink).value.retryAfter == 60
  {
    assert RetryText(retry) == "60";
    PyIntOfDigits("60");
    assert DigitsValue("60") == 60 by { assert "60"[..1] == "6"; }
  }

  /** A Retry-After value holding a number is read as that number. */
  lemma RetryGiven(n: int, planTier: Option<string>, rateLimitType: Option<string>, upgradeLink: Option<string>)
    ensures InfoOf(Some(IntToStr(n)), planTier, rateLimitType, upgradeLink).Ok?
    ensures InfoOf(Some(IntToStr(n)), planTier, rateLimitType, upgradeLink).value.retryAfter == n
  {
    PyIntOfIntToStr(n);
  }

  /** A header that no key matches, in any case, leaves its field None. */
  lemma AbsentHeader(headers: seq<(string, string)>, name: string)
    requires forall i :: 0 <= i < |headers| ==> !SameName(headers[i].0, name)
    ensures HeaderValue(headers, name) == None
  {
    HeaderValueSpec(headers, name);
  }

  /** The seat description of a limit type. */
  function SeatOf(limitType: string): (r: string)
    ensures r == "View/Collaborator seat" <==> limitType == "low"
  {
    if limitType == "low" then "View/Collaborator seat" else "Dev/Full seat"
  }

  /** `if value:` on an optional string. */
  predicate Given(v: Option<string>) {
    v.Some? && v.value != []
  }

  function RetryMessage(seconds: int): string {
    "Rate limit exceeded. Retry after " + IntToStr(seconds) + " seconds."
  }

  function PlanText(planTier: string): string {
    "Plan tier: " + planTier
  }

  function TypeText(limitType: string): string {
    "Rate limit type: " + limitType + " (" + SeatOf(limitType) + ")"
  }

  function UpgradeText(link: string): string {
    "Upgrade: " + link
  }

  function PlanPart(info: RateLimitInfo): seq<string> {
    if Given(info.planTier) then [PlanText(info.planTier.value)] else []
  }

  function TypePart(info: RateLimitInfo): seq<string> {
    if Given(info.rateLimitType) then [TypeText(info.rateLimitType.value)] else []
  }

  function UpgradePart(info: RateLimitInfo): seq<string> {
    if Given(info.upgradeLink) then [UpgradeText(info.upgradeLink.value)] else []
  }

  /** The `parts` list of `__str__`: the retry message, then the plan tier, limit type
      and upgrade link that are given, in that order. */
  function MessageParts(info: RateLimitInfo): (r: seq<string>)
    ensures |r| >= 1 && r[0] == RetryMessage(info.retryAfter)
    ensures |r| == 1 + (if Given(info.planTier) then 1 else 0)
      + (if Given(info.rateLimitType) then 1 else 0) + (if Given(info.upgradeLink) then 1 else 0)
  {
    [RetryMessage(info.retryAfter)] + PlanPart(info) + TypePart(info) + UpgradePart(info)
  }

  /** `RateLimitInfo.__str__`. */
  function Message(info: RateLimitInfo): string {
    Join(MessageParts(info), " | ")
  }

  /** The message always starts with the retry sentence. */
  lemma MessageStartsWithRetry(info: RateLimitInfo)
    ensures StartsWith(Message(info), RetryMessage(info.retryAfter))
  {
    var parts := MessageParts(info);
    if |parts| > 1 {
      JoinCons(parts[0], parts[1..], " | ");
      assert [parts[0]] + parts[1..] == parts;
    }
  }

  /** With nothing optional given the message is the retry sentence alone. */
  lemma MessageBare(info: RateLimitInfo)
    requires !Given(info.planTier) && !Given(info.rateLimitType) && !Given(info.upgradeLink)
    ensures Message(info) == RetryMessage(info.retryAfter)
  {
  }

  /** With everything given the four parts appear in order, separated by ` | `. */
  lemma MessageFull(info: RateLimitInfo)
    requires Given(info.planTier) && Given(info.rateLimitType) && Given(info.upgradeLink)
    ensures Message(info) == RetryMessage(info.retryAfter) + " | " + PlanText(info.planTier.value)
      + " | " + TypeText(info.rateLimitType.value) + " | " + UpgradeText(info.upgradeLink.value)
  {
    var a, b := RetryMessage(info.retryAfter), PlanText(info.planTier.value);
    var c, d := TypeText(info.rateLimitType.value), UpgradeText(info.upgradeLink.value);
    assert MessageParts(info) == [a, b, c, d];
    JoinFour(a, b, c, d, " | ");
  }

  lemma JoinFour(a: string, b: string, c: string, d: string, sep: string)
    ensures Join([a, b, c, d], sep) == a + sep + b + sep + c + sep + d
  {
    JoinCons(a, [b, c, d], sep);
    assert [a] + [b, c, d] == [a, b, c, d];
    JoinCons(b, [c, d], sep);
    assert [b] + [c, d] == [b, c, d];
    JoinCons(c, [d], sep);
    assert [c] + [d] == [c, d];
  }

  /** An optional string as JSON: `None` becomes null. */
  function OptJson(v: Option<string>): (j: Json)
    ensures v.None? <==> j == JNull
  {
    if v.Some? then JStr(v.value) else JNull
  }

  /** `RateLimitInfo.to_dict`. */
  function ToDict(info: RateLimitInfo): (j: Json)
    ensures j.JObj? && Keys(j.fields) == ["retry_after_seconds", "plan_tier", "rate_limit_type", "upgrade_link"]
  {
    JObj([("retry_after_seconds", JInt(info.retryAfter)), ("plan_tier", OptJson(info.planTier)),
      ("rate_limit_type", OptJson(info.rateLimitType)), ("upgrade_link", OptJson(info.upgradeLink))])
  }

  function OptOfJson(j: Json): Option<string> {
    if j.JStr? then Some(j.s) else None
  }

  /** Reading a dict written by `to_dict` back into a record. */
  function InfoOfDict(j: Json): Option<RateLimitInfo> {
    if j.JObj? && |j.fields| == 4 && j.fields[0].1.JInt? then
      Some(RateLimitInfo(j.fields[0].1.n, OptOfJson(j.fields[1].1), OptOfJson(j.fields[2].1), OptOfJson(j.fields[3].1)))
    else None
  }

  /** `to_dict` loses nothing: the record can be read back from it. */
  lemma ToDictRoundTrip(info: RateLimitInfo)
    ensures InfoOfDict(ToDict(info)) == Some(info)
  {
  }

  // ---------------------------------------------------------------- file names

  /** `_apply_suffix(base_name, suffix)`: nothing to do for a missing or empty suffix or one
      already in the name; otherwise `-suffix` goes before the last `.` when that dot is
      not the first character, and at the end when it is or there is none. */
  function ApplySuffix(baseName: string, suffix: Option<string>): (r: string)
    ensures r == baseName <==> !Given(suffix) || Contains(baseName, suffix.value)
    ensures Given(suffix) ==> Contains(r, suffix.value)
    ensures Given(suffix) && !Contains(baseName, suffix.value) ==> |r| == |baseName| + 1 + |suffix.value|
  {
    if !Given(suffix) || Contains(baseName, suffix.value) then baseName
    else
      var s := suffix.value;
      var idx := RFind(baseName, '.');
      if idx > 0 then
        var r := baseName[..idx] + "-" + s + baseName[idx..];
        assert r[idx + 1..idx + 1 + |s|] == s;
        ContainsAt(r, s, idx + 1);
        r
      else
        var r := baseName + "-" + s;
        assert r[|baseName| + 1..] == s;
        ContainsAt(r, s, |baseName| + 1);
        r
  }

  /** The extension after the last dot is kept, and the suffix sits right before it. */
  lemma ApplySuffixBeforeDot(baseName: string, s: string)
    requires s != [] && !Contains(baseName, s) && RFind(baseName, '.') > 0
    ensures var idx := RFind(baseName, '.');
      ApplySuffix(baseName, Some(s)) == baseName[..idx] + "-" + s + baseName[idx..]
  {
  }

  /** Without a dot past the first character the suffix is appended. */
  lemma ApplySuffixAtEnd(baseName: string, s: string)
    requires s != [] && !Contains(baseName, s) && RFind(baseName, '.') <= 0
    ensures ApplySuffix(baseName, Some(s)) == baseName + "-" + s
  {
  }

  /** Applying the same suffix twice is applying it once. */
  lemma ApplySuffixIdempotent(baseName: string, suffix: Option<string>)
    ensures ApplySuffix(ApplySuffix(baseName, suffix), suffix) == ApplySuffix(baseName, suffix)
  {
  }

  // ---------------------------------------------------------------- node list

  const ProvideNodes := "[ERROR] Provide --nodes-json (path to JSON array)."
  const NotAnArray := "[ERROR] nodes JSON must be an array of objects."
  const NoValidItems := "[ERROR] nodes JSON contained no valid items (need at least fileName)."

  /** A dict item with a non-empty string `fileName`. */
  predicate IsNodeItem(item: Json) {
    item.JObj? && Field(item.fields, "fileName").JStr? && Field(item.fields, "fileName").s != []
  }

  /** The items `_read_nodes` keeps, in their order. */
  function NodeItems(items: seq<Json>): (r: seq<Json>)
    ensures |r| <= |items|
  {
    if items == [] then []
    else
      var last := items[|items| - 1];
      var init := items[..|items| - 1];
      assert items == init + [last];
      NodeItems(init) + (if IsNodeItem(last) then [last] else [])
  }

  /** The kept items are exactly the items that qualify. */
  lemma {:induction false} NodeItemsMembers(items: seq<Json>)
    ensures forall x :: x in NodeItems(items) <==> x in items && IsNodeItem(x)
    decreases |items|
  {
    if items != [] {
      var init := items[..|items| - 1];
      assert items == init + [items[|items| - 1]];
      NodeItemsMembers(init);
    }
  }

  /** Keeping items commutes with concatenation, so the kept items stay in input order. */
  lemma {:induction false} NodeItemsAppend(a: seq<Json>, b: seq<Json>)
    ensures NodeItems(a + b) == NodeItems(a) + NodeItems(b)
    decreases |b|
  {
    if b == [] {
      assert a + b == a;
    } else {
      var init := b[..|b| - 1];
      assert (a + b)[..|a + b| - 1] == a + init;
      NodeItemsAppend(a, init);
    }
  }

  /** `_read_nodes`, with the file's parsed contents passed in: the error when no path
      is given, when the contents are not a list, or when no item survives. */
  function ReadNodesOf(path: Option<string>, data: Json): (r: Result<seq<Json>>)
    ensures r.Ok? ==> path.Some? && data.JArr? && r.value != [] && r.value == NodeItems(data.items)
    ensures r.Err? ==> r.msg in {ProvideNodes, NotAnArray, NoValidItems}
  {
    if path.None? then Err(ProvideNodes)
    else if !data.JArr? then Err(NotAnArray)
    else if NodeItems(data.items) == [] then Err(NoValidItems)
    else Ok(NodeItems(data.items))
  }

  method ReadNodes(path: Option<string>, data: Json) returns (r: Result<seq<Json>>)
    ensures r == ReadNodesOf(path, data)
  {
    if path.None? {
      return Err(ProvideNodes);
    }
    if !data.JArr? {
      return Err(NotAnArray);
    }
    var items := data.items;
    var out: seq<Json> := [];
    for i := 0 to |items|
      invariant out == NodeItems(items[..i])
    {
      assert items[..i + 1][..i] == items[..i];
      var item := items[i];
      if !item.JObj? {
        continue;
      }
      var fileName := Field(item.fields, "fileName");
      if !fileName.JStr? || fileName.s == [] {
        continue;
      }
      out := out + [item];
    }
    assert items[..|items|] == items;
    if out == [] {
      return Err(NoValidItems);
    }
    return Ok(out);
  }

  // ---------------------------------------------------------------- downloads

  /** A download entry of `cmd_download`. */
  datatype Item = Item(fileName: string, nodeId: Json, imageRef: Json)

  /** `x in base_name` with a value that is not a string raises TypeError. */
  const TypeError := "TypeError"

  /** The file name of a node: its `fileName` with `filenameSuffix` applied, nothing when
      `fileName` is not a string, or the TypeError of a suffix that is neither falsy nor
      a string. */
  function ItemName(obj: Json): (r: Result<Option<string>>)
    ensures r.Ok? && r.value.Some? ==> GetOrNull(obj, "fileName").JStr?
  {
    var baseName := GetOrNull(obj, "fileName");
    var suffix := GetOrNull(obj, "filenameSuffix");
    if !baseName.JStr? then Ok(None)
    else if !Truthy(suffix) then Ok(Some(baseName.s))
    else if suffix.JStr? then Ok(Some(ApplySuffix(baseName.s, Some(suffix.s))))
    else Err(TypeError)
  }

  /** The `items` list of `cmd_download`, built from the nodes in order; names that come
      out empty are skipped. */
  function ItemsOf(nodes: seq<Json>): (r: Result<seq<Item>>)
    ensures r.Ok? ==> |r.value| <= |nodes| && forall k :: 0 <= k < |r.value| ==> r.value[k].fileName != []
  {
    if nodes == [] then Ok([])
    else
      match ItemsOf(nodes[..|nodes| - 1])
      case Err(e) => Err(e)
      case Ok(items) =>
        var obj := nodes[|nodes| - 1];
        match ItemName(obj)
        case Err(e) => Err(e)
        case Ok(name) =>
          if name.None? || name.value == [] then Ok(items)
          else Ok(items + [Item(name.value, GetOrNull(obj, "nodeId"), GetOrNull(obj, "imageRef"))])
  }

  method BuildItems(nodes: seq<Json>) returns (r: Result<seq<Item>>)
    ensures r == ItemsOf(nodes)
  {
    var items: seq<Item> := [];
    for i := 0 to |nodes|
      invariant ItemsOf(nodes[..i]) == Ok(items)
    {
      assert nodes[..i + 1][..i] == nodes[..i];
      var obj := nodes[i];
      var name := ItemName(obj);
      if name.Err? {
        ItemsErrStays(nodes, i + 1, name.msg);
        return Err(name.msg);
      }
      if name.value.None? || name.value.value == [] {
        continue;
      }
      items := items + [Item(name.value.value, GetOrNull(obj, "nodeId"), GetOrNull(obj, "imageRef"))];
    }
    assert nodes[..|nodes|] == nodes;
    return Ok(items);
  }

  /** Once a prefix of the nodes fails, the whole list fails with the same error. */
  lemma {:induction false} ItemsErrStays(nodes: seq<Json>, i: nat, e: string)
    requires i <= |nodes| && ItemsOf(nodes[..i]) == Err(e)
    ensures ItemsOf(nodes) == Err(e)
    decreases |nodes| - i
  {
    if i < |nodes| {
      assert nodes[..i + 1][..i] == nodes[..i];
      ItemsErrStays(nodes, i + 1, e);
    } else {
      assert nodes[..i] == nodes;
    }
  }

  /** A file name that ends with `.svg` in any case. */
  predicate IsSvgName(name: string) {
    EndsWith(Lower(name), ".svg")
  }

  /** A render item whose node id is a string: the ones that are sent to be rendered. */
  predicate HasStringNode(it: Item) {
    Truthy(it.nodeId) && it.nodeId.JStr?
  }

  /** `png_nodes`: the string node ids of render items not named `.svg`, in order. */
  function PngNodes(items: seq<Item>): (r: seq<string>)
  {
    if items == [] then []
    else
      (if HasStringNode(items[0]) && !IsSvgName(items[0].fileName) then [items[0].nodeId.s] else [])
      + PngNodes(items[1..])
  }

  /** `svg_nodes`: the string node ids of render items named `.svg`, in order. */
  function SvgNodes(items: seq<Item>): (r: seq<string>)
  {
    if items == [] then []
    else
      (if HasStringNode(items[0]) && IsSvgName(items[0].fileName) then [items[0].nodeId.s] else [])
      + SvgNodes(items[1..])
  }

  /** The string node ids of all render items, in order. */
  function StringNodes(items: seq<Item>): seq<string> {
    if items == [] then []
    else (if HasStringNode(items[0]) then [items[0].nodeId.s] else []) + StringNodes(items[1..])
  }

  /** A render item with a string node id is sent as an SVG when its name ends with
      `.svg`, and as a PNG otherwise. */
  lemma {:induction false} NodeLands(items: seq<Item>, k: nat)
    requires k < |items| && HasStringNode(items[k])
    ensures IsSvgName(items[k].fileName) ==> items[k].nodeId.s in SvgNodes(items)
    ensures !IsSvgName(items[k].fileName) ==> items[k].nodeId.s in PngNodes(items)
  {
    if k > 0 {
      assert items[1..][k - 1] == items[k];
      NodeLands(items[1..], k - 1);
    }
  }

  /** Every string node id lands in exactly one of the two lists: together they hold
      the ids of all render items, each as often as it occurs. */
  lemma {:induction false} NodesPartition(items: seq<Item>)
    ensures multiset(PngNodes(items)) + multiset(SvgNodes(items)) == multiset(StringNodes(items))
    ensures |PngNodes(items)| + |SvgNodes(items)| == |StringNodes(items)|
  {
    if items != [] {
      NodesPartition(items[1..]);
    }
  }
}
