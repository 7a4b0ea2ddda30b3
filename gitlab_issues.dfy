/** The request parts that the GitLab issue command line builds: the query of
    `list` and `list-milestones`, and the JSON bodies of `create` and `update`.
    The option values are what argparse leaves, with a repeatable option that
    was never given as the empty sequence. */
module GitlabIssues {
  import opened Wrappers
  import opened Text
  import opened Json
  import opened Gitlab

  /** A string option that is sent only when it is truthy (`if args.x:`). */
  function NonEmpty(s: Option<string>): Option<string> {
    if s.Some? && s.value != [] then s else None
  }

  function JStrOpt(s: Option<string>): Option<Json> {
    if s.Some? then Some(JStr(s.value)) else None
  }

  // ---------------------------------------------------------------------------
  // list

  /** The options of `list`, in the order of its argument parser. */
  datatype ListArgs = ListArgs(
    projectId: Option<string>, assigneeId: Option<string>, assigneeUsernames: seq<string>,
    authorId: Option<string>, authorUsername: Option<string>, confidential: Option<bool>,
    createdAfter: Option<string>, createdBefore: Option<string>, dueDate: Option<string>,
    labels: seq<string>, milestone: Option<string>, issueType: Option<string>,
    iterationId: Option<string>, scope: Option<string>, search: Option<string>,
    state: Option<string>, updatedAfter: Option<string>, updatedBefore: Option<string>,
    weight: Option<int>, myReactionEmoji: Option<string>, orderBy: Option<string>,
    sort: Option<string>, withLabelsDetails: Option<bool>, page: Option<int>,
    perPage: Option<int>, extra: seq<string>)

  const AssigneeKey := "assignee_username[]"

  /** The `add` calls before the assignee usernames. */
  function Lead(a: ListArgs): seq<(string, Option<string>)> {
    [("assignee_id", a.assigneeId)]
  }

  /** The `add` calls after the assignee usernames, in order. */
  function Rest(a: ListArgs): seq<(string, Option<string>)> {
    [("author_id", a.authorId), ("author_username", a.authorUsername),
     ("confidential", BoolOpt(a.confidential)),
     ("created_after", a.createdAfter), ("created_before", a.createdBefore),
     ("due_date", a.dueDate), ("labels", LabelsOpt(a.labels)),
     ("milestone", a.milestone), ("issue_type", a.issueType),
     ("iteration_id", a.iterationId), ("scope", a.scope), ("search", a.search),
     ("state", a.state), ("updated_after", a.updatedAfter),
     ("updated_before", a.updatedBefore), ("weight", IntOpt(a.weight)),
     ("my_reaction_emoji", a.myReactionEmoji), ("order_by", a.orderBy),
     ("sort", a.sort), ("with_labels_details", BoolOpt(a.withLabelsDetails)),
     ("page", IntOpt(a.page)), ("per_page", IntOpt(a.perPage))]
  }

  /** Every single-valued option of `list`. */
  function ListOptions(a: ListArgs): seq<(string, Option<string>)> {
    Lead(a) + Rest(a)
  }

  /** The path of `list`: project issues when a project id is given, all visible issues otherwise. */
  function ListPath(projectId: Option<string>): (r: string)
    ensures r == "/issues" <==> projectId.None? || projectId.value == []
    ensures projectId.Some? && projectId.value != [] ==> StartsWith(r, "/projects/")
  {
    if projectId.Some? && projectId.value != [] then
      var r := "/projects/" + EncodeProjectId(projectId.value) + "/issues";
      assert |r| > |"/issues"|;
      assert r[..|"/projects/"|] == "/projects/";
      r
    else "/issues"
  }

  /** The query of `list` before the `--param` extras. */
  function ListQuery(a: ListArgs): seq<(string, string)> {
    Present(Lead(a)) + Each(AssigneeKey, a.assigneeUsernames) + Present(Rest(a))
  }

  /** The whole query of `list`, or the error of the first bad `--param`. */
  function ListParams(a: ListArgs): Result<seq<(string, string)>> {
    match ParseParams(a.extra)
    case Err(e) => Err(e)
    case Ok(kvs) => Ok(ListQuery(a) + kvs)
  }

  /** `cmd_list` filling its `params` list. */
  method BuildListParams(a: ListArgs) returns (r: Result<seq<(string, string)>>)
    ensures r == ListParams(a)
  {
    var params := AddAll([], Lead(a));
    params := AppendEach(params, AssigneeKey, a.assigneeUsernames);
    params := AddAll(params, Rest(a));
    assert params == ListQuery(a);
    r := AppendParams(params, a.extra);
  }

  /** None of the single-valued options is named like the username pairs. */
  lemma OptionNamesDiffer(a: ListArgs)
    ensures forall i :: 0 <= i < |Lead(a)| ==> Lead(a)[i].0 != AssigneeKey
    ensures forall i :: 0 <= i < |Rest(a)| ==> Rest(a)[i].0 != AssigneeKey
  {
    assert "with_labels_details"[0] != AssigneeKey[0];
  }

  /** The query holds a pair for an option exactly when the option was given,
      with the option's text as value (`true`/`false` for the switches, the
      digits for the numbers, the labels joined with `,`). */
  lemma ListQueryMembers(a: ListArgs, k: string, v: string)
    requires k != AssigneeKey
    ensures (k, v) in ListQuery(a) <==> (k, Some(v)) in ListOptions(a)
  {
    PresentMembers(Lead(a));
    PresentMembers(Rest(a));
    assert (k, v) !in Each(AssigneeKey, a.assigneeUsernames);
    assert (k, Some(v)) in ListOptions(a) <==> (k, Some(v)) in Lead(a) || (k, Some(v)) in Rest(a);
  }

  /** Each assignee username is its own `assignee_username[]` pair, in order,
      and no other pair has that name. */
  lemma ListAssignees(a: ListArgs)
    ensures Values(ListQuery(a), AssigneeKey) == a.assigneeUsernames
  {
    OptionNamesDiffer(a);
    ValuesOfOthers(Lead(a), AssigneeKey);
    ValuesOfOthers(Rest(a), AssigneeKey);
    ValuesOfEach(AssigneeKey, a.assigneeUsernames);
    ValuesAppend(Present(Lead(a)), Each(AssigneeKey, a.assigneeUsernames), AssigneeKey);
    ValuesAppend(Present(Lead(a)) + Each(AssigneeKey, a.assigneeUsernames), Present(Rest(a)), AssigneeKey);
  }

  /** The single-valued options after the usernames all have distinct names. */
  lemma RestOnce(a: ListArgs, i: nat)
    requires i == 2 || i == 6 || i == 19
    ensures i < |Rest(a)|
    ensures forall j :: 0 <= j < |Rest(a)| && j != i ==> Rest(a)[j].0 != Rest(a)[i].0
  {
    assert "iteration_id"[0] != "confidential"[0];
    assert "with_labels_details"[0] != AssigneeKey[0];
  }

  /** The pairs of the usernames and of `assignee_id` are named otherwise. */
  lemma NotInLead(a: ListArgs, k: string, v: string)
    requires k != AssigneeKey && k != "assignee_id"
    ensures (k, v) in ListQuery(a) <==> (k, v) in Present(Rest(a))
  {
    PresentMembers(Lead(a));
    assert (k, v) !in Each(AssigneeKey, a.assigneeUsernames);
  }

  /** A given switch is sent as `true` or `false`; a switch left unset is not sent. */
  lemma ListSwitches(a: ListArgs, v: string)
    ensures a.confidential.Some? ==> ("confidential", BoolText(a.confidential.value)) in ListQuery(a)
    ensures a.confidential.None? ==> ("confidential", v) !in ListQuery(a)
    ensures a.withLabelsDetails.Some? ==> ("with_labels_details", BoolText(a.withLabelsDetails.value)) in ListQuery(a)
    ensures a.withLabelsDetails.None? ==> ("with_labels_details", v) !in ListQuery(a)
  {
    RestOnce(a, 2);
    PresentOnly(Rest(a), 2, v);
    NotInLead(a, "confidential", BoolText(a.confidential.GetOr(false)));
    NotInLead(a, "confidential", v);
    RestOnce(a, 19);
    PresentOnly(Rest(a), 19, v);
    NotInLead(a, "with_labels_details", BoolText(a.withLabelsDetails.GetOr(false)));
    NotInLead(a, "with_labels_details", v);
  }

  /** Labels are sent once, joined with `,`, and only when some were given. */
  lemma ListLabels(a: ListArgs, v: string)
    ensures a.labels != [] ==> ("labels", Join(a.labels, ",")) in ListQuery(a)
    ensures a.labels == [] ==> ("labels", v) !in ListQuery(a)
  {
    RestOnce(a, 6);
    PresentOnly(Rest(a), 6, v);
    NotInLead(a, "labels", Join(a.labels, ","));
    NotInLead(a, "labels", v);
  }

  /** The extras fail the command exactly when one is malformed; otherwise they
      follow the options, each split at its first `=`. */
  lemma ListExtras(a: ListArgs)
    ensures ListParams(a).Ok? <==> forall i :: 0 <= i < |a.extra| ==> ParseParam(a.extra[i]).Ok?
    ensures ListParams(a).Ok? ==> ListParams(a).value[..|ListQuery(a)|] == ListQuery(a)
    ensures ListParams(a).Ok? ==> |ListParams(a).value| == |ListQuery(a)| + |a.extra|
    ensures ListParams(a).Ok? ==> forall i :: 0 <= i < |a.extra| ==>
      ListParams(a).value[|ListQuery(a)| + i] == ParseParam(a.extra[i]).value
  {
    ParseParamsSpec(a.extra);
    if ListParams(a).Ok? {
      var q := ListQuery(a);
      var kvs := ParseParams(a.extra).value;
      assert (q + kvs)[..|q|] == q;
      assert forall i :: 0 <= i < |kvs| ==> (q + kvs)[|q| + i] == kvs[i];
    }
  }

  // ---------------------------------------------------------------------------
  // create

  /** The options of `create`; `description` is the text already read from the
      option, the file or standard input. */
  datatype CreateArgs = CreateArgs(
    title: string, description: Option<string>, assigneeIds: seq<int>,
    milestoneId: Option<string>, labels: seq<string>, issueType: Option<string>)

  function IntArray(ns: seq<int>): (r: Json)
    ensures r.JArr? && |r.items| == |ns|
    ensures forall i :: 0 <= i < |ns| ==> r.items[i] == JInt(ns[i])
  {
    if ns == [] then JArr([]) else JArr(IntArray(ns[..|ns| - 1]).items + [JInt(ns[|ns| - 1])])
  }

  /** A non-empty list of ids, or nothing. */
  function IdsOpt(ns: seq<int>): Option<Json> {
    if ns != [] then Some(IntArray(ns)) else None
  }

  function CreateOptions(c: CreateArgs): seq<(string, Option<Json>)> {
    [("description", JStrOpt(c.description)), ("assignee_ids", IdsOpt(c.assigneeIds)),
     ("milestone_id", JStrOpt(c.milestoneId)), ("labels", JStrOpt(LabelsOpt(c.labels))),
     ("issue_type", JStrOpt(NonEmpty(c.issueType)))]
  }

  /** The body of `create`: the title, then the options that were given. */
  function CreatePayload(c: CreateArgs): seq<(string, Json)> {
    [("title", JStr(c.title))] + Present(CreateOptions(c))
  }

  /** `cmd_create` filling its `payload` dict. */
  method BuildCreatePayload(c: CreateArgs) returns (payload: seq<(string, Json)>)
    ensures payload == CreatePayload(c)
  {
    payload := AddAll([("title", JStr(c.title))], CreateOptions(c));
  }

  /** The body always has the title first, and reads back each option as given:
      the ids as a list of numbers, the labels joined with `,`, an empty issue
      type as absent. */
  lemma CreateFields(c: CreateArgs)
    ensures Keys(CreatePayload(c))[0] == "title"
    ensures Lookup(CreatePayload(c), "title") == Some(JStr(c.title))
    ensures Lookup(CreatePayload(c), "description") == JStrOpt(c.description)
    ensures Lookup(CreatePayload(c), "assignee_ids") == IdsOpt(c.assigneeIds)
    ensures Lookup(CreatePayload(c), "milestone_id") == JStrOpt(c.milestoneId)
    ensures Lookup(CreatePayload(c), "labels") == (if c.labels != [] then Some(JStr(Join(c.labels, ","))) else None)
    ensures Lookup(CreatePayload(c), "issue_type") ==
      (if c.issueType.Some? && c.issueType.value != [] then Some(JStr(c.issueType.value)) else None)
  {
    var opts := CreateOptions(c);
    assert DistinctNames(opts);
    var head := [("title", JStr(c.title))];
    assert CreatePayload(c) == head + Present(opts);
    forall i | 0 <= i < |opts| ensures Lookup(CreatePayload(c), opts[i].0) == opts[i].1 {
      PresentLookup(opts, i);
      LookupAppend(head, Present(opts), opts[i].0);
    }
    assert opts[0].0 == "description" && opts[1].0 == "assignee_ids" && opts[2].0 == "milestone_id";
    assert opts[3].0 == "labels" && opts[4].0 == "issue_type";
  }

  // ---------------------------------------------------------------------------
  // update

  /** The options of `update`; `description` as for `create`. */
  datatype UpdateArgs = UpdateArgs(
    title: Option<string>, description: Option<string>, assigneeIds: seq<int>,
    confidential: Option<bool>, discussionLocked: Option<bool>, dueDate: Option<string>,
    labels: seq<string>, milestoneId: Option<string>, stateEvent: Option<string>,
    weight: Option<int>, issueType: Option<string>)

  function JBoolOpt(b: Option<bool>): Option<Json> {
    if b.Some? then Some(JBool(b.value)) else None
  }

  function JIntOpt(n: Option<int>): Option<Json> {
    if n.Some? then Some(JInt(n.value)) else None
  }

  function UpdateOptions(u: UpdateArgs): seq<(string, Option<Json>)> {
    [("title", JStrOpt(u.title)), ("description", JStrOpt(u.description)),
     ("assignee_ids", IdsOpt(u.assigneeIds)), ("confidential", JBoolOpt(u.confidential)),
     ("discussion_locked", JBoolOpt(u.discussionLocked)), ("due_date", JStrOpt(u.dueDate)),
     ("labels", JStrOpt(LabelsOpt(u.labels))), ("milestone_id", JStrOpt(u.milestoneId)),
     ("state_event", JStrOpt(u.stateEvent)), ("weight", JIntOpt(u.weight)),
     ("issue_type", JStrOpt(u.issueType))]
  }

  /** The body of `update`: only the options that were given. */
  function UpdatePayload(u: UpdateArgs): seq<(string, Json)> {
    Present(UpdateOptions(u))
  }

  /** `cmd_update` filling its `payload` dict. */
  method BuildUpdatePayload(u: UpdateArgs) returns (payload: seq<(string, Json)>)
    ensures payload == UpdatePayload(u)
  {
    payload := AddAll([], UpdateOptions(u));
  }

  /** The body has a key for each given option and for nothing else, each
      reading back as given (switches as booleans, the weight as a number). */
  lemma UpdateFields(u: UpdateArgs)
    ensures forall i :: 0 <= i < |UpdateOptions(u)| ==>
      Lookup(UpdatePayload(u), UpdateOptions(u)[i].0) == UpdateOptions(u)[i].1
    ensures forall k :: k in Keys(UpdatePayload(u)) <==> k in GivenNames(UpdateOptions(u))
  {
    var opts := UpdateOptions(u);
    assert DistinctNames(opts);
    forall i | 0 <= i < |opts| ensures Lookup(UpdatePayload(u), opts[i].0) == opts[i].1 {
      PresentLookup(opts, i);
    }
    PresentKeysOf(opts);
  }

  /** An update with no options sends the empty body. */
  lemma UpdateNothing(u: UpdateArgs)
    requires u == UpdateArgs(None, None, [], None, None, None, [], None, None, None, None)
    ensures UpdatePayload(u) == []
  {
    PresentNone(UpdateOptions(u));
  }

  // ---------------------------------------------------------------------------
  // list-milestones

  datatype MilestoneArgs = MilestoneArgs(
    iids: seq<int>, state: Option<string>, title: Option<string>, search: Option<string>,
    includeParent: Option<bool>, page: Option<int>, perPage: Option<int>)

  /** `str(iid)` for each iid. */
  function IntStrs(ns: seq<int>): (r: seq<string>)
    ensures |r| == |ns|
    ensures forall i :: 0 <= i < |ns| ==> r[i] == IntToStr(ns[i])
  {
    if ns == [] then [] else IntStrs(ns[..|ns| - 1]) + [IntToStr(ns[|ns| - 1])]
  }

  function MilestoneOptions(m: MilestoneArgs): seq<(string, Option<string>)> {
    [("state", m.state), ("title", m.title), ("search", m.search),
     ("include_parent_milestones", BoolOpt(m.includeParent)),
     ("page", IntOpt(m.page)), ("per_page", IntOpt(m.perPage))]
  }

  /** The query of `list-milestones`. */
  function MilestoneParams(m: MilestoneArgs): seq<(string, string)> {
    Each("iids[]", IntStrs(m.iids)) + Present(MilestoneOptions(m))
  }

  /** `cmd_list_milestones` filling its `params` list. */
  method BuildMilestoneParams(m: MilestoneArgs) returns (params: seq<(string, string)>)
    ensures params == MilestoneParams(m)
  {
    var iids := [];
    for i := 0 to |m.iids|
      invariant iids == IntStrs(m.iids[..i])
    {
      assert m.iids[..i + 1][..i] == m.iids[..i];
      iids := iids + [IntToStr(m.iids[i])];
    }
    assert m.iids[..|m.iids|] == m.iids;
    params := AppendEach([], "iids[]", iids);
    params := AddAll(params, MilestoneOptions(m));
  }

  /** Each iid is its own `iids[]` pair, in order, written in decimal. */
  lemma MilestoneIids(m: MilestoneArgs)
    ensures Values(MilestoneParams(m), "iids[]") == IntStrs(m.iids)
  {
    ValuesOfEach("iids[]", IntStrs(m.iids));
    MilestoneNames(m);
    ValuesOfOthers(MilestoneOptions(m), "iids[]");
    ValuesAppend(Each("iids[]", IntStrs(m.iids)), Present(MilestoneOptions(m)), "iids[]");
  }

  lemma MilestoneNames(m: MilestoneArgs)
    ensures forall i :: 0 <= i < |MilestoneOptions(m)| ==> MilestoneOptions(m)[i].0 != "iids[]"
  {
  }

  /** The other pairs are exactly the given options. */
  lemma MilestoneOptionsSent(m: MilestoneArgs, k: string, v: string)
    requires k != "iids[]"
    ensures (k, v) in MilestoneParams(m) <==> (k, Some(v)) in MilestoneOptions(m)
  {
    PresentMembers(MilestoneOptions(m));
  }
}
