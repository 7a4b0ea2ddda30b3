/** The decisions and request parts of the GitLab merge-request command line:
    which request `get` and `diffs` make and what they print of the answer, the
    JSON body of `create`, and the queries of `list` and `discussions`. The
    responses of the GitLab API are parameters. */
module GitlabMergeRequests {
  import opened Wrappers
  import opened Text
  import opened Json
  import opened Gitlab
  import GitlabIssues
  import PyRepr

  /** A string option that is truthy (`if args.x:`). */
  predicate Given(s: Option<string>) {
    s.Some? && s.value != []
  }

  /** A request below the API base: its path and its query pairs. */
  datatype Request = Request(path: string, params: seq<(string, string)>)

  function MergeRequests(projectId: string): string {
    "/projects/" + EncodeProjectId(projectId) + "/merge_requests"
  }

  /** The lookup of merge requests by source branch. `urlencode` writes a
      missing branch as the text `None`. */
  function BranchLookup(projectId: string, branch: Option<string>): (r: Request)
    ensures r.params == [("source_branch", branch.GetOr("None"))]
  {
    Request(MergeRequests(projectId), [("source_branch", branch.GetOr("None"))])
  }

  /** Whether a branch lookup found something: a non-empty list. */
  predicate Found(data: Json) {
    data.JArr? && data.items != []
  }

  // ---------------------------------------------------------------------------
  // get

  /** The request of `get`: by id when an id is given, by source branch
      otherwise, and an error when neither is given. */
  function GetRequest(projectId: string, mrId: Option<string>, branch: Option<string>): (r: Result<Request>)
    ensures r.Err? <==> !Given(mrId) && !Given(branch)
    ensures Given(mrId) ==> r.value.path == MergeRequests(projectId) + "/" + mrId.value && r.value.params == []
    ensures !Given(mrId) && Given(branch) ==> r.value == BranchLookup(projectId, branch)
  {
    if !Given(mrId) && !Given(branch) then Err("[ERROR] Provide --merge-request-id or --source-branch.")
    else if Given(mrId) then Ok(Request(MergeRequests(projectId) + "/" + mrId.value, []))
    else Ok(BranchLookup(projectId, branch))
  }

  /** What `get` prints after a branch lookup: the first merge request found,
      or `null`. */
  function BranchMatch(data: Json): (r: Json)
    ensures Found(data) ==> r == data.items[0]
    ensures !Found(data) ==> r == JNull
  {
    if Found(data) then data.items[0] else JNull
  }

  /** `get` prints `null` only when nothing was found or the first match is itself `null`. */
  lemma BranchMatchNull(data: Json)
    ensures BranchMatch(data) == JNull <==> !Found(data) || data.items[0] == JNull
  {
  }

  // ---------------------------------------------------------------------------
  // diffs

  /** The merge request `diffs` reads: the given id, or the `iid` of the first
      merge request of the branch lookup `lookup`. No match is an error, and so
      is a first match that is not a dict (Python's `.get` fails on it). */
  function DiffsIid(mrId: Option<string>, lookup: Json): (r: Result<string>)
    ensures Given(mrId) ==> r == Ok(mrId.value)
    ensures !Given(mrId) && !Found(lookup) ==> r.Err?
    ensures !Given(mrId) && Found(lookup) ==> (r.Ok? <==> lookup.items[0].JObj?)
    ensures !Given(mrId) && Found(lookup) && lookup.items[0].JObj? ==>
      r == Ok(PyRepr.PyStr(GetOrNull(lookup.items[0], "iid")))
    ensures !Given(mrId) && Found(lookup) && lookup.items[0].JObj? && GetOrNull(lookup.items[0], "iid").JInt? ==>
      r == Ok(IntToStr(GetOrNull(lookup.items[0], "iid").n))
  {
    if Given(mrId) then Ok(mrId.value)
    else if !Found(lookup) then Err("[ERROR] No merge request found for the given --source-branch.")
    else if !lookup.items[0].JObj? then Err("AttributeError: 'get'")
    else Ok(PyRepr.PyStr(GetOrNull(lookup.items[0], "iid")))
  }

  /** A branch lookup whose first match has no `iid` reads the changes of merge request `None`. */
  lemma DiffsMissingIid(lookup: Json)
    requires Found(lookup) && lookup.items[0] == JObj([])
    ensures DiffsIid(None, lookup) == Ok("None")
  {
  }

  /** The changes request: the `view` option is sent only when given. */
  function DiffsRequest(projectId: string, iid: string, view: Option<string>): (r: Request)
    ensures r.path == MergeRequests(projectId) + "/" + iid + "/changes"
    ensures |r.params| <= 1
    ensures r.params != [] <==> Given(view)
    ensures Given(view) ==> r.params[0] == ("view", view.value)
  {
    Request(MergeRequests(projectId) + "/" + iid + "/changes", if Given(view) then [("view", view.value)] else [])
  }

  /** What `diffs` prints: the `changes` of a dict that has them, the whole answer otherwise. */
  function DiffsOutput(obj: Json): (r: Json)
    ensures obj.JObj? && "changes" in Keys(obj.fields) ==> Some(r) == Lookup(obj.fields, "changes")
    ensures !(obj.JObj? && "changes" in Keys(obj.fields)) ==> r == obj
  {
    match Get(obj, "changes")
    case Some(c) => c
    case None => obj
  }

  // ---------------------------------------------------------------------------
  // discussions

  /** The query of `discussions`: a pair for each page option that was given,
      with its digits, `page` first. */
  function DiscussionParams(page: Option<int>, perPage: Option<int>): (r: seq<(string, string)>)
    ensures |r| == (if page.Some? then 1 else 0) + (if perPage.Some? then 1 else 0)
    ensures page.Some? ==> r[0] == ("page", IntToStr(page.value))
    ensures perPage.Some? ==> r[|r| - 1] == ("per_page", IntToStr(perPage.value))
  {
    (if page.Some? then [("page", IntToStr(page.value))] else [])
    + (if perPage.Some? then [("per_page", IntToStr(perPage.value))] else [])
  }

  // ---------------------------------------------------------------------------
  // create

  /** The options of `create`; `description` is the text already read from the
      option, the file or standard input. */
  datatype CreateArgs = CreateArgs(
    title: string, sourceBranch: string, targetBranch: string, description: Option<string>,
    targetProjectId: Option<int>, assigneeIds: seq<int>, reviewerIds: seq<int>, labels: seq<string>,
    draft: Option<bool>, allowCollaboration: Option<bool>, removeSourceBranch: Option<bool>,
    squash: Option<bool>)

  function Required(c: CreateArgs): seq<(string, Json)> {
    [("title", JStr(c.title)), ("source_branch", JStr(c.sourceBranch)), ("target_branch", JStr(c.targetBranch))]
  }

  function CreateOptions(c: CreateArgs): seq<(string, Option<Json>)> {
    [("description", GitlabIssues.JStrOpt(c.description)),
     ("target_project_id", GitlabIssues.JIntOpt(c.targetProjectId)),
     ("assignee_ids", GitlabIssues.IdsOpt(c.assigneeIds)),
     ("reviewer_ids", GitlabIssues.IdsOpt(c.reviewerIds)),
     ("labels", GitlabIssues.JStrOpt(LabelsOpt(c.labels))),
     ("draft", GitlabIssues.JBoolOpt(c.draft)),
     ("allow_collaboration", GitlabIssues.JBoolOpt(c.allowCollaboration)),
     ("remove_source_branch", GitlabIssues.JBoolOpt(c.removeSourceBranch)),
     ("squash", GitlabIssues.JBoolOpt(c.squash))]
  }

  /** The body of `create`: the three required fields, then the options that were given. */
  function CreatePayload(c: CreateArgs): seq<(string, Json)> {
    Required(c) + Present(CreateOptions(c))
  }

  /** `cmd_create` filling its `payload` dict. */
  method BuildCreatePayload(c: CreateArgs) returns (payload: seq<(string, Json)>)
    ensures payload == CreatePayload(c)
  {
    payload := AddAll(Required(c), CreateOptions(c));
  }

  /** Reading an option's key from a payload: the option's value, when the
      option's name is not one of the payload's fixed keys. */
  lemma OptionLookup(head: seq<(string, Json)>, opts: seq<(string, Option<Json>)>, i: nat)
    requires i < |opts| && DistinctNames(opts) && opts[i].0 !in Keys(head)
    ensures Lookup(head + Present(opts), opts[i].0) == opts[i].1
  {
    PresentLookup(opts, i);
    LookupAppend(head, Present(opts), opts[i].0);
  }

  lemma CreateDistinct(c: CreateArgs)
    ensures DistinctNames(CreateOptions(c))
    ensures forall i :: 0 <= i < |CreateOptions(c)| ==> CreateOptions(c)[i].0 !in Keys(Required(c))
  {
  }

  /** The fixed keys of a payload come first and read back as given, whatever follows them. */
  lemma RequiredFirst(c: CreateArgs, tail: seq<(string, Json)>)
    ensures Keys(Required(c) + tail)[..3] == ["title", "source_branch", "target_branch"]
    ensures Lookup(Required(c) + tail, "title") == Some(JStr(c.title))
    ensures Lookup(Required(c) + tail, "source_branch") == Some(JStr(c.sourceBranch))
    ensures Lookup(Required(c) + tail, "target_branch") == Some(JStr(c.targetBranch))
  {
    var head := Required(c);
    KeysAppend(head, tail);
    assert "source_branch"[0] != "target_branch"[0];
    Lookup3("title", JStr(c.title), "source_branch", JStr(c.sourceBranch), "target_branch", JStr(c.targetBranch));
    LookupAppend(head, tail, "title");
    LookupAppend(head, tail, "source_branch");
    LookupAppend(head, tail, "target_branch");
  }

  /** The body starts with the title and the two branches, as given. */
  lemma CreateRequired(c: CreateArgs)
    ensures Keys(CreatePayload(c))[..3] == ["title", "source_branch", "target_branch"]
    ensures Lookup(CreatePayload(c), "title") == Some(JStr(c.title))
    ensures Lookup(CreatePayload(c), "source_branch") == Some(JStr(c.sourceBranch))
    ensures Lookup(CreatePayload(c), "target_branch") == Some(JStr(c.targetBranch))
  {
    RequiredFirst(c, Present(CreateOptions(c)));
  }

  /** The body reads back each option as given: the switches as booleans when
      set and absent when unset, the id lists only when non-empty, the labels
      joined with `,`. */
  lemma CreateFields(c: CreateArgs)
    ensures Lookup(CreatePayload(c), "description") == GitlabIssues.JStrOpt(c.description)
    ensures Lookup(CreatePayload(c), "assignee_ids").Some? <==> c.assigneeIds != []
    ensures Lookup(CreatePayload(c), "reviewer_ids").Some? <==> c.reviewerIds != []
    ensures Lookup(CreatePayload(c), "labels") == (if c.labels != [] then Some(JStr(Join(c.labels, ","))) else None)
    ensures Lookup(CreatePayload(c), "draft") == (if c.draft.Some? then Some(JBool(c.draft.value)) else None)
    ensures Lookup(CreatePayload(c), "allow_collaboration") ==
      (if c.allowCollaboration.Some? then Some(JBool(c.allowCollaboration.value)) else None)
    ensures Lookup(CreatePayload(c), "remove_source_branch") ==
      (if c.removeSourceBranch.Some? then Some(JBool(c.removeSourceBranch.value)) else None)
    ensures Lookup(CreatePayload(c), "squash") == (if c.squash.Some? then Some(JBool(c.squash.value)) else None)
  {
    var opts := CreateOptions(c);
    var head := Required(c);
    CreateDistinct(c);
    OptionLookup(head, opts, 0);
    OptionLookup(head, opts, 2);
    OptionLookup(head, opts, 3);
    OptionLookup(head, opts, 4);
    OptionLookup(head, opts, 5);
    OptionLookup(head, opts, 6);
    OptionLookup(head, opts, 7);
    OptionLookup(head, opts, 8);
  }

  // ---------------------------------------------------------------------------
  // list

  /** The options of `list`, in the order of its argument parser. */
  datatype ListArgs = ListArgs(
    assigneeId: Option<string>, assigneeUsername: Option<string>, authorId: Option<string>,
    authorUsername: Option<string>, reviewerId: Option<string>, reviewerUsername: Option<string>,
    createdAfter: Option<string>, createdBefore: Option<string>, updatedAfter: Option<string>,
    updatedBefore: Option<string>, labels: seq<string>, milestone: Option<string>,
    scope: Option<string>, search: Option<string>, state: Option<string>, wip: Option<string>,
    withMergeStatusRecheck: Option<string>, orderBy: Option<string>, sort: Option<string>,
    view: Option<string>, myReactionEmoji: Option<string>, sourceBranch: Option<string>,
    targetBranch: Option<string>, page: Option<int>, perPage: Option<int>, extra: seq<string>)

  /** The `add` calls of `cmd_list`, in order. */
  function ListOptions(a: ListArgs): seq<(string, Option<string>)> {
    [("assignee_id", a.assigneeId), ("assignee_username", a.assigneeUsername),
     ("author_id", a.authorId), ("author_username", a.authorUsername),
     ("reviewer_id", a.reviewerId), ("reviewer_username", a.reviewerUsername),
     ("created_after", a.createdAfter), ("created_before", a.createdBefore),
     ("updated_after", a.updatedAfter), ("updated_before", a.updatedBefore),
     ("labels", LabelsOpt(a.labels)), ("milestone", a.milestone), ("scope", a.scope),
     ("search", a.search), ("state", a.state), ("wip", a.wip),
     ("with_merge_status_recheck", a.withMergeStatusRecheck), ("order_by", a.orderBy),
     ("sort", a.sort), ("view", a.view), ("my_reaction_emoji", a.myReactionEmoji),
     ("source_branch", a.sourceBranch), ("target_branch", a.targetBranch),
     ("page", IntOpt(a.page)), ("per_page", IntOpt(a.perPage))]
  }

  /** The whole query of `list`, or the error of the first bad `--param`. */
  function ListParams(a: ListArgs): Result<seq<(string, string)>> {
    match ParseParams(a.extra)
    case Err(e) => Err(e)
    case Ok(kvs) => Ok(Present(ListOptions(a)) + kvs)
  }

  /** `cmd_list` filling its `params` list. */
  method BuildListParams(a: ListArgs) returns (r: Result<seq<(string, string)>>)
    ensures r == ListParams(a)
  {
    var params := AddAll([], ListOptions(a));
    assert params == Present(ListOptions(a));
    r := AppendParams(params, a.extra);
  }

  /** Before the extras, the query holds a pair exactly for each option that
      was given, with the option's text as value. */
  lemma ListOptionsSent(a: ListArgs, k: string, v: string)
    ensures (k, v) in Present(ListOptions(a)) <==> (k, Some(v)) in ListOptions(a)
  {
    PresentMembers(ListOptions(a));
  }

  /** Labels are sent once, joined with `,`, and only when some were given. */
  lemma ListLabels(a: ListArgs, v: string)
    ensures a.labels != [] ==> ("labels", Join(a.labels, ",")) in Present(ListOptions(a))
    ensures a.labels == [] ==> ("labels", v) !in Present(ListOptions(a))
  {
    PresentOnly(ListOptions(a), 10, v);
  }

  /** The extras fail the command exactly when one is malformed, and otherwise
      follow the options in order, each split at its first `=`. */
  lemma ListExtras(a: ListArgs)
    ensures ListParams(a).Ok? <==> forall i :: 0 <= i < |a.extra| ==> ParseParam(a.extra[i]).Ok?
    ensures ListParams(a).Ok? ==> ListParams(a).value == Present(ListOptions(a)) + ParseParams(a.extra).value
  {
    ParseParamsSpec(a.extra);
  }
}
