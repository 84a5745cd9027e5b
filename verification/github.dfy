/** The GitHub side of the system. Every REST and GraphQL call is an oracle:
    a total function from its arguments to `Got(result)` or `Threw`. The
    account table appears only as the set of users holding an access token,
    which is all `getUserOctokit` consults. */
module GitHub {
  import opened Base

  /** An entry of an issue's `labels`: a bare string or an object with an optional name. */
  datatype RawLabel = LabelString(text: string) | LabelObject(name: Option<string>)

  /** An item of `issues.listForRepo` (or of the pull request listing). */
  datatype RepoIssue = RepoIssue(
    number: nat,
    title: string,
    htmlUrl: string,
    labels: seq<RawLabel>,
    isPullRequest: bool)

  /** `source.issue` of a timeline event: the item that referenced the issue. */
  datatype SourceIssue = SourceIssue(
    number: Option<nat>,
    htmlUrl: Option<string>,
    isPullRequest: bool,
    draft: Option<bool>,
    login: Option<string>)

  datatype TimelineEvent = TimelineEvent(event: string, source: Option<SourceIssue>)

  /** An item of `pulls.list`. */
  datatype PullRequest = PullRequest(
    number: nat,
    htmlUrl: string,
    title: string,
    body: Option<string>,
    login: Option<string>,
    draft: Option<bool>)

  /** A node of `suggestedActors`. */
  datatype Actor = Actor(login: string, id: Option<string>)

  /** The fields of `issues.get` the system reads. */
  datatype IssueDetails = IssueDetails(title: string, htmlUrl: string, body: Option<string>, labels: seq<RawLabel>)

  /** The upstream state of an issue, as the state lookup reports it. */
  datatype UpstreamState = UpstreamState(state: string, closedAt: Option<int>)

  datatype Api = Api(
    /** Users whose GitHub account row carries an access token. */
    tokens: set<Id>,
    listIssues: (string, string) -> Fetch<seq<RepoIssue>>,
    listPullRequests: (string, string) -> Fetch<seq<RepoIssue>>,
    timeline: (string, string, nat) -> Fetch<seq<TimelineEvent>>,
    issueState: (string, string, nat) -> Fetch<UpstreamState>,
    suggestedActors: (string, string) -> Fetch<seq<Actor>>,
    issueNodeId: (string, string, nat) -> Fetch<string>,
    getIssue: (string, string, nat) -> Fetch<IssueDetails>,
    /** owner, repo, title, body, labels: the number of the created issue. */
    createIssue: (string, string, string, string, seq<string>) -> Fetch<nat>,
    /** assignable node id, actor id. */
    addAssignee: (string, string) -> Fetch<()>,
    listPulls: (string, string) -> Fetch<seq<PullRequest>>,
    getRepo: (string, string) -> Fetch<()>)

  /** `getUserOctokit` succeeds exactly for users holding a token. */
  predicate HasToken(api: Api, userId: Id) {
    userId in api.tokens
  }

  /** `typeof l === "string" ? l : l.name`, with a missing name read as the empty string. */
  function LabelName(l: RawLabel): string {
    match l
    case LabelString(s) => s
    case LabelObject(n) => n.GetOr("")
  }

  /** `labels?.map(name).filter(n => !!n)`: the non-empty label names, in order. */
  function LabelNames(ls: seq<RawLabel>): (r: seq<string>)
    ensures |r| <= |ls|
    ensures forall k :: 0 <= k < |r| ==> r[k] != ""
    ensures forall x :: x in r <==> x != "" && exists l :: l in ls && LabelName(l) == x
  {
    if ls == [] then []
    else
      var rest := LabelNames(ls[1..]);
      assert forall l :: l in ls[1..] ==> l in ls;
      assert forall l :: l in ls ==> l == ls[0] || l in ls[1..];
      if LabelName(ls[0]) != "" then [LabelName(ls[0])] + rest else rest
  }

  predicate NotPullRequest(i: RepoIssue) {
    !i.isPullRequest
  }

  /** `fetchRepoIssues`: throws without a token or when the listing throws;
      otherwise the listing with pull requests removed. */
  function FetchRepoIssues(api: Api, userId: Id, owner: string, repo: string): (r: Fetch<seq<RepoIssue>>)
    ensures r.Got? <==> HasToken(api, userId) && api.listIssues(owner, repo).Got?
    ensures r.Got? ==> forall k :: 0 <= k < |r.value| ==> !r.value[k].isPullRequest
    ensures r.Got? ==> forall i :: i in r.value <==> i in api.listIssues(owner, repo).value && !i.isPullRequest
  {
    if !HasToken(api, userId) then Threw
    else match api.listIssues(owner, repo)
      case Threw => Threw
      case Got(items) => Got(Filter(items, NotPullRequest))
  }

  /** `fetchRepoPullRequests`, whose body is not part of this model: like the
      issue listing, it reads with the user's token. */
  function FetchRepoPullRequests(api: Api, userId: Id, owner: string, repo: string): (r: Fetch<seq<RepoIssue>>)
    ensures r.Got? <==> HasToken(api, userId) && api.listPullRequests(owner, repo).Got?
    ensures r.Got? ==> r.value == api.listPullRequests(owner, repo).value
  {
    if !HasToken(api, userId) then Threw else api.listPullRequests(owner, repo)
  }

  /** `fetchIssueState`, whose body is not part of this model: it reads the
      issue's state with the user's token. */
  function FetchIssueState(api: Api, userId: Id, owner: string, repo: string, number: nat): (r: Fetch<UpstreamState>)
    ensures r.Got? <==> HasToken(api, userId) && api.issueState(owner, repo, number).Got?
    ensures r.Got? ==> r.value == api.issueState(owner, repo, number).value
  {
    if !HasToken(api, userId) then Threw else api.issueState(owner, repo, number)
  }

  /** The event shape the linked-PR check looks for. */
  predicate CrossReferencedPr(e: TimelineEvent) {
    e.event == "cross-referenced" && e.source.Some? && e.source.value.isPullRequest
  }

  /** `issueHasLinkedPR`: throws without a token; a timeline error reads as "no linked PR". */
  function IssueHasLinkedPR(api: Api, userId: Id, owner: string, repo: string, number: nat): (r: Fetch<bool>)
    ensures r.Threw? <==> !HasToken(api, userId)
    ensures r.Got? && api.timeline(owner, repo, number).Threw? ==> !r.value
    ensures r.Got? && api.timeline(owner, repo, number).Got? ==>
      (r.value <==> exists k :: 0 <= k < |api.timeline(owner, repo, number).value| &&
                                CrossReferencedPr(api.timeline(owner, repo, number).value[k]))
  {
    if !HasToken(api, userId) then Threw
    else match api.timeline(owner, repo, number)
      case Threw => Got(false)
      case Got(events) => Got(Any(events, CrossReferencedPr))
  }

  /** `validateRepoAccess`: throws without a token; otherwise true iff the lookup did not throw. */
  function ValidateRepoAccess(api: Api, userId: Id, owner: string, repo: string): (r: Fetch<bool>)
    ensures r.Threw? <==> !HasToken(api, userId)
    ensures r.Got? ==> (r.value <==> api.getRepo(owner, repo).Got?)
  {
    if !HasToken(api, userId) then Threw
    else Got(api.getRepo(owner, repo).Got?)
  }
}
