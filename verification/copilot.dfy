/** The auto-fix state machine: assigning a tracked issue to the Copilot coding
    agent (directly on an owned repository, through a mirrored issue on the
    user's fork otherwise), and polling for the pull request it opens.

    Each store operation is specified by a pure step function on the row it
    reads (`TriggerStep`, `PollStep`); the methods perform the same
    read-then-write sequence on the store and are proved equal to the steps. */
module Copilot {
  import opened Base
  import opened Text
  import opened Records
  import opened GitHub
  import opened Db
  import opened Notifications

  /** Two hours, in milliseconds. */
  const GeneratingTimeoutMs: int := 2 * 60 * 60 * 1000

  // ---------------------------------------------------------------- actors

  predicate IsCopilotActor(a: Actor) {
    ToLower(a.login) == "copilot"
  }

  /** `getCopilotActorId`: the id of the first suggested actor whose login is
      `copilot` in any case, when that id is non-empty; nothing when the query
      throws. */
  function CopilotActorId(api: Api, owner: string, repo: string): (r: Option<string>)
    ensures r.Some? ==> r.value != ""
    ensures api.suggestedActors(owner, repo).Threw? ==> r.None?
    ensures api.suggestedActors(owner, repo).Got? ==>
      var actors := api.suggestedActors(owner, repo).value;
      (r.Some? <==> exists k :: 0 <= k < |actors| && IsCopilotActor(actors[k]) && Truthy(actors[k].id) &&
                               forall j :: 0 <= j < k ==> !IsCopilotActor(actors[j]))
      && (r.Some? ==> exists k :: 0 <= k < |actors| && IsCopilotActor(actors[k]) && actors[k].id == r)
  {
    match api.suggestedActors(owner, repo)
    case Threw => None
    case Got(actors) =>
      match FirstMatch(actors, IsCopilotActor)
      case None => None
      case Some(k) => if Truthy(actors[k].id) then actors[k].id else None
  }

  /** `getIssueNodeId`: the node id, or nothing when the query throws. */
  function IssueNodeId(api: Api, owner: string, repo: string, number: nat): (r: Option<string>)
    ensures r.None? <==> api.issueNodeId(owner, repo, number).Threw?
    ensures r.Some? ==> r.value == api.issueNodeId(owner, repo, number).value
  {
    match api.issueNodeId(owner, repo, number)
    case Threw => None
    case Got(id) => Some(id)
  }

  // ------------------------------------------------------------ assignment

  /** A mutation sent to GitHub, with the repository it targets. */
  datatype Write =
    | OpenedIssue(owner: string, repo: string, title: string, body: string, labels: seq<string>)
    | Assigned(owner: string, repo: string, number: nat, actorId: string)

  datatype AssignResult = AssignResult(success: bool, forkIssueNumber: Option<nat>)

  /** The outcome of `assignIssueToCopilot` (`Threw` when it rejects) and the
      mutations it sent. */
  datatype Assignment = Assignment(result: Fetch<AssignResult>, writes: seq<Write>)

  const NotAssigned := AssignResult(false, None)

  /** The title of the issue mirrored on the fork. */
  function ForkIssueTitle(number: nat, upstreamTitle: string): (s: string)
    ensures UpstreamMarker(number) <= s
    ensures |s| == |UpstreamMarker(number)| + 1 + |upstreamTitle| && s[|UpstreamMarker(number)|] == ' '
    ensures s[|UpstreamMarker(number)| + 1..] == upstreamTitle
  {
    UpstreamMarker(number) + " " + upstreamTitle
  }

  /** `[Upstream #N]`. */
  function UpstreamMarker(number: nat): string {
    "[Upstream #" + NatToString(number) + "]"
  }

  /** The body of the issue mirrored on the fork: a link to the upstream issue,
      then its description or a placeholder. */
  function ForkIssueBody(upstream: IssueDetails): string {
    "This issue tracks the fix for upstream issue: " + upstream.htmlUrl + "\n\n---\n\n"
      + (if Truthy(upstream.body) then upstream.body.value else "No description provided.")
  }

  /** `assignIssueToCopilot`. The token lookup is outside the `try`, so a
      missing token rejects; every later failure is caught and reported as
      `success: false`. */
  function AssignIssueToCopilot(api: Api, userId: Id, owner: string, repo: string, number: nat,
                                isOwned: bool, forkOwner: Option<string>): (a: Assignment)
    ensures a.result.Threw? <==> !HasToken(api, userId)
    ensures a.result.Threw? ==> a.writes == []
    // owned: only the upstream issue is touched, and no fork issue is reported
    ensures isOwned ==> forall k :: 0 <= k < |a.writes| ==>
      a.writes[k].Assigned? && a.writes[k].owner == owner && a.writes[k].repo == repo && a.writes[k].number == number
    ensures isOwned && a.result.Got? ==> a.result.value.forkIssueNumber.None?
    // not owned, no fork: nothing happens
    ensures !isOwned && !Truthy(forkOwner) && a.result.Got? ==> a.result.value == NotAssigned && a.writes == []
    // not owned: every mutation targets the fork, the mirrored issue carries the upstream marker
    ensures !isOwned && |a.writes| > 0 ==> Truthy(forkOwner)
    ensures !isOwned ==> forall k :: 0 <= k < |a.writes| ==> a.writes[k].owner == forkOwner.value && a.writes[k].repo == repo
    ensures !isOwned ==> forall k :: 0 <= k < |a.writes| ==> a.writes[k].OpenedIssue? ==> UpstreamMarker(number) <= a.writes[k].title
    // success means Copilot was assigned, as the last mutation
    ensures a.result.Got? && a.result.value.success ==> |a.writes| > 0 && a.writes[|a.writes| - 1].Assigned?
    ensures a.result.Got? && a.result.value.success && !isOwned ==>
      a.result.value.forkIssueNumber == Some(a.writes[|a.writes| - 1].number)
    ensures a.result.Got? && !a.result.value.success ==> a.result.value.forkIssueNumber.None?
  {
    if !HasToken(api, userId) then Assignment(Threw, [])
    else if isOwned then AssignOwned(api, owner, repo, number)
    else if Truthy(forkOwner) then AssignThroughFork(api, owner, repo, number, forkOwner.value)
    else Assignment(Got(NotAssigned), [])
  }

  /** The owned branch: assign Copilot on the upstream issue itself. */
  function AssignOwned(api: Api, owner: string, repo: string, number: nat): (a: Assignment)
    ensures a.result.Got? && a.result.value.forkIssueNumber.None?
    ensures |a.writes| <= 1
    ensures forall k :: 0 <= k < |a.writes| ==>
      a.writes[k].Assigned? && a.writes[k].owner == owner && a.writes[k].repo == repo && a.writes[k].number == number
    ensures a.result.value.success ==> |a.writes| == 1
  {
    match CopilotActorId(api, owner, repo)
    case None => Assignment(Got(NotAssigned), [])
    case Some(actor) =>
      var node := IssueNodeId(api, owner, repo, number);
      if !Truthy(node) then Assignment(Got(NotAssigned), [])
      else
        var writes := [Assigned(owner, repo, number, actor)];
        if api.addAssignee(node.value, actor).Threw? then Assignment(Got(NotAssigned), writes)
        else Assignment(Got(AssignResult(true, None)), writes)
  }

  /** The fork branch: mirror the upstream issue on `fork/repo`, then assign Copilot there. */
  function AssignThroughFork(api: Api, owner: string, repo: string, number: nat, fork: string): (a: Assignment)
    ensures a.result.Got?
    ensures forall k :: 0 <= k < |a.writes| ==> a.writes[k].owner == fork && a.writes[k].repo == repo
    ensures forall k :: 0 <= k < |a.writes| ==> a.writes[k].OpenedIssue? ==> UpstreamMarker(number) <= a.writes[k].title
    ensures a.result.value.success ==>
      |a.writes| == 2 && a.writes[0].OpenedIssue? && a.writes[1].Assigned? &&
      a.result.value.forkIssueNumber == Some(a.writes[1].number)
    ensures !a.result.value.success ==> a.result.value.forkIssueNumber.None?
  {
    match CopilotActorId(api, fork, repo)
    case None => Assignment(Got(NotAssigned), [])
    case Some(actor) =>
      match api.getIssue(owner, repo, number)
      case Threw => Assignment(Got(NotAssigned), [])
      case Got(upstream) =>
        var title := ForkIssueTitle(number, upstream.title);
        var body := ForkIssueBody(upstream);
        var labels := LabelNames(upstream.labels);
        var mirror := OpenedIssue(fork, repo, title, body, labels);
        match api.createIssue(fork, repo, title, body, labels)
        case Threw => Assignment(Got(NotAssigned), [mirror])
        case Got(forkNumber) =>
          var node := IssueNodeId(api, fork, repo, forkNumber);
          if !Truthy(node) then Assignment(Got(NotAssigned), [mirror])
          else
            var writes := [mirror, Assigned(fork, repo, forkNumber, actor)];
            if api.addAssignee(node.value, actor).Threw? then Assignment(Got(NotAssigned), writes)
            else Assignment(Got(AssignResult(true, Some(forkNumber))), writes)
  }

  // ------------------------------------------------------- finding the PR

  /** A pull request the agent opened: number, URL, draft flag. */
  datatype PrHit = PrHit(number: nat, url: string, isDraft: bool)

  /** `checkCopilotPRStatus`'s answer; `prOwner` is the repository owner the PR lives under. */
  datatype PrStatus = NoPr | FoundPr(number: nat, url: string, prOwner: string, isDraft: bool)

  /** `login?.toLowerCase() || ""` contains `copilot`. */
  predicate IsCopilotLogin(login: Option<string>) {
    Contains(ToLower(login.GetOr("")), "copilot")
  }

  /** A cross-referenced pull request with a number and a URL, authored by Copilot. */
  predicate TimelineHit(e: TimelineEvent) {
    && e.event == "cross-referenced"
    && e.source.Some?
    && e.source.value.isPullRequest
    && TruthyNat(e.source.value.number)
    && Truthy(e.source.value.htmlUrl)
    && IsCopilotLogin(e.source.value.login)
  }

  function HitOf(e: TimelineEvent): PrHit
    requires TimelineHit(e)
  {
    PrHit(e.source.value.number.value, e.source.value.htmlUrl.value, e.source.value.draft.GetOr(false))
  }

  /** `checkTimelineForCopilotPR`'s scan: the first timeline hit. */
  function TimelineCopilotPR(events: seq<TimelineEvent>): (r: Option<PrHit>)
    ensures r.None? <==> forall k :: 0 <= k < |events| ==> !TimelineHit(events[k])
    ensures r.Some? ==> exists k :: 0 <= k < |events| && TimelineHit(events[k]) && r.value == HitOf(events[k]) &&
                                    forall j :: 0 <= j < k ==> !TimelineHit(events[j])
    ensures r.Some? ==> r.value.number != 0 && r.value.url != ""
  {
    match FirstMatch(events, TimelineHit)
    case None => None
    case Some(k) => Some(HitOf(events[k]))
  }

  /** `body?.includes(sub)`: a missing body includes nothing. */
  predicate BodyIncludes(body: Option<string>, sub: string) {
    body.Some? && Contains(body.value, sub)
  }

  /** A pull request on the fork that Copilot authored and that refers to the
      upstream issue `owner/repo#number`. */
  predicate ForkPrMatches(pr: PullRequest, owner: string, repo: string, number: nat) {
    && IsCopilotLogin(pr.login)
    && (|| BodyIncludes(pr.body, owner + "/" + repo + "#" + NatToString(number))
        || BodyIncludes(pr.body, owner + "/" + repo + "/issues/" + NatToString(number))
        || Contains(pr.title, UpstreamMarker(number)))
  }

  /** The fork fallback: the first matching pull request of the fork's listing. */
  function ForkCopilotPR(prs: seq<PullRequest>, owner: string, repo: string, number: nat): (r: Option<PrHit>)
    ensures r.None? <==> forall k :: 0 <= k < |prs| ==> !ForkPrMatches(prs[k], owner, repo, number)
    ensures r.Some? ==> exists k :: 0 <= k < |prs| && ForkPrMatches(prs[k], owner, repo, number) &&
                                    r.value == PrHit(prs[k].number, prs[k].htmlUrl, prs[k].draft.GetOr(false)) &&
                                    forall j :: 0 <= j < k ==> !ForkPrMatches(prs[j], owner, repo, number)
  {
    match FirstMatch(prs, (pr: PullRequest) => ForkPrMatches(pr, owner, repo, number))
    case None => None
    case Some(k) => Some(PrHit(prs[k].number, prs[k].htmlUrl, prs[k].draft.GetOr(false)))
  }

  function Found(h: Option<PrHit>, prOwner: string): PrStatus {
    match h
    case None => NoPr
    case Some(p) => FoundPr(p.number, p.url, prOwner, p.isDraft)
  }

  /** `checkCopilotPRStatus`. Rejects without a token (the lookup is outside the
      `try`); any later exception is caught as `NoPr`. On a fork, a failing
      fork-issue timeline ends the search: the fallback listing is not tried. */
  function CheckCopilotPRStatus(api: Api, userId: Id, owner: string, repo: string, number: nat,
                                isOwned: bool, forkOwner: Option<string>, forkIssueNumber: Option<nat>)
    : (r: Fetch<PrStatus>)
    ensures r.Threw? <==> !HasToken(api, userId)
    ensures r.Got? && r.value.FoundPr? && isOwned ==> r.value.prOwner == owner
    ensures r.Got? && r.value.FoundPr? && !isOwned ==> Truthy(forkOwner) && r.value.prOwner == forkOwner.value
    ensures r.Got? && r.value.FoundPr? && isOwned ==>
      api.timeline(owner, repo, number).Got? &&
      TimelineCopilotPR(api.timeline(owner, repo, number).value) == Some(PrHit(r.value.number, r.value.url, r.value.isDraft))
    ensures r.Got? && !isOwned && !Truthy(forkOwner) ==> r.value == NoPr
    ensures r.Got? && r.value.FoundPr? && !isOwned ==>
      (TruthyNat(forkIssueNumber) && api.timeline(forkOwner.value, repo, forkIssueNumber.value).Got? &&
       TimelineCopilotPR(api.timeline(forkOwner.value, repo, forkIssueNumber.value).value) == Some(PrHit(r.value.number, r.value.url, r.value.isDraft)))
      || (api.listPulls(forkOwner.value, repo).Got? &&
          ForkCopilotPR(api.listPulls(forkOwner.value, repo).value, owner, repo, number) == Some(PrHit(r.value.number, r.value.url, r.value.isDraft)))
    // owned: the first hit on the issue's own timeline is found; a failed timeline finds nothing
    ensures HasToken(api, userId) && isOwned ==>
      r == match api.timeline(owner, repo, number)
           case Threw => Got(NoPr)
           case Got(events) => Got(Found(TimelineCopilotPR(events), owner))
    // fork: a hit on the mirrored issue's timeline is found first; a failed timeline ends the search
    ensures HasToken(api, userId) && !isOwned && Truthy(forkOwner) && TruthyNat(forkIssueNumber) ==>
      match api.timeline(forkOwner.value, repo, forkIssueNumber.value)
      case Threw => r == Got(NoPr)
      case Got(events) => TimelineCopilotPR(events).Some? ==> r == Got(Found(TimelineCopilotPR(events), forkOwner.value))
    // fork, no timeline hit (or no mirrored issue): the first matching pull request of the fork's listing
    ensures HasToken(api, userId) && !isOwned && Truthy(forkOwner) &&
            (!TruthyNat(forkIssueNumber) ||
             (api.timeline(forkOwner.value, repo, forkIssueNumber.value).Got? &&
              TimelineCopilotPR(api.timeline(forkOwner.value, repo, forkIssueNumber.value).value).None?)) ==>
      r == match api.listPulls(forkOwner.value, repo)
           case Threw => Got(NoPr)
           case Got(prs) => Got(Found(ForkCopilotPR(prs, owner, repo, number), forkOwner.value))
  {
    if !HasToken(api, userId) then Threw
    else if isOwned then
      match api.timeline(owner, repo, number)
      case Threw => Got(NoPr)
      case Got(events) => Got(Found(TimelineCopilotPR(events), owner))
    else if Truthy(forkOwner) then
      var fork := forkOwner.value;
      if TruthyNat(forkIssueNumber) && api.timeline(fork, repo, forkIssueNumber.value).Threw? then Got(NoPr)
      else if TruthyNat(forkIssueNumber) && TimelineCopilotPR(api.timeline(fork, repo, forkIssueNumber.value).value).Some? then
        Got(Found(TimelineCopilotPR(api.timeline(fork, repo, forkIssueNumber.value).value), fork))
      else
        match api.listPulls(fork, repo)
        case Threw => Got(NoPr)
        case Got(prs) => Got(Found(ForkCopilotPR(prs, owner, repo, number), fork))
    else Got(NoPr)
  }

  // ------------------------------------------------------------- the steps

  /** The legal moves of `autoFixStatus` made by trigger and poll. */
  predicate AutoFixMove(a: AutoFixStatus, b: AutoFixStatus) {
    || a == b
    || (a == Queued && b == Generating)
    || (a == Queued && b == Failed)
    || (a == Generating && b == Failed)
    || (a == Generating && b == DraftReady)
  }

  predicate Eligible(t: TrackedIssue) {
    t.claimedAt.None? && t.autoFixStatus == Queued
  }

  /** The row after `triggerCopilotAutoFix`, whether it returned true, and the
      GitHub mutations it sent. */
  datatype TriggerOutcome = TriggerOutcome(issue: TrackedIssue, started: bool, writes: seq<Write>)

  /** `triggerCopilotAutoFix` on an existing row `t` of watched repository `w`. */
  function TriggerStep(t: TrackedIssue, w: WatchedRepo, api: Api, now: int): (o: TriggerOutcome)
    // claimed or not queued: nothing happens
    ensures !Eligible(t) ==> o == TriggerOutcome(t, false, [])
    // otherwise generatingAt is stamped, and the row ends generating (started) or failed
    ensures Eligible(t) ==> o.issue.generatingAt == Some(now)
    ensures Eligible(t) ==> o.issue.autoFixStatus == if o.started then Generating else Failed
    // it starts exactly when the assignment reports success
    ensures o.started <==> (Eligible(t) &&
      AssignIssueToCopilot(api, w.userId, w.owner, w.repo, t.issueNumber, w.isOwned, w.forkOwner).result.Got? &&
      AssignIssueToCopilot(api, w.userId, w.owner, w.repo, t.issueNumber, w.isOwned, w.forkOwner).result.value.success)
    ensures Eligible(t) ==> o.writes == AssignIssueToCopilot(api, w.userId, w.owner, w.repo, t.issueNumber, w.isOwned, w.forkOwner).writes
    // only the auto-fix fields change; the fork issue number only when one was created
    ensures o.issue == t.(autoFixStatus := o.issue.autoFixStatus, generatingAt := o.issue.generatingAt,
                          forkIssueNumber := o.issue.forkIssueNumber)
    ensures o.issue.forkIssueNumber != t.forkIssueNumber ==> o.started && !w.isOwned && TruthyNat(o.issue.forkIssueNumber)
    // a started fork assignment's issue number is stored when it is truthy, and otherwise the row keeps its own
    ensures o.started ==>
      var n := AssignIssueToCopilot(api, w.userId, w.owner, w.repo, t.issueNumber, w.isOwned, w.forkOwner).result.value.forkIssueNumber;
      o.issue.forkIssueNumber == if TruthyNat(n) then n else t.forkIssueNumber
  {
    if !Eligible(t) then TriggerOutcome(t, false, [])
    else
      Settle(t.(autoFixStatus := Generating, generatingAt := Some(now)),
             AssignIssueToCopilot(api, w.userId, w.owner, w.repo, t.issueNumber, w.isOwned, w.forkOwner))
  }

  /** The writes after the assignment call, on the row already stamped generating. */
  function Settle(generating: TrackedIssue, a: Assignment): TriggerOutcome {
    if a.result.Threw? || !a.result.value.success then
      TriggerOutcome(generating.(autoFixStatus := Failed), false, a.writes)
    else if TruthyNat(a.result.value.forkIssueNumber) then
      TriggerOutcome(generating.(forkIssueNumber := a.result.value.forkIssueNumber), true, a.writes)
    else
      TriggerOutcome(generating, true, a.writes)
  }

  /** The row after `pollCopilotPRStatus`, the draft-ready message it stored,
      and whether the call fulfilled (false: it rejected). */
  datatype PollOutcome = PollOutcome(issue: TrackedIssue, note: Option<string>, fulfilled: bool)

  predicate TimedOut(t: TrackedIssue, now: int) {
    t.generatingAt.Some? && now - t.generatingAt.value > GeneratingTimeoutMs
  }

  /** `pollCopilotPRStatus` on an existing row `t` of watched repository `w`. */
  function PollStep(t: TrackedIssue, w: WatchedRepo, api: Api, now: int): (o: PollOutcome)
    // only a generating row is touched
    ensures t.autoFixStatus != Generating ==> o == PollOutcome(t, None, true)
    // the timeout is decided first
    ensures t.autoFixStatus == Generating && TimedOut(t, now) ==> o == PollOutcome(t.(autoFixStatus := Failed), None, true)
    // a row either stays as it is, or becomes draft-ready with the PR fields and one message
    ensures o.issue == t || o.issue.autoFixStatus != Generating
    ensures o.note.Some? <==> o.issue.autoFixStatus == DraftReady && t.autoFixStatus == Generating
    ensures o.note.Some? ==>
      && o.issue == t.(autoFixStatus := DraftReady, draftPrNumber := o.issue.draftPrNumber,
                       draftPrUrl := o.issue.draftPrUrl, draftPrOwner := o.issue.draftPrOwner)
      && TruthyNat(o.issue.draftPrNumber)
      && (w.isOwned ==> o.issue.draftPrOwner == Some(w.owner))
      && (!w.isOwned ==> Truthy(w.forkOwner) && o.issue.draftPrOwner == w.forkOwner)
      && o.note == Some(DraftReadyMessage(o.issue.draftPrNumber.value, w.owner, w.repo, t.issueNumber))
    // it rejects exactly when the owner has no token and the row was due a check
    ensures !o.fulfilled <==> t.autoFixStatus == Generating && !TimedOut(t, now) && !HasToken(api, w.userId)
    ensures !o.fulfilled ==> o.issue == t
    // when the row is due a check: a found pull request with a number makes the row
    // draft-ready with its number, URL and owner, and one message; anything else leaves it
    ensures t.autoFixStatus == Generating && !TimedOut(t, now) ==>
      match CheckCopilotPRStatus(api, w.userId, w.owner, w.repo, t.issueNumber, w.isOwned, w.forkOwner, t.forkIssueNumber)
      case Got(FoundPr(n, u, p, _)) =>
        n != 0 ==> o == PollOutcome(t.(autoFixStatus := DraftReady, draftPrNumber := Some(n), draftPrUrl := Some(u),
                                       draftPrOwner := Some(p)),
                                    Some(DraftReadyMessage(n, w.owner, w.repo, t.issueNumber)), true)
      case _ => o.issue == t && o.note.None?
  {
    if t.autoFixStatus != Generating then PollOutcome(t, None, true)
    else if TimedOut(t, now) then PollOutcome(t.(autoFixStatus := Failed), None, true)
    else
      match CheckCopilotPRStatus(api, w.userId, w.owner, w.repo, t.issueNumber, w.isOwned, w.forkOwner, t.forkIssueNumber)
      case Threw => PollOutcome(t, None, false)
      case Got(NoPr) => PollOutcome(t, None, true)
      case Got(FoundPr(number, url, prOwner, _)) =>
        if number != 0 then
          PollOutcome(t.(autoFixStatus := DraftReady, draftPrNumber := Some(number),
                         draftPrUrl := Some(url), draftPrOwner := Some(prOwner)),
                      Some(DraftReadyMessage(number, w.owner, w.repo, t.issueNumber)), true)
        else PollOutcome(t, None, true)
  }

  // ---------------------------------------------------------------- lemmas

  /** Trigger and poll only make the moves of the state machine. */
  lemma StepsFollowStateMachine(t: TrackedIssue, w: WatchedRepo, api: Api, now: int)
    ensures AutoFixMove(t.autoFixStatus, TriggerStep(t, w, api, now).issue.autoFixStatus)
    ensures AutoFixMove(t.autoFixStatus, PollStep(t, w, api, now).issue.autoFixStatus)
  {
  }

  /** A second trigger on the row the first one left is a no-op with no mutation. */
  lemma TriggerIdempotent(t: TrackedIssue, w: WatchedRepo, api: Api, now: int, later: int)
    ensures var once := TriggerStep(t, w, api, now).issue;
            TriggerStep(once, w, api, later) == TriggerOutcome(once, false, [])
  {
  }

  /** A claimed row never reaches GitHub. */
  lemma ClaimedNeverAssigned(t: TrackedIssue, w: WatchedRepo, api: Api, now: int)
    requires t.claimedAt.Some?
    ensures TriggerStep(t, w, api, now).writes == []
    ensures TriggerStep(t, w, api, now).issue == t
  {
  }

  /** On a non-owned repository every mutation a trigger sends targets the fork. */
  lemma TriggerWritesTargetFork(t: TrackedIssue, w: WatchedRepo, api: Api, now: int)
    requires !w.isOwned
    ensures forall k :: 0 <= k < |TriggerStep(t, w, api, now).writes| ==>
      Truthy(w.forkOwner) && TriggerStep(t, w, api, now).writes[k].owner == w.forkOwner.value &&
      TriggerStep(t, w, api, now).writes[k].repo == w.repo
  {
    var o := TriggerStep(t, w, api, now);
    if Eligible(t) {
      var a := AssignIssueToCopilot(api, w.userId, w.owner, w.repo, t.issueNumber, w.isOwned, w.forkOwner);
      assert o.writes == a.writes;
      forall k | 0 <= k < |o.writes|
        ensures Truthy(w.forkOwner) && o.writes[k].owner == w.forkOwner.value && o.writes[k].repo == w.repo
      {
        assert |a.writes| > 0 && o.writes[k] == a.writes[k];
      }
    } else {
      assert o.writes == [];
    }
  }

  /** A generating row of an owned repository whose timeline shows a pull
      request Copilot opened becomes draft-ready with that pull request. */
  lemma PollFindsTimelinePr(t: TrackedIssue, w: WatchedRepo, api: Api, now: int, k: nat)
    requires t.autoFixStatus == Generating && !TimedOut(t, now) && w.isOwned && HasToken(api, w.userId)
    requires api.timeline(w.owner, w.repo, t.issueNumber).Got?
    requires k < |api.timeline(w.owner, w.repo, t.issueNumber).value|
    requires TimelineHit(api.timeline(w.owner, w.repo, t.issueNumber).value[k])
    ensures var o := PollStep(t, w, api, now);
            && o.issue.autoFixStatus == DraftReady && o.issue.draftPrOwner == Some(w.owner)
            && TruthyNat(o.issue.draftPrNumber) && o.note.Some? && o.fulfilled
  {
    var events := api.timeline(w.owner, w.repo, t.issueNumber).value;
    assert !TimelineHit(events[k]) ==> false;
    var hit := TimelineCopilotPR(events);
    assert hit.Some? && hit.value.number != 0;
  }

  /** On a fork, a pull request Copilot opened that names the upstream issue is
      found by the poll when the mirrored issue's timeline has no hit. */
  lemma PollFindsForkPr(t: TrackedIssue, w: WatchedRepo, api: Api, now: int, prs: seq<PullRequest>, k: nat)
    requires t.autoFixStatus == Generating && !TimedOut(t, now) && !w.isOwned && Truthy(w.forkOwner) && HasToken(api, w.userId)
    requires !TruthyNat(t.forkIssueNumber) ||
             (api.timeline(w.forkOwner.value, w.repo, t.forkIssueNumber.value).Got? &&
              forall j :: 0 <= j < |api.timeline(w.forkOwner.value, w.repo, t.forkIssueNumber.value).value| ==>
                !TimelineHit(api.timeline(w.forkOwner.value, w.repo, t.forkIssueNumber.value).value[j]))
    requires api.listPulls(w.forkOwner.value, w.repo) == Got(prs)
    // `prs[k]` is the first matching pull request, and GitHub numbers it
    requires k < |prs| && ForkPrMatches(prs[k], w.owner, w.repo, t.issueNumber) && prs[k].number != 0
    requires forall j :: 0 <= j < k ==> !ForkPrMatches(prs[j], w.owner, w.repo, t.issueNumber)
    ensures var o := PollStep(t, w, api, now);
            && o.issue.autoFixStatus == DraftReady && o.issue.draftPrOwner == w.forkOwner
            && TruthyNat(o.issue.draftPrNumber) && o.note.Some? && o.fulfilled
  {
    var hit := ForkCopilotPR(prs, w.owner, w.repo, t.issueNumber);
    FirstForkMatch(prs, w.owner, w.repo, t.issueNumber, k);
  }

  /** The fork search returns the first matching pull request. */
  lemma FirstForkMatch(prs: seq<PullRequest>, owner: string, repo: string, number: nat, k: nat)
    requires k < |prs| && ForkPrMatches(prs[k], owner, repo, number)
    requires forall j :: 0 <= j < k ==> !ForkPrMatches(prs[j], owner, repo, number)
    ensures ForkCopilotPR(prs, owner, repo, number) == Some(PrHit(prs[k].number, prs[k].htmlUrl, prs[k].draft.GetOr(false)))
  {
    var r := ForkCopilotPR(prs, owner, repo, number);
    var i :| 0 <= i < |prs| && ForkPrMatches(prs[i], owner, repo, number) &&
             r.value == PrHit(prs[i].number, prs[i].htmlUrl, prs[i].draft.GetOr(false)) &&
             forall j :: 0 <= j < i ==> !ForkPrMatches(prs[j], owner, repo, number);
    assert i == k;
  }

  /** After the timeout, the answer does not depend on GitHub at all. */
  lemma TimeoutNeedsNoCheck(t: TrackedIssue, w: WatchedRepo, api1: Api, api2: Api, now: int)
    requires t.autoFixStatus == Generating && TimedOut(t, now)
    ensures PollStep(t, w, api1, now) == PollStep(t, w, api2, now)
    ensures PollStep(t, w, api1, now).issue.autoFixStatus == Failed
  {
  }

  /** Exactly at the timeout the row is still checked, not failed: the
      comparison is strict, so the poll asks GitHub and rejects without a token. */
  lemma TimeoutIsStrict(t: TrackedIssue, w: WatchedRepo, api: Api, now: int)
    requires t.autoFixStatus == Generating && t.generatingAt == Some(now - GeneratingTimeoutMs)
    ensures PollStep(t, w, api, now).fulfilled <==> HasToken(api, w.userId)
    ensures PollStep(t, w, api, now).issue.autoFixStatus != Failed
  {
  }

  // --------------------------------------------------------- store methods

  /** `triggerCopilotAutoFix(id)`: read the row, stamp it generating, assign,
      then record failure or the fork issue number. */
  method TriggerCopilotAutoFix(st: Store, id: Id, api: Api, now: int) returns (started: bool, writes: seq<Write>)
    requires st.Valid()
    modifies st
    ensures st.Valid()
    ensures id !in old(st.issues) ==> !started && writes == [] && st.issues == old(st.issues)
    ensures id in old(st.issues) ==>
      var o := TriggerStep(old(st.issues)[id], old(st.repos)[old(st.issues)[id].watchedRepoId], api, now);
      started == o.started && writes == o.writes && st.issues == old(st.issues)[id := o.issue]
    ensures st.repos == old(st.repos) && st.notifications == old(st.notifications)
    ensures st.prefs == old(st.prefs) && st.users == old(st.users)
  {
    if id !in st.issues {
      return false, [];
    }
    var t := st.issues[id];
    if t.claimedAt.Some? || t.autoFixStatus != Queued {
      return false, [];
    }
    var w := st.repos[t.watchedRepoId];
    var generating := t.(autoFixStatus := Generating, generatingAt := Some(now));
    st.UpdateIssue(id, generating);
    var a := AssignIssueToCopilot(api, w.userId, w.owner, w.repo, t.issueNumber, w.isOwned, w.forkOwner);
    started := RecordAssignment(st, id, generating, a);
    writes := a.writes;
  }

  /** The writes that follow the assignment call: `failed` on failure, the fork
      issue number when one was created. */
  method RecordAssignment(st: Store, id: Id, generating: TrackedIssue, a: Assignment) returns (started: bool)
    requires st.Valid() && id in st.issues && st.issues[id] == generating
    modifies st`issues
    ensures st.Valid()
    ensures started == Settle(generating, a).started
    ensures st.issues == old(st.issues)[id := Settle(generating, a).issue]
  {
    if a.result.Threw? || !a.result.value.success {
      st.UpdateIssue(id, generating.(autoFixStatus := Failed));
      return false;
    }
    if TruthyNat(a.result.value.forkIssueNumber) {
      st.UpdateIssue(id, generating.(forkIssueNumber := a.result.value.forkIssueNumber));
    } else {
      assert st.issues == old(st.issues)[id := generating];
    }
    started := true;
  }

  /** `pollCopilotPRStatus(id)`: returns whether the call fulfilled. */
  method PollCopilotPRStatus(st: Store, id: Id, api: Api, now: int) returns (fulfilled: bool)
    requires st.Valid()
    modifies st
    ensures st.Valid()
    ensures id !in old(st.issues) ==> fulfilled && st.issues == old(st.issues) && st.notifications == old(st.notifications)
    ensures id in old(st.issues) ==>
      var w := old(st.repos)[old(st.issues)[id].watchedRepoId];
      var o := PollStep(old(st.issues)[id], w, api, now);
      && fulfilled == o.fulfilled
      && st.issues == old(st.issues)[id := o.issue]
      && (o.note.None? ==> st.notifications == old(st.notifications))
      && (o.note.Some? ==> AppendedOne(old(st.notifications), st.notifications, w.userId, Some(id), o.note.value, now))
    ensures old(st.notifications) <= st.notifications
    ensures st.repos == old(st.repos) && st.prefs == old(st.prefs) && st.users == old(st.users)
  {
    if id !in st.issues {
      return true;
    }
    var t := st.issues[id];
    if t.autoFixStatus != Generating {
      return true;
    }
    var w := st.repos[t.watchedRepoId];
    if t.generatingAt.Some? && now - t.generatingAt.value > GeneratingTimeoutMs {
      st.UpdateIssue(id, t.(autoFixStatus := Failed));
      return true;
    }
    var status := CheckCopilotPRStatus(api, w.userId, w.owner, w.repo, t.issueNumber, w.isOwned, w.forkOwner, t.forkIssueNumber);
    if status.Threw? {
      return false;
    }
    if status.value.FoundPr? && status.value.number != 0 {
      st.UpdateIssue(id, t.(autoFixStatus := DraftReady, draftPrNumber := Some(status.value.number),
                            draftPrUrl := Some(status.value.url), draftPrOwner := Some(status.value.prOwner)));
      var _ := CreateNotification(st, w.userId, DraftReadyMessage(status.value.number, w.owner, w.repo, t.issueNumber), Some(id), now);
    }
    fulfilled := true;
  }
}
