/** `POST /api/webhooks/github`: signature gate, event gate, and the per-watcher
    creation of tracked issues for `issues` events. The HMAC comparison itself
    is a parameter: `digest`, the text `sha256=<hex>` the handler computes. */
module Webhook {
  import opened Base
  import opened Records
  import opened Db
  import opened GitHub
  import opened Copilot
  import opened Discovery

  /** The fields of an `issues` event the handler reads. */
  datatype IssueEvent = IssueEvent(
    action: string,
    number: nat,
    title: string,
    htmlUrl: string,
    labels: seq<string>,
    owner: string,
    repo: string)

  /** The acknowledgement `{ received: true }`. */
  datatype Received = Received

  /** `verifySignature`: a missing signature or secret fails before any digest
      is computed; otherwise the constant-time comparison, which throws when
      the two texts differ in length. */
  function VerifySignature(signature: Option<string>, secret: Option<string>, digest: string): (r: Fetch<bool>)
    ensures r == Got(true) <==> Truthy(signature) && Truthy(secret) && signature.value == digest
    ensures r.Threw? <==> Truthy(signature) && Truthy(secret) && |signature.value| != |digest|
  {
    if !Truthy(signature) || !Truthy(secret) then Got(false)
    else if |signature.value| != |digest| then Threw
    else Got(signature.value == digest)
  }

  /** What the handler does with one watcher of the event's repository. */
  datatype Verdict = FilteredOut | LinkedPr | AlreadyTracked | Create | Throws

  /** The checks in the webhook's order: labels, then the linked-PR lookup
      (which throws without a token), then the existing row. */
  function WebhookVerdict(issues: map<Id, TrackedIssue>, wid: Id, w: WatchedRepo, e: IssueEvent, api: Api): (v: Verdict)
    ensures v == Create <==>
      LabelPasses(w.labels, e.labels) && IssueHasLinkedPR(api, w.userId, e.owner, e.repo, e.number) == Got(false) &&
      !HasIssue(issues, wid, e.number)
    ensures v == Throws <==> LabelPasses(w.labels, e.labels) && !HasToken(api, w.userId)
  {
    if !LabelPasses(w.labels, e.labels) then FilteredOut
    else match IssueHasLinkedPR(api, w.userId, e.owner, e.repo, e.number)
      case Threw => Throws
      case Got(true) => LinkedPr
      case Got(false) => if HasIssue(issues, wid, e.number) then AlreadyTracked else Create
  }

  /** Unlike the poll, the webhook looks for a linked PR before it looks for the
      row: for an already tracked issue whose watcher has lost its token, the
      webhook throws where the poll would skip quietly. */
  lemma LinkedPrCheckedFirst(issues: map<Id, TrackedIssue>, wid: Id, w: WatchedRepo, e: IssueEvent, api: Api)
    requires LabelPasses(w.labels, e.labels) && HasIssue(issues, wid, e.number) && !HasToken(api, w.userId)
    ensures WebhookVerdict(issues, wid, w, e, api) == Throws
  {
  }

  /** The row the webhook creates for watcher `wid`, before its trigger runs. */
  function EventRow(wid: Id, e: IssueEvent, now: int): TrackedIssue {
    NewTrackedIssue(wid, e.number, e.title, e.htmlUrl, e.labels, IssueItem, Queued, now)
  }

  /** A created row is the event's issue, for a watcher of the event's repository
      whose label filter passed and whose issue had no linked PR. */
  predicate WebhookRow(t: TrackedIssue, w: WatchedRepo, e: IssueEvent, api: Api, now: int) {
    && t == EventRow(t.watchedRepoId, e, now)
    && w.owner == e.owner && w.repo == e.repo
    && LabelPasses(w.labels, e.labels)
    && IssueHasLinkedPR(api, w.userId, e.owner, e.repo, e.number) == Got(false)
  }

  /** The watchers `findMany({ where: { owner, repo } })` selects: frozen ones included. */
  function WatcherIds(repos: map<Id, WatchedRepo>, owner: string, repo: string): (s: set<Id>)
    ensures forall id :: id in s <==> id in repos && repos[id].owner == owner && repos[id].repo == repo
  {
    set id | id in repos && repos[id].owner == owner && repos[id].repo == repo
  }

  /** Watcher `wid` wants the event's issue: it watches the event's repository,
      its label filter passes and the issue has no linked PR. */
  predicate Wanted(repos: map<Id, WatchedRepo>, wid: Id, e: IssueEvent, api: Api) {
    && wid in WatcherIds(repos, e.owner, e.repo)
    && LabelPasses(repos[wid].labels, e.labels)
    && IssueHasLinkedPR(api, repos[wid].userId, e.owner, e.repo, e.number) == Got(false)
  }

  /** One iteration of `handleIssueEvent`'s loop. */
  method ScreenWatcher(st: Store, wid: Id, e: IssueEvent, api: Api, now: int) returns (step: Step)
    requires st.Valid() && wid in st.repos
    modifies st
    ensures st.Valid()
    ensures st.repos == old(st.repos) && st.prefs == old(st.prefs) && st.users == old(st.users)
    ensures var v := WebhookVerdict(old(st.issues), wid, st.repos[wid], e, api);
            && (v == Throws <==> step == Aborted)
            && (v == Create <==> step.Created?)
            && (!step.Created? ==> st.issues == old(st.issues) && st.notifications == old(st.notifications))
    ensures step.Created? ==>
      && step.id !in old(st.issues)
      && st.issues == old(st.issues)[step.id := EventRow(wid, e, now)]
      && |st.notifications| == |old(st.notifications)| + 1
      && st.notifications[..|old(st.notifications)|] == old(st.notifications)
      && Announces(st.notifications[|old(st.notifications)|], step.id, EventRow(wid, e, now), st.repos[wid],
                   e.owner, e.repo, now)
  {
    var w := st.repos[wid];
    if !LabelPasses(w.labels, e.labels) {
      return Passed;
    }
    var hasPr := IssueHasLinkedPR(api, w.userId, e.owner, e.repo, e.number);
    if hasPr.Threw? {
      return Aborted;
    }
    if hasPr.value {
      return Passed;
    }
    if HasIssue(st.issues, wid, e.number) {
      return Passed;
    }
    var id := Admit(st, wid, e.owner, e.repo, e.number, e.title, e.htmlUrl, e.labels, IssueItem, Queued, now);
    return Created(id);
  }

  /** The table and the log after the watcher loop created the rows `created`
      from `issues0` and `notes0`. */
  ghost predicate Progress(issues0: map<Id, TrackedIssue>, notes0: seq<Notification>, repos: map<Id, WatchedRepo>,
                           issues: map<Id, TrackedIssue>, notes: seq<Notification>, created: seq<Id>,
                           e: IssueEvent, api: Api, now: int) {
    && Grew(issues0, issues, created)
    && Announced(notes0, notes, created, issues, repos, false, now)
    && RowsWanted(issues, repos, created, e, api, now)
  }

  /** Each row of `created` is a webhook row of a watcher that wants the issue. */
  ghost predicate RowsWanted(issues: map<Id, TrackedIssue>, repos: map<Id, WatchedRepo>, created: seq<Id>,
                             e: IssueEvent, api: Api, now: int) {
    forall k :: 0 <= k < |created| ==>
      created[k] in issues && issues[created[k]].watchedRepoId in repos &&
      WebhookRow(issues[created[k]], repos[issues[created[k]].watchedRepoId], e, api, now)
  }

  lemma RowsWantedByOne(issues: map<Id, TrackedIssue>, repos: map<Id, WatchedRepo>, created: seq<Id>,
                        wid: Id, id: Id, e: IssueEvent, api: Api, now: int)
    requires RowsWanted(issues, repos, created, e, api, now)
    requires Wanted(repos, wid, e, api) && id !in issues
    ensures RowsWanted(issues[id := EventRow(wid, e, now)], repos, created + [id], e, api, now)
  {
    var after := issues[id := EventRow(wid, e, now)];
    forall k | 0 <= k < |created + [id]|
      ensures var c := (created + [id])[k];
              c in after && after[c].watchedRepoId in repos &&
              WebhookRow(after[c], repos[after[c].watchedRepoId], e, api, now)
    {
      if k < |created| {
        assert (created + [id])[k] == created[k] && created[k] in issues && created[k] != id;
      }
    }
  }

  /** Creating the row of one more watcher that wants the issue keeps the
      progress facts, tracks the issue for that watcher and loses no row. */
  lemma ProgressByOne(issues0: map<Id, TrackedIssue>, notes0: seq<Notification>, repos: map<Id, WatchedRepo>,
                      issues: map<Id, TrackedIssue>, notes: seq<Notification>, created: seq<Id>,
                      notes': seq<Notification>, wid: Id, id: Id, e: IssueEvent, api: Api, now: int)
    requires Progress(issues0, notes0, repos, issues, notes, created, e, api, now)
    requires Wanted(repos, wid, e, api) && id !in issues
    requires |notes'| == |notes| + 1 && notes'[..|notes|] == notes
    requires Announces(notes'[|notes|], id, EventRow(wid, e, now), repos[wid], e.owner, e.repo, now)
    ensures Progress(issues0, notes0, repos, issues[id := EventRow(wid, e, now)], notes', created + [id], e, api, now)
  {
    var row := EventRow(wid, e, now);
    var after := issues[id := row];
    GrewByOne(issues0, issues, created, id, row);
    AnnouncedByOne(notes0, notes, notes', created, issues, repos, false, now, id, row);
    RowsWantedByOne(issues, repos, created, wid, id, e, api, now);
  }

  /** The first `i` watchers of `ws` were screened: none of them threw, and
      each that wants the issue tracks it. */
  ghost predicate Screened(repos: map<Id, WatchedRepo>, ws: seq<Id>, i: nat, issues: map<Id, TrackedIssue>,
                           e: IssueEvent, api: Api)
    requires i <= |ws| && forall j :: 0 <= j < |ws| ==> ws[j] in repos
  {
    forall j :: 0 <= j < i ==>
      && !(LabelPasses(repos[ws[j]].labels, e.labels) && !HasToken(api, repos[ws[j]].userId))
      && (Wanted(repos, ws[j], e, api) ==> HasIssue(issues, ws[j], e.number))
  }

  /** Screening one more watcher, on a table that lost no row. */
  lemma ScreenedGrows(repos: map<Id, WatchedRepo>, ws: seq<Id>, i: nat, issues: map<Id, TrackedIssue>,
                      issues': map<Id, TrackedIssue>, e: IssueEvent, api: Api)
    requires i < |ws| && forall j :: 0 <= j < |ws| ==> ws[j] in repos
    requires Screened(repos, ws, i, issues, e, api)
    requires KeepsTracked(issues, issues')
    requires !(LabelPasses(repos[ws[i]].labels, e.labels) && !HasToken(api, repos[ws[i]].userId))
    requires Wanted(repos, ws[i], e, api) ==> HasIssue(issues', ws[i], e.number)
    ensures Screened(repos, ws, i + 1, issues', e, api)
  {
  }

  /** `handleIssueEvent` for an `opened` or `labeled` action, up to the end of
      the watcher loop (or the exception that leaves it); returns the rows
      created, in order, which are also the triggers fired. */
  method HandleWatchers(st: Store, e: IssueEvent, api: Api, now: int) returns (created: seq<Id>, threw: bool)
    requires st.Valid()
    modifies st
    ensures st.Valid()
    ensures st.repos == old(st.repos) && st.prefs == old(st.prefs) && st.users == old(st.users)
    ensures Progress(old(st.issues), old(st.notifications), st.repos, st.issues, st.notifications, created, e, api, now)
    ensures threw <==> exists wid :: wid in WatcherIds(st.repos, e.owner, e.repo) &&
                                     LabelPasses(st.repos[wid].labels, e.labels) && !HasToken(api, st.repos[wid].userId)
    ensures !threw ==> forall wid :: Wanted(st.repos, wid, e, api) ==> HasIssue(st.issues, wid, e.number)
  {
    ghost var issues, notes, repos := st.issues, st.notifications, st.repos;
    var ws := Enumerate(WatcherIds(st.repos, e.owner, e.repo));
    created, threw := [], false;
    var i := 0;
    while i < |ws|
      invariant 0 <= i <= |ws|
      invariant st.Valid() && st.repos == repos && st.prefs == old(st.prefs) && st.users == old(st.users)
      invariant Progress(issues, notes, repos, st.issues, st.notifications, created, e, api, now)
      invariant Screened(repos, ws, i, st.issues, e, api)
    {
      var step := WatcherStep(st, ws, i, e, api, now, issues, notes, repos, created);
      if step.Aborted? {
        threw := true;
        return;
      }
      if step.Created? {
        created := created + [step.id];
      }
      i := i + 1;
    }
  }

  /** One watcher, with the loop's bookkeeping. */
  method WatcherStep(st: Store, ws: seq<Id>, i: nat, e: IssueEvent, api: Api, now: int,
                     ghost issues: map<Id, TrackedIssue>, ghost notes: seq<Notification>,
                     ghost repos: map<Id, WatchedRepo>, ghost created: seq<Id>)
    returns (step: Step)
    requires i < |ws| && forall j :: 0 <= j < |ws| ==> ws[j] in repos && ws[j] in WatcherIds(repos, e.owner, e.repo)
    requires st.Valid() && st.repos == repos
    requires Progress(issues, notes, repos, st.issues, st.notifications, created, e, api, now)
    requires Screened(repos, ws, i, st.issues, e, api)
    modifies st
    ensures st.Valid()
    ensures st.repos == old(st.repos) && st.prefs == old(st.prefs) && st.users == old(st.users)
    ensures Progress(issues, notes, repos, st.issues, st.notifications,
                     if step.Created? then created + [step.id] else created, e, api, now)
    ensures step.Aborted? <==> LabelPasses(repos[ws[i]].labels, e.labels) && !HasToken(api, repos[ws[i]].userId)
    ensures !step.Aborted? ==> Screened(repos, ws, i + 1, st.issues, e, api)
  {
    ghost var before, notesBefore := st.issues, st.notifications;
    step := ScreenWatcher(st, ws[i], e, api, now);
    if step.Created? {
      ProgressByOne(issues, notes, repos, before, notesBefore, created, st.notifications, ws[i], step.id, e, api, now);
      TrackedByOne(before, step.id, EventRow(ws[i], e, now));
    }
    if !step.Aborted? {
      ScreenedGrows(repos, ws, i, before, st.issues, e, api);
    }
  }

  /** `handleIssueEvent`: other actions are ignored; otherwise the watcher loop,
      whose exception ends the handler, and then the auto-fix triggers of the
      rows it created. */
  method HandleIssueEvent(st: Store, e: IssueEvent, api: Api, now: int) returns (created: seq<Id>, threw: bool)
    requires st.Valid()
    modifies st
    ensures st.Valid()
    ensures st.repos == old(st.repos) && st.prefs == old(st.prefs) && st.users == old(st.users)
    ensures e.action != "opened" && e.action != "labeled" ==>
      created == [] && !threw && st.issues == old(st.issues) && st.notifications == old(st.notifications)
    // it throws exactly when a watcher whose filter passes has no GitHub token
    ensures threw <==> ((e.action == "opened" || e.action == "labeled") &&
      exists wid :: wid in WatcherIds(st.repos, e.owner, e.repo) &&
                    LabelPasses(st.repos[wid].labels, e.labels) && !HasToken(api, st.repos[wid].userId))
    // complete: unless it threw, every watcher that wants the issue tracks it
    ensures !threw && (e.action == "opened" || e.action == "labeled") ==>
      forall wid :: Wanted(st.repos, wid, e, api) ==> HasIssue(st.issues, wid, e.number)
    // earlier rows are untouched, and the new ones are the rows `created`
    ensures forall id :: id in old(st.issues) ==> id in st.issues && st.issues[id] == old(st.issues)[id]
    ensures forall id :: id in st.issues ==> id in old(st.issues) || id in created
    ensures Distinct(created)
    // each new row is the event's issue for a watcher that wants it, after its trigger
    ensures forall k :: 0 <= k < |created| ==>
      && created[k] !in old(st.issues) && created[k] in st.issues
      && var t := st.issues[created[k]];
         && t.watchedRepoId in st.repos
         && WebhookRow(Untriggered(t), st.repos[t.watchedRepoId], e, api, now)
         && t == TriggerStep(Untriggered(t), st.repos[t.watchedRepoId], api, now).issue
    // and each has its announcement, in order
    ensures Announced(old(st.notifications), st.notifications, created, st.issues, st.repos, false, now)
  {
    if e.action != "opened" && e.action != "labeled" {
      return [], false;
    }
    ghost var issues := st.issues;
    created, threw := HandleWatchers(st, e, api, now);
    ghost var mid := st.issues;
    RunTriggers(st, created, api, now);
    TriggeredRowsKeep(mid, st.repos, api, now, Elems(created));
    AnnouncedKeeps(old(st.notifications), st.notifications, created, mid, st.issues, st.repos, false, now);
    HasIssueKeeps(mid, st.issues);
    forall k | 0 <= k < |created|
      ensures var t := st.issues[created[k]];
              && t.watchedRepoId in st.repos
              && WebhookRow(Untriggered(t), st.repos[t.watchedRepoId], e, api, now)
              && t == TriggerStep(Untriggered(t), st.repos[t.watchedRepoId], api, now).issue
    {
      var c := created[k];
      var w := st.repos[mid[c].watchedRepoId];
      assert st.issues[c] == TriggerStep(mid[c], w, api, now).issue;
      UntriggeredInverts(mid[c], w, api, now);
    }
  }

  /** `POST /api/webhooks/github`: 401 on a bad signature; an `issues` event is
      handled; anything else is acknowledged untouched. An exception from the
      handler is not caught and becomes a 500. */
  method Post(st: Store, signature: Option<string>, secret: Option<string>, digest: string,
              event: Option<string>, e: IssueEvent, api: Api, now: int)
    returns (r: Reply<Received>, ghost created: seq<Id>)
    requires st.Valid()
    modifies st
    ensures st.Valid()
    ensures st.repos == old(st.repos) && st.prefs == old(st.prefs) && st.users == old(st.users)
    ensures VerifySignature(signature, secret, digest) == Got(false) ==> r == Unauthorized
    ensures VerifySignature(signature, secret, digest).Threw? ==> r == ServerError
    ensures VerifySignature(signature, secret, digest) == Got(true) && event != Some("issues") ==> r == Ok(Received)
    // nothing is written unless a verified `issues` event is handled
    ensures VerifySignature(signature, secret, digest) != Got(true) || event != Some("issues") ==>
      created == [] && st.issues == old(st.issues) && st.notifications == old(st.notifications)
    ensures VerifySignature(signature, secret, digest) == Got(true) && event == Some("issues") ==>
      (r == ServerError <==> ((e.action == "opened" || e.action == "labeled") &&
        exists wid :: wid in WatcherIds(st.repos, e.owner, e.repo) &&
                      LabelPasses(st.repos[wid].labels, e.labels) && !HasToken(api, st.repos[wid].userId)))
    ensures r.Ok? && event == Some("issues") && (e.action == "opened" || e.action == "labeled") ==>
      forall wid :: Wanted(st.repos, wid, e, api) ==> HasIssue(st.issues, wid, e.number)
    ensures VerifySignature(signature, secret, digest) == Got(true) ==> r.Ok? || r.ServerError?
  {
    var verified := VerifySignature(signature, secret, digest);
    if verified.Threw? {
      return ServerError, [];
    }
    if !verified.value {
      return Unauthorized, [];
    }
    if event != Some("issues") {
      return Ok(Received), [];
    }
    var threw;
    created, threw := HandleIssueEvent(st, e, api, now);
    r := if threw then ServerError else Ok(Received);
  }
}
