/** `GET /api/cron/poll-issue-state`: the closure reconciler. Every tracked
    row that is open and not archived is checked upstream; a row whose issue
    is closed there becomes closed and archived, and its owner is told. */
module Closure {
  import opened Base
  import opened Records
  import opened Db
  import opened GitHub
  import opened Cron
  import opened Discovery

  /** The response `{ issuesChecked, issuesClosed }`. */
  datatype StateResult = StateResult(issuesChecked: nat, issuesClosed: nat)

  /** `createIssueClosedNotification(userId, owner, repo, number, title, issueId)`,
      whose body is not part of this model: whether the call returns or throws. */
  type CloseNotifier = (Id, string, string, nat, string, Id) -> Fetch<()>

  /** `findMany({ where: { state: "open", archivedAt: null } })`. */
  function OpenIds(issues: map<Id, TrackedIssue>): (s: set<Id>)
    ensures forall id :: id in s <==> id in issues && issues[id].state == Open && issues[id].archivedAt.None?
  {
    set id | id in issues && issues[id].state == Open && issues[id].archivedAt.None?
  }

  /** The state lookup for row `t` of watcher `w` reports the issue closed. */
  predicate UpstreamClosed(t: TrackedIssue, w: WatchedRepo, api: Api) {
    var s := FetchIssueState(api, w.userId, w.owner, w.repo, t.issueNumber);
    s.Got? && s.value.state == "closed"
  }

  /** The upstream closing time, or `now` when the lookup gave none. */
  function ClosedAt(t: TrackedIssue, w: WatchedRepo, api: Api, now: int): int
    requires UpstreamClosed(t, w, api)
  {
    match FetchIssueState(api, w.userId, w.owner, w.repo, t.issueNumber).value.closedAt
    case Some(at) => at
    case None => now
  }

  /** What the sweep makes of one checked row. */
  function Reconcile(t: TrackedIssue, w: WatchedRepo, api: Api, now: int): (r: TrackedIssue)
    // a closed issue closes and archives the row, and nothing else about it changes
    ensures UpstreamClosed(t, w, api) ==>
      && r.state == Closed && r.archivedAt == Some(now) && r.closedAt == Some(ClosedAt(t, w, api, now))
      && r.(state := t.state, archivedAt := t.archivedAt, closedAt := t.closedAt) == t
    // an open issue, or a lookup that threw, leaves the row as it was
    ensures !UpstreamClosed(t, w, api) ==> r == t
  {
    if UpstreamClosed(t, w, api) then
      t.(state := Closed, closedAt := Some(ClosedAt(t, w, api, now)), archivedAt := Some(now))
    else
      t
  }

  /** The table after the rows `ids` were reconciled. */
  function Swept(issues: map<Id, TrackedIssue>, repos: map<Id, WatchedRepo>, api: Api, now: int, ids: set<Id>): (r: map<Id, TrackedIssue>)
    requires forall id :: id in issues ==> issues[id].watchedRepoId in repos
    ensures forall id :: id in r <==> id in issues
  {
    map id | id in issues :: if id in ids then Reconcile(issues[id], repos[issues[id].watchedRepoId], api, now) else issues[id]
  }

  /** The whole sweep: every open, unarchived row reconciled. */
  function Sweep(issues: map<Id, TrackedIssue>, repos: map<Id, WatchedRepo>, api: Api, now: int): (r: map<Id, TrackedIssue>)
    requires forall id :: id in issues ==> issues[id].watchedRepoId in repos
  {
    Swept(issues, repos, api, now, OpenIds(issues))
  }

  /** Reconciling keeps a row's key, so the sweep keeps the table's invariants. */
  lemma SweepKeepsKeys(issues: map<Id, TrackedIssue>, repos: map<Id, WatchedRepo>, api: Api, now: int, ids: set<Id>)
    requires forall id :: id in issues ==> issues[id].watchedRepoId in repos
    ensures var r := Swept(issues, repos, api, now, ids);
            forall id :: id in r ==> r[id].watchedRepoId == issues[id].watchedRepoId && r[id].issueNumber == issues[id].issueNumber
  {
  }

  /** Only open, unarchived rows change, and each changed row is now closed and archived. */
  lemma SweepChangesOnlyOpen(issues: map<Id, TrackedIssue>, repos: map<Id, WatchedRepo>, api: Api, now: int)
    requires forall id :: id in issues ==> issues[id].watchedRepoId in repos
    ensures var r := Sweep(issues, repos, api, now);
            forall id :: id in issues && r[id] != issues[id] ==>
              && id in OpenIds(issues)
              && UpstreamClosed(issues[id], repos[issues[id].watchedRepoId], api)
              && r[id].state == Closed && r[id].archivedAt == Some(now)
  {
  }

  /** A second sweep, at any later time and against the same upstream, changes nothing:
      the rows the first one closed are no longer open, and the others reconcile to themselves. */
  lemma SweepIdempotent(issues: map<Id, TrackedIssue>, repos: map<Id, WatchedRepo>, api: Api, now: int, later: int)
    requires forall id :: id in issues ==> issues[id].watchedRepoId in repos
    ensures var once := Sweep(issues, repos, api, now);
            (forall id :: id in once ==> once[id].watchedRepoId in repos) &&
            Sweep(once, repos, api, later) == once
  {
    var once := Sweep(issues, repos, api, now);
    SweepKeepsKeys(issues, repos, api, now, OpenIds(issues));
    var twice := Sweep(once, repos, api, later);
    forall id | id in once ensures twice[id] == once[id] {
      var w := repos[issues[id].watchedRepoId];
      if id in OpenIds(once) && id in OpenIds(issues) {
        assert !UpstreamClosed(issues[id], w, api);
        assert once[id] == issues[id];
      }
    }
  }

  /** One row of the sweep: the lookup, and for a closed issue the update,
      then the notification. Whether the row was closed, and whether its
      notification returned, are the results. */
  method ReconcileRow(st: Store, id: Id, api: Api, notify: CloseNotifier, now: int) returns (closed: bool, counted: bool)
    requires st.Valid() && id in st.issues
    modifies st`issues
    ensures st.Valid()
    ensures closed <==> UpstreamClosed(old(st.issues)[id], st.repos[old(st.issues)[id].watchedRepoId], api)
    ensures st.issues == old(st.issues)[id := Reconcile(old(st.issues)[id], st.repos[old(st.issues)[id].watchedRepoId], api, now)]
    ensures counted <==> closed && Notified(old(st.issues)[id], id, st.repos[old(st.issues)[id].watchedRepoId], notify)
  {
    var t := st.issues[id];
    var w := st.repos[t.watchedRepoId];
    var upstream := FetchIssueState(api, w.userId, w.owner, w.repo, t.issueNumber);
    if upstream.Threw? || upstream.value.state != "closed" {
      return false, false;
    }
    var closedAt := if upstream.value.closedAt.Some? then upstream.value.closedAt.value else now;
    st.UpdateIssue(id, t.(state := Closed, closedAt := Some(closedAt), archivedAt := Some(now)));
    var sent := notify(w.userId, w.owner, w.repo, t.issueNumber, t.title, id);
    return true, sent.Got?;
  }

  /** The closed notice for row `id` returned rather than threw. */
  predicate Notified(t: TrackedIssue, id: Id, w: WatchedRepo, notify: CloseNotifier) {
    notify(w.userId, w.owner, w.repo, t.issueNumber, t.title, id).Got?
  }

  /** The sweep's loop over the open rows `ws`. */
  method SweepRows(st: Store, ws: seq<Id>, api: Api, notify: CloseNotifier, now: int)
    returns (closedIds: seq<Id>, countedIds: seq<Id>)
    requires st.Valid() && Distinct(ws) && forall k :: 0 <= k < |ws| ==> ws[k] in st.issues
    modifies st`issues
    ensures st.Valid()
    ensures st.issues == Swept(old(st.issues), st.repos, api, now, Elems(ws))
    ensures Distinct(closedIds) && Distinct(countedIds)
    ensures forall id :: id in closedIds <==>
      id in ws && UpstreamClosed(old(st.issues)[id], st.repos[old(st.issues)[id].watchedRepoId], api)
    ensures forall id :: id in countedIds <==>
      id in closedIds && Notified(old(st.issues)[id], id, st.repos[old(st.issues)[id].watchedRepoId], notify)
  {
    ghost var issues := st.issues;
    closedIds, countedIds := [], [];
    for n := 0 to |ws|
      invariant st.Valid() && SweepProgress(st.issues, st.repos, issues, ws, n, api, notify, now, closedIds, countedIds)
    {
      closedIds, countedIds := SweepNext(st, issues, ws, n, api, notify, now, closedIds, countedIds);
    }
    assert ws[..|ws|] == ws;
  }

  /** The sweep after the first `n` rows of `ws`. */
  ghost predicate SweepProgress(current: map<Id, TrackedIssue>, repos: map<Id, WatchedRepo>, issues: map<Id, TrackedIssue>,
                                ws: seq<Id>, n: nat, api: Api, notify: CloseNotifier, now: int,
                                closedIds: seq<Id>, countedIds: seq<Id>)
  {
    && n <= |ws|
    && (forall id :: id in issues ==> issues[id].watchedRepoId in repos)
    && current == Swept(issues, repos, api, now, Elems(ws[..n]))
    && Distinct(closedIds) && Distinct(countedIds)
    && (forall id :: id in closedIds <==>
          id in ws[..n] && id in issues && UpstreamClosed(issues[id], repos[issues[id].watchedRepoId], api))
    && (forall id :: id in countedIds <==>
          id in closedIds && id in issues && Notified(issues[id], id, repos[issues[id].watchedRepoId], notify))
  }

  /** One row of the sweep's loop. */
  method SweepNext(st: Store, ghost issues: map<Id, TrackedIssue>, ws: seq<Id>, n: nat, api: Api,
                   notify: CloseNotifier, now: int, closedIds: seq<Id>, countedIds: seq<Id>)
    returns (closedIds': seq<Id>, countedIds': seq<Id>)
    requires n < |ws| && Distinct(ws) && forall k :: 0 <= k < |ws| ==> ws[k] in issues
    requires st.Valid() && SweepProgress(st.issues, st.repos, issues, ws, n, api, notify, now, closedIds, countedIds)
    modifies st`issues
    ensures st.Valid() && SweepProgress(st.issues, st.repos, issues, ws, n + 1, api, notify, now, closedIds', countedIds')
  {
    var id := ws[n];
    assert id !in ws[..n];
    assert st.issues[id] == issues[id];
    var closed, counted := ReconcileRow(st, id, api, notify, now);
    SweptSnoc(issues, st.repos, api, now, ws, n);
    closedIds' := if closed then closedIds + [id] else closedIds;
    countedIds' := if counted then countedIds + [id] else countedIds;
    SweepIdsNext(issues, st.repos, ws, n, api, notify, closedIds, countedIds, closed, counted, closedIds', countedIds');
  }

  /** The closed and counted rows after one more row of `ws`. */
  lemma SweepIdsNext(issues: map<Id, TrackedIssue>, repos: map<Id, WatchedRepo>, ws: seq<Id>, n: nat, api: Api,
                     notify: CloseNotifier, closedIds: seq<Id>, countedIds: seq<Id>, closed: bool, counted: bool,
                     closedIds': seq<Id>, countedIds': seq<Id>)
    requires n < |ws| && Distinct(ws) && forall k :: 0 <= k < |ws| ==> ws[k] in issues
    requires forall id :: id in issues ==> issues[id].watchedRepoId in repos
    requires Distinct(closedIds) && Distinct(countedIds)
    requires forall id :: id in closedIds <==>
      id in ws[..n] && id in issues && UpstreamClosed(issues[id], repos[issues[id].watchedRepoId], api)
    requires forall id :: id in countedIds <==>
      id in closedIds && id in issues && Notified(issues[id], id, repos[issues[id].watchedRepoId], notify)
    requires closed <==> UpstreamClosed(issues[ws[n]], repos[issues[ws[n]].watchedRepoId], api)
    requires counted <==> closed && Notified(issues[ws[n]], ws[n], repos[issues[ws[n]].watchedRepoId], notify)
    requires closedIds' == if closed then closedIds + [ws[n]] else closedIds
    requires countedIds' == if counted then countedIds + [ws[n]] else countedIds
    ensures Distinct(closedIds') && Distinct(countedIds')
    ensures forall id :: id in closedIds' <==>
      id in ws[..n + 1] && id in issues && UpstreamClosed(issues[id], repos[issues[id].watchedRepoId], api)
    ensures forall id :: id in countedIds' <==>
      id in closedIds' && id in issues && Notified(issues[id], id, repos[issues[id].watchedRepoId], notify)
  {
    var id := ws[n];
    assert id !in ws[..n];
    assert ws[..n + 1] == ws[..n] + [id];
    if closed {
      DistinctSnoc(closedIds, id);
    }
    if counted {
      DistinctSnoc(countedIds, id);
    }
  }

  lemma SweptSnoc(issues: map<Id, TrackedIssue>, repos: map<Id, WatchedRepo>, api: Api, now: int, ws: seq<Id>, n: nat)
    requires forall id :: id in issues ==> issues[id].watchedRepoId in repos
    requires n < |ws| && ws[n] in issues
    ensures var id := ws[n];
            Swept(issues, repos, api, now, Elems(ws[..n + 1])) ==
            Swept(issues, repos, api, now, Elems(ws[..n]))[id := Reconcile(issues[id], repos[issues[id].watchedRepoId], api, now)]
  {
    assert Elems(ws[..n + 1]) == Elems(ws[..n]) + {ws[n]} by {
      assert ws[..n + 1] == ws[..n] + [ws[n]];
    }
  }

  /** `GET /api/cron/poll-issue-state`. */
  method GetPollIssueState(st: Store, header: Option<string>, secret: Option<string>, api: Api, notify: CloseNotifier, now: int)
    returns (r: Reply<StateResult>, closedIds: seq<Id>, countedIds: seq<Id>)
    requires st.Valid()
    modifies st`issues
    ensures st.Valid()
    ensures !CronAuthorized(header, secret) ==> r == Unauthorized && st.issues == old(st.issues) && closedIds == []
    // the table afterwards is the sweep of the table before
    ensures CronAuthorized(header, secret) ==> st.issues == Sweep(old(st.issues), st.repos, api, now)
    // every open row is checked; the closed rows are those whose issue is closed upstream
    ensures CronAuthorized(header, secret) ==>
      && r.Ok? && r.body.issuesChecked == |OpenIds(old(st.issues))|
      && Distinct(closedIds)
      && (forall id :: id in closedIds <==>
            id in OpenIds(old(st.issues)) && UpstreamClosed(old(st.issues)[id], st.repos[old(st.issues)[id].watchedRepoId], api))
    // `issuesClosed` counts the closed rows whose notification returned
    ensures CronAuthorized(header, secret) ==>
      && r.body.issuesClosed == |countedIds| && Distinct(countedIds)
      && forall id :: id in countedIds <==>
           id in closedIds && Notified(old(st.issues)[id], id, st.repos[old(st.issues)[id].watchedRepoId], notify)
  {
    if !CronAuthorized(header, secret) {
      return Unauthorized, [], [];
    }
    var ws := Enumerate(OpenIds(st.issues));
    DistinctLength(ws, OpenIds(st.issues));
    closedIds, countedIds := SweepRows(st, ws, api, notify, now);
    r := Ok(StateResult(|ws|, |countedIds|));
  }
}
