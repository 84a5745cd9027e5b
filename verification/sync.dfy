/** `POST /api/repos/sync`: the signed-in user's manual sync. Each of the
    user's watched repositories that is not frozen is read with the user's own
    token: its open issues first (label filter, title filter, existing row,
    linked PR), then its pull requests (label filter, title filter, existing
    row). Issues are queued for the auto-fix; pull requests are skipped. */
module Sync {
  import opened Base
  import opened Records
  import opened Db
  import opened GitHub
  import opened Copilot
  import opened Discovery

  /** The response `{ reposPolled, issuesCreated, prsCreated }`. */
  datatype SyncResult = SyncResult(reposPolled: nat, issuesCreated: nat, prsCreated: nat)

  /** `findMany({ where: { userId, frozen: false } })`. */
  function OwnActiveIds(repos: map<Id, WatchedRepo>, user: Id): (s: set<Id>)
    ensures forall id :: id in s <==> id in repos && repos[id].userId == user && !repos[id].frozen
  {
    set id | id in repos && repos[id].userId == user && !repos[id].frozen
  }

  /** Item `i` of kind `kind` is one the sync reads for watcher `wid` of `user`:
      an open issue of the repository, or (once the issues were read) one of
      its pull requests. */
  ghost predicate Listed(repos: map<Id, WatchedRepo>, wid: Id, i: RepoIssue, kind: ItemType, user: Id, api: Api) {
    && wid in repos && repos[wid].userId == user && !repos[wid].frozen
    && var w := repos[wid];
       && HasToken(api, user) && api.listIssues(w.owner, w.repo).Got?
       && match kind
          case IssueItem => i in api.listIssues(w.owner, w.repo).value && !i.isPullRequest
          case PullRequestItem => api.listPullRequests(w.owner, w.repo).Got? && i in api.listPullRequests(w.owner, w.repo).value
  }

  /** The sync's filters: labels, then the title query, and for an issue no linked PR. */
  predicate Passes(w: WatchedRepo, i: RepoIssue, kind: ItemType, api: Api) {
    && LabelPasses(w.labels, LabelNames(i.labels))
    && TitlePasses(w.titleQuery, i.title)
    && (kind == IssueItem ==> IssueHasLinkedPR(api, w.userId, w.owner, w.repo, i.number) == Got(false))
  }

  ghost predicate SyncWanted(repos: map<Id, WatchedRepo>, wid: Id, i: RepoIssue, kind: ItemType, user: Id, api: Api) {
    Listed(repos, wid, i, kind, user, api) && Passes(repos[wid], i, kind, api)
  }

  /** The rows created so far, with the item each came from; the triggers are
      exactly the created issue rows. */
  ghost predicate SyncProgress(issues0: map<Id, TrackedIssue>, notes0: seq<Notification>, repos: map<Id, WatchedRepo>,
                               issues: map<Id, TrackedIssue>, notes: seq<Notification>, created: seq<Id>,
                               sources: seq<RepoIssue>, triggers: seq<Id>, user: Id, api: Api, now: int) {
    && Grew(issues0, issues, created)
    && Announced(notes0, notes, created, issues, repos, false, now)
    && SyncRows(issues, repos, created, sources, user, api, now)
    && Distinct(triggers) && |triggers| <= |created|
    && forall id :: id in triggers <==> id in created && id in issues && issues[id].itemType == IssueItem
  }

  ghost predicate SyncRows(issues: map<Id, TrackedIssue>, repos: map<Id, WatchedRepo>, created: seq<Id>,
                           sources: seq<RepoIssue>, user: Id, api: Api, now: int) {
    && |sources| == |created|
    && forall k :: 0 <= k < |created| ==>
         created[k] in issues &&
         SyncWanted(repos, issues[created[k]].watchedRepoId, sources[k], issues[created[k]].itemType, user, api) &&
         issues[created[k]] == ListedRow(issues[created[k]].watchedRepoId, sources[k], issues[created[k]].itemType, now)
  }

  lemma SyncRowsByOne(issues: map<Id, TrackedIssue>, repos: map<Id, WatchedRepo>, created: seq<Id>,
                      sources: seq<RepoIssue>, wid: Id, id: Id, i: RepoIssue, kind: ItemType, user: Id, api: Api, now: int)
    requires SyncRows(issues, repos, created, sources, user, api, now)
    requires SyncWanted(repos, wid, i, kind, user, api) && id !in issues
    ensures SyncRows(issues[id := ListedRow(wid, i, kind, now)], repos, created + [id], sources + [i], user, api, now)
  {
    var after := issues[id := ListedRow(wid, i, kind, now)];
    forall k | 0 <= k < |created + [id]|
      ensures var c := (created + [id])[k];
              c in after && SyncWanted(repos, after[c].watchedRepoId, (sources + [i])[k], after[c].itemType, user, api) &&
              after[c] == ListedRow(after[c].watchedRepoId, (sources + [i])[k], after[c].itemType, now)
    {
      if k < |created| {
        assert (created + [id])[k] == created[k] && created[k] in issues && created[k] != id;
        assert (sources + [i])[k] == sources[k];
      }
    }
  }

  lemma TriggersByOne(issues: map<Id, TrackedIssue>, created: seq<Id>, triggers: seq<Id>, id: Id, row: TrackedIssue)
    requires Distinct(triggers) && id !in issues
    requires forall x :: x in triggers <==> x in created && x in issues && issues[x].itemType == IssueItem
    ensures var triggers' := if row.itemType == IssueItem then triggers + [id] else triggers;
            && Distinct(triggers')
            && forall x :: x in triggers' <==> x in created + [id] && x in issues[id := row] &&
                                               issues[id := row][x].itemType == IssueItem
  {
    if row.itemType == IssueItem {
      DistinctSnoc(triggers, id);
    }
  }

  lemma SyncProgressByOne(issues0: map<Id, TrackedIssue>, notes0: seq<Notification>, repos: map<Id, WatchedRepo>,
                          issues: map<Id, TrackedIssue>, notes: seq<Notification>, created: seq<Id>,
                          sources: seq<RepoIssue>, triggers: seq<Id>, notes': seq<Notification>,
                          wid: Id, id: Id, i: RepoIssue, kind: ItemType, user: Id, api: Api, now: int)
    requires SyncProgress(issues0, notes0, repos, issues, notes, created, sources, triggers, user, api, now)
    requires SyncWanted(repos, wid, i, kind, user, api) && id !in issues
    requires |notes'| == |notes| + 1 && notes'[..|notes|] == notes
    requires Announces(notes'[|notes|], id, ListedRow(wid, i, kind, now), repos[wid], repos[wid].owner, repos[wid].repo, now)
    ensures SyncProgress(issues0, notes0, repos, issues[id := ListedRow(wid, i, kind, now)], notes',
                         created + [id], sources + [i], if kind == IssueItem then triggers + [id] else triggers,
                         user, api, now)
  {
    var row := ListedRow(wid, i, kind, now);
    GrewByOne(issues0, issues, created, id, row);
    AnnouncedByOne(notes0, notes, notes', created, issues, repos, false, now, id, row);
    SyncRowsByOne(issues, repos, created, sources, wid, id, i, kind, user, api, now);
    TriggersByOne(issues, created, triggers, id, row);
  }

  /** One listed item for watcher `wid`: the filters, the existing row, for an
      issue the linked-PR lookup, and the insert. The lookup cannot throw: the
      listing was just read with the same user's token. */
  method ScreenItem(st: Store, wid: Id, i: RepoIssue, kind: ItemType, api: Api, now: int) returns (id: Option<Id>)
    requires st.Valid() && wid in st.repos && HasToken(api, st.repos[wid].userId)
    modifies st
    ensures st.Valid()
    ensures st.repos == old(st.repos) && st.prefs == old(st.prefs) && st.users == old(st.users)
    ensures id.Some? <==> Passes(st.repos[wid], i, kind, api) && !HasIssue(old(st.issues), wid, i.number)
    ensures id.None? ==> st.issues == old(st.issues) && st.notifications == old(st.notifications)
    ensures id.Some? ==>
      && id.value !in old(st.issues)
      && st.issues == old(st.issues)[id.value := ListedRow(wid, i, kind, now)]
      && |st.notifications| == |old(st.notifications)| + 1
      && st.notifications[..|old(st.notifications)|] == old(st.notifications)
      && Announces(st.notifications[|old(st.notifications)|], id.value, ListedRow(wid, i, kind, now), st.repos[wid],
                   st.repos[wid].owner, st.repos[wid].repo, now)
  {
    var w := st.repos[wid];
    var itemLabels := LabelNames(i.labels);
    if !LabelPasses(w.labels, itemLabels) {
      return None;
    }
    if !TitlePasses(w.titleQuery, i.title) {
      return None;
    }
    if HasIssue(st.issues, wid, i.number) {
      return None;
    }
    if kind == IssueItem {
      var hasPr := IssueHasLinkedPR(api, w.userId, w.owner, w.repo, i.number);
      assert hasPr.Got?;
      if hasPr.value {
        return None;
      }
    }
    var created := Admit(st, wid, w.owner, w.repo, i.number, i.title, i.htmlUrl, itemLabels, kind,
                         if kind == IssueItem then Queued else Skipped, now);
    return Some(created);
  }

  /** `ScreenItem` with the loops' bookkeeping. */
  method ItemStep(st: Store, wid: Id, i: RepoIssue, kind: ItemType, user: Id, api: Api, now: int,
                  ghost issues0: map<Id, TrackedIssue>, ghost notes0: seq<Notification>,
                  ghost repos: map<Id, WatchedRepo>, created: seq<Id>, ghost sources: seq<RepoIssue>,
                  triggers: seq<Id>, ghost start: map<Id, TrackedIssue>)
    returns (created': seq<Id>, ghost sources': seq<RepoIssue>, triggers': seq<Id>)
    requires st.Valid() && st.repos == repos && Listed(repos, wid, i, kind, user, api)
    requires SyncProgress(issues0, notes0, repos, st.issues, st.notifications, created, sources, triggers, user, api, now)
    requires KeepsTracked(start, st.issues)
    modifies st
    ensures st.Valid()
    ensures st.repos == old(st.repos) && st.prefs == old(st.prefs) && st.users == old(st.users)
    ensures SyncProgress(issues0, notes0, repos, st.issues, st.notifications, created', sources', triggers', user, api, now)
    ensures KeepsTracked(start, st.issues) && KeepsTracked(old(st.issues), st.issues)
    ensures SyncWanted(repos, wid, i, kind, user, api) ==> HasIssue(st.issues, wid, i.number)
  {
    ghost var before, notesBefore := st.issues, st.notifications;
    var id := ScreenItem(st, wid, i, kind, api, now);
    if id.Some? {
      SyncProgressByOne(issues0, notes0, repos, before, notesBefore, created, sources, triggers, st.notifications,
                        wid, id.value, i, kind, user, api, now);
      TrackedByOne(before, id.value, ListedRow(wid, i, kind, now));
      created', sources' := created + [id.value], sources + [i];
      triggers' := if kind == IssueItem then triggers + [id.value] else triggers;
    } else {
      created', sources', triggers' := created, sources, triggers;
    }
    KeepsTrackedTransitive(start, before, st.issues);
  }

  /** The first `n` items of listing `L` are tracked wherever the sync wants them. */
  ghost predicate ItemsCovered(issues: map<Id, TrackedIssue>, repos: map<Id, WatchedRepo>, wid: Id,
                               L: seq<RepoIssue>, n: nat, kind: ItemType, user: Id, api: Api)
    requires n <= |L|
  {
    forall p :: 0 <= p < n && SyncWanted(repos, wid, L[p], kind, user, api) ==> HasIssue(issues, wid, L[p].number)
  }

  /** Every item of kind `kind` the sync wants for `wid` is tracked. */
  ghost predicate KindCovered(issues: map<Id, TrackedIssue>, repos: map<Id, WatchedRepo>, wid: Id,
                              kind: ItemType, user: Id, api: Api) {
    forall i :: SyncWanted(repos, wid, i, kind, user, api) ==> HasIssue(issues, wid, i.number)
  }

  lemma ItemsCoveredGrows(issues: map<Id, TrackedIssue>, issues': map<Id, TrackedIssue>, repos: map<Id, WatchedRepo>,
                          wid: Id, L: seq<RepoIssue>, n: nat, kind: ItemType, user: Id, api: Api)
    requires n < |L| && ItemsCovered(issues, repos, wid, L, n, kind, user, api) && KeepsTracked(issues, issues')
    requires SyncWanted(repos, wid, L[n], kind, user, api) ==> HasIssue(issues', wid, L[n].number)
    ensures ItemsCovered(issues', repos, wid, L, n + 1, kind, user, api)
  {
  }

  lemma ItemsComplete(issues: map<Id, TrackedIssue>, repos: map<Id, WatchedRepo>, wid: Id,
                      L: seq<RepoIssue>, kind: ItemType, user: Id, api: Api)
    requires ItemsCovered(issues, repos, wid, L, |L|, kind, user, api)
    requires forall i :: Listed(repos, wid, i, kind, user, api) ==> i in L
    ensures KindCovered(issues, repos, wid, kind, user, api)
  {
    forall i | SyncWanted(repos, wid, i, kind, user, api) ensures HasIssue(issues, wid, i.number) {
      var p :| 0 <= p < |L| && L[p] == i;
    }
  }

  lemma KindCoveredKeeps(issues: map<Id, TrackedIssue>, issues': map<Id, TrackedIssue>, repos: map<Id, WatchedRepo>,
                         wid: Id, kind: ItemType, user: Id, api: Api)
    requires KindCovered(issues, repos, wid, kind, user, api) && KeepsTracked(issues, issues')
    ensures KindCovered(issues', repos, wid, kind, user, api)
  {
  }

  /** One of the two inner loops: every item of listing `L`, of kind `kind`. */
  method ScreenListing(st: Store, wid: Id, L: seq<RepoIssue>, kind: ItemType, user: Id, api: Api, now: int,
                       ghost issues0: map<Id, TrackedIssue>, ghost notes0: seq<Notification>,
                       ghost repos: map<Id, WatchedRepo>, created: seq<Id>, ghost sources: seq<RepoIssue>,
                       triggers: seq<Id>)
    returns (created': seq<Id>, ghost sources': seq<RepoIssue>, triggers': seq<Id>)
    requires st.Valid() && st.repos == repos
    requires forall p :: 0 <= p < |L| ==> Listed(repos, wid, L[p], kind, user, api)
    requires forall i :: Listed(repos, wid, i, kind, user, api) ==> i in L
    requires SyncProgress(issues0, notes0, repos, st.issues, st.notifications, created, sources, triggers, user, api, now)
    modifies st
    ensures st.Valid()
    ensures st.repos == old(st.repos) && st.prefs == old(st.prefs) && st.users == old(st.users)
    ensures SyncProgress(issues0, notes0, repos, st.issues, st.notifications, created', sources', triggers', user, api, now)
    ensures KeepsTracked(old(st.issues), st.issues)
    ensures KindCovered(st.issues, repos, wid, kind, user, api)
  {
    created', sources', triggers' := created, sources, triggers;
    for n := 0 to |L|
      invariant st.Valid() && st.repos == repos && st.prefs == old(st.prefs) && st.users == old(st.users)
      invariant SyncProgress(issues0, notes0, repos, st.issues, st.notifications, created', sources', triggers', user, api, now)
      invariant KeepsTracked(old(st.issues), st.issues)
      invariant ItemsCovered(st.issues, repos, wid, L, n, kind, user, api)
    {
      ghost var before := st.issues;
      created', sources', triggers' := ItemStep(st, wid, L[n], kind, user, api, now, issues0, notes0, repos,
                                                created', sources', triggers', old(st.issues));
      ItemsCoveredGrows(before, st.issues, repos, wid, L, n, kind, user, api);
    }
    ItemsComplete(st.issues, repos, wid, L, kind, user, api);
  }

  /** Every item of either kind the sync wants for `wid` is tracked. */
  ghost predicate RepoCovered(issues: map<Id, TrackedIssue>, repos: map<Id, WatchedRepo>, wid: Id, user: Id, api: Api) {
    KindCovered(issues, repos, wid, IssueItem, user, api) && KindCovered(issues, repos, wid, PullRequestItem, user, api)
  }

  /** The body of the loop over repositories; an exception ends this repository alone. */
  method SyncRepo(st: Store, wid: Id, user: Id, api: Api, now: int,
                  ghost issues0: map<Id, TrackedIssue>, ghost notes0: seq<Notification>,
                  ghost repos: map<Id, WatchedRepo>, created: seq<Id>, ghost sources: seq<RepoIssue>,
                  triggers: seq<Id>)
    returns (created': seq<Id>, ghost sources': seq<RepoIssue>, triggers': seq<Id>)
    requires st.Valid() && st.repos == repos && wid in repos && repos[wid].userId == user && !repos[wid].frozen
    requires SyncProgress(issues0, notes0, repos, st.issues, st.notifications, created, sources, triggers, user, api, now)
    modifies st
    ensures st.Valid()
    ensures st.repos == old(st.repos) && st.prefs == old(st.prefs) && st.users == old(st.users)
    ensures SyncProgress(issues0, notes0, repos, st.issues, st.notifications, created', sources', triggers', user, api, now)
    ensures KeepsTracked(old(st.issues), st.issues)
    ensures RepoCovered(st.issues, repos, wid, user, api)
  {
    created', sources', triggers' := created, sources, triggers;
    var w := st.repos[wid];
    var issues := FetchRepoIssues(api, w.userId, w.owner, w.repo);
    if issues.Threw? {
      return;
    }
    created', sources', triggers' := ScreenListing(st, wid, issues.value, IssueItem, user, api, now,
                                                   issues0, notes0, repos, created', sources', triggers');
    ghost var afterIssues := st.issues;
    var pulls := FetchRepoPullRequests(api, w.userId, w.owner, w.repo);
    if pulls.Threw? {
      return;
    }
    created', sources', triggers' := ScreenListing(st, wid, pulls.value, PullRequestItem, user, api, now,
                                                   issues0, notes0, repos, created', sources', triggers');
    KindCoveredKeeps(afterIssues, st.issues, repos, wid, IssueItem, user, api);
    KeepsTrackedTransitive(old(st.issues), afterIssues, st.issues);
  }

  /** The first `n` repositories of `ws` are covered. */
  ghost predicate ReposCovered(issues: map<Id, TrackedIssue>, repos: map<Id, WatchedRepo>, ws: seq<Id>, n: nat, user: Id, api: Api)
    requires n <= |ws|
  {
    forall p :: 0 <= p < n ==> RepoCovered(issues, repos, ws[p], user, api)
  }

  lemma ReposCoveredGrows(issues: map<Id, TrackedIssue>, issues': map<Id, TrackedIssue>, repos: map<Id, WatchedRepo>,
                          ws: seq<Id>, n: nat, user: Id, api: Api)
    requires n < |ws| && ReposCovered(issues, repos, ws, n, user, api) && KeepsTracked(issues, issues')
    requires RepoCovered(issues', repos, ws[n], user, api)
    ensures ReposCovered(issues', repos, ws, n + 1, user, api)
  {
    forall p | 0 <= p < n ensures RepoCovered(issues', repos, ws[p], user, api) {
      KindCoveredKeeps(issues, issues', repos, ws[p], IssueItem, user, api);
      KindCoveredKeeps(issues, issues', repos, ws[p], PullRequestItem, user, api);
    }
  }

  /** The loop over the user's repositories, before the triggers run. */
  method SyncRepos(st: Store, ws: seq<Id>, user: Id, api: Api, now: int)
    returns (created: seq<Id>, ghost sources: seq<RepoIssue>, triggers: seq<Id>)
    requires st.Valid() && forall k :: 0 <= k < |ws| ==> ws[k] in OwnActiveIds(st.repos, user)
    modifies st
    ensures st.Valid()
    ensures st.repos == old(st.repos) && st.prefs == old(st.prefs) && st.users == old(st.users)
    ensures SyncProgress(old(st.issues), old(st.notifications), st.repos, st.issues, st.notifications,
                         created, sources, triggers, user, api, now)
    ensures ReposCovered(st.issues, st.repos, ws, |ws|, user, api)
  {
    created, sources, triggers := [], [], [];
    ghost var repos := st.repos;
    for n := 0 to |ws|
      invariant st.Valid() && st.repos == repos && st.prefs == old(st.prefs) && st.users == old(st.users)
      invariant SyncProgress(old(st.issues), old(st.notifications), repos, st.issues, st.notifications,
                             created, sources, triggers, user, api, now)
      invariant ReposCovered(st.issues, repos, ws, n, user, api)
    {
      ghost var before := st.issues;
      created, sources, triggers := SyncRepo(st, ws[n], user, api, now, old(st.issues), old(st.notifications),
                                             repos, created, sources, triggers);
      ReposCoveredGrows(before, st.issues, repos, ws, n, user, api);
    }
  }

  /** Everything the sync wants is tracked once every own repository is covered. */
  lemma SyncedAll(issues: map<Id, TrackedIssue>, repos: map<Id, WatchedRepo>, ws: seq<Id>, user: Id, api: Api)
    requires forall x :: x in ws <==> x in OwnActiveIds(repos, user)
    requires ReposCovered(issues, repos, ws, |ws|, user, api)
    ensures forall wid, i, kind :: SyncWanted(repos, wid, i, kind, user, api) ==> HasIssue(issues, wid, i.number)
  {
    forall wid, i, kind | SyncWanted(repos, wid, i, kind, user, api) ensures HasIssue(issues, wid, i.number) {
      assert wid in OwnActiveIds(repos, user);
      var p :| 0 <= p < |ws| && ws[p] == wid;
      assert RepoCovered(issues, repos, ws[p], user, api);
    }
  }

  /** One count per own active repository. */
  lemma OwnCounted(repos: map<Id, WatchedRepo>, ws: seq<Id>, user: Id)
    requires Distinct(ws) && forall x :: x in ws <==> x in OwnActiveIds(repos, user)
    ensures |ws| == |OwnActiveIds(repos, user)|
  {
    DistinctLength(ws, OwnActiveIds(repos, user));
  }

  /** The new rows after the issue rows' triggers ran: an issue row is its
      listed row with the trigger applied, a pull-request row is its listed row. */
  lemma TriggeredRowsSynced(mid: map<Id, TrackedIssue>, after: map<Id, TrackedIssue>, repos: map<Id, WatchedRepo>,
                            created: seq<Id>, sources: seq<RepoIssue>, triggers: seq<Id>, user: Id, api: Api, now: int)
    requires forall id :: id in mid ==> mid[id].watchedRepoId in repos
    requires SyncRows(mid, repos, created, sources, user, api, now)
    requires forall id :: id in triggers <==> id in created && id in mid && mid[id].itemType == IssueItem
    requires after == TriggeredRows(mid, repos, api, now, Elems(triggers))
    ensures forall k :: 0 <= k < |created| ==>
      && created[k] in after
      && var t := after[created[k]];
         && SyncWanted(repos, t.watchedRepoId, sources[k], t.itemType, user, api)
         && (t.itemType == IssueItem ==>
               && Untriggered(t) == ListedRow(t.watchedRepoId, sources[k], IssueItem, now)
               && t == TriggerStep(Untriggered(t), repos[t.watchedRepoId], api, now).issue)
         && (t.itemType == PullRequestItem ==> t == ListedRow(t.watchedRepoId, sources[k], PullRequestItem, now))
  {
    TriggeredRowsKeep(mid, repos, api, now, Elems(triggers));
    forall k | 0 <= k < |created|
      ensures && created[k] in after
              && var t := after[created[k]];
                 && SyncWanted(repos, t.watchedRepoId, sources[k], t.itemType, user, api)
                 && (t.itemType == IssueItem ==>
                       && Untriggered(t) == ListedRow(t.watchedRepoId, sources[k], IssueItem, now)
                       && t == TriggerStep(Untriggered(t), repos[t.watchedRepoId], api, now).issue)
                 && (t.itemType == PullRequestItem ==> t == ListedRow(t.watchedRepoId, sources[k], PullRequestItem, now))
    {
      var c := created[k];
      var w := repos[mid[c].watchedRepoId];
      assert Untriggered(after[c]) == Untriggered(mid[c]);
      if mid[c].itemType == IssueItem {
        assert c in Elems(triggers);
        assert after[c] == TriggerStep(mid[c], w, api, now).issue;
        UntriggeredInverts(mid[c], w, api, now);
      } else {
        assert c !in Elems(triggers);
      }
    }
  }

  /** `POST /api/repos/sync`. */
  method PostSync(st: Store, session: Option<Id>, api: Api, now: int)
    returns (r: Reply<SyncResult>, created: seq<Id>, triggers: seq<Id>, ghost sources: seq<RepoIssue>)
    requires st.Valid()
    modifies st
    ensures st.Valid()
    ensures st.repos == old(st.repos) && st.prefs == old(st.prefs) && st.users == old(st.users)
    ensures session.None? ==>
      r == Unauthorized && created == [] && st.issues == old(st.issues) && st.notifications == old(st.notifications)
    // one count per own unfrozen repository; issue rows and pull-request rows counted apart
    ensures session.Some? ==>
      && |triggers| <= |created|
      && r == Ok(SyncResult(|OwnActiveIds(st.repos, session.value)|, |triggers|, |created| - |triggers|))
    // the triggered rows are exactly the new issue rows
    ensures Distinct(triggers) && forall id :: id in triggers <==> id in created && id in st.issues && st.issues[id].itemType == IssueItem
    // earlier rows are untouched, and the new ones are the rows `created`
    ensures forall id :: id in old(st.issues) ==> id in st.issues && st.issues[id] == old(st.issues)[id]
    ensures forall id :: id in st.issues ==> id in old(st.issues) || id in created
    ensures Distinct(created) && |sources| == |created|
    ensures session.Some? ==> forall k :: 0 <= k < |created| ==>
      && created[k] !in old(st.issues) && created[k] in st.issues
      && var t := st.issues[created[k]];
         && SyncWanted(st.repos, t.watchedRepoId, sources[k], t.itemType, session.value, api)
         && (t.itemType == IssueItem ==>
               && Untriggered(t) == ListedRow(t.watchedRepoId, sources[k], IssueItem, now)
               && t == TriggerStep(Untriggered(t), st.repos[t.watchedRepoId], api, now).issue)
         && (t.itemType == PullRequestItem ==> t == ListedRow(t.watchedRepoId, sources[k], PullRequestItem, now))
    // each new row has its announcement, in order, naming the watched repository
    ensures Announced(old(st.notifications), st.notifications, created, st.issues, st.repos, false, now)
    // complete: every item the sync wants is tracked
    ensures session.Some? ==> forall wid, i, kind :: SyncWanted(st.repos, wid, i, kind, session.value, api) ==>
      HasIssue(st.issues, wid, i.number)
  {
    if session.None? {
      return Unauthorized, [], [], [];
    }
    var user := session.value;
    var ws := Enumerate(OwnActiveIds(st.repos, user));
    created, sources, triggers := SyncRepos(st, ws, user, api, now);
    SyncedAll(st.issues, st.repos, ws, user, api);
    OwnCounted(st.repos, ws, user);
    ghost var mid := st.issues;
    RunTriggers(st, triggers, api, now);
    TriggeredRowsKeep(mid, st.repos, api, now, Elems(triggers));
    AnnouncedKeeps(old(st.notifications), st.notifications, created, mid, st.issues, st.repos, false, now);
    HasIssueKeeps(mid, st.issues);
    TriggeredRowsSynced(mid, st.issues, st.repos, created, sources, triggers, user, api, now);
    r := Ok(SyncResult(|ws|, |triggers|, |created| - |triggers|));
  }
}
