/** `GET /api/cron/poll-issues`: groups the watched repositories that are not
    frozen by `owner/repo`, lists each group's open issues once with the first
    watcher's token, and creates a tracked row (with its announcement and its
    auto-fix trigger) for every watcher whose filters the issue passes. */
module PollIssues {
  import opened Base
  import opened Records
  import opened Db
  import opened GitHub
  import opened Copilot
  import opened Cron
  import opened Discovery

  /** The response `{ reposPolled, issuesCreated }`. */
  datatype PollResult = PollResult(reposPolled: nat, issuesCreated: nat)

  /** `findMany({ where: { frozen: false } })`. */
  function ActiveIds(repos: map<Id, WatchedRepo>): (s: set<Id>)
    ensures forall id :: id in s <==> id in repos && !repos[id].frozen
  {
    set id | id in repos && !repos[id].frozen
  }

  /** The distinct group keys of the active watchers. */
  function ActiveKeys(repos: map<Id, WatchedRepo>): (keys: set<string>)
    ensures forall key :: key in keys <==> exists id :: id in ActiveIds(repos) && GroupKey(repos[id]) == key
  {
    set id | id in ActiveIds(repos) :: GroupKey(repos[id])
  }

  /** The watchers of `ws` filed under `key`, in their order in `ws`. */
  function Members(repos: map<Id, WatchedRepo>, ws: seq<Id>, key: string): (m: seq<Id>)
    requires forall k :: 0 <= k < |ws| ==> ws[k] in repos
    ensures |m| <= |ws|
  {
    if ws == [] then []
    else
      var init := ws[..|ws| - 1];
      Members(repos, init, key) + if GroupKey(repos[ws[|ws| - 1]]) == key then [ws[|ws| - 1]] else []
  }

  /** A group holds exactly the watchers filed under its key. */
  lemma {:induction false} MembersMeaning(repos: map<Id, WatchedRepo>, ws: seq<Id>, key: string)
    requires forall k :: 0 <= k < |ws| ==> ws[k] in repos
    ensures forall x :: x in Members(repos, ws, key) <==> x in ws && GroupKey(repos[x]) == key
  {
    if ws != [] {
      var init := ws[..|ws| - 1];
      assert forall x :: x in ws <==> x in init || x == ws[|ws| - 1];
      MembersMeaning(repos, init, key);
    }
  }

  /** The grouping loop: the keys in order of first appearance, and each key's watchers. */
  method GroupByRepo(repos: map<Id, WatchedRepo>, ws: seq<Id>) returns (keys: seq<string>, groups: map<string, seq<Id>>)
    requires forall k :: 0 <= k < |ws| ==> ws[k] in repos
    ensures GroupedByKey(repos, ws, keys, groups)
  {
    keys, groups := [], map[];
    for i := 0 to |ws|
      invariant Grouped(repos, ws, i, keys, groups) && Distinct(keys)
    {
      keys, groups := GroupNext(repos, ws, i, keys, groups);
    }
    GroupedAll(repos, ws, keys, groups);
  }

  /** The outcome of the grouping loop: each key once, in a map to its
      non-empty group, which holds exactly the watchers filed under that key,
      in their order. */
  ghost predicate GroupedByKey(repos: map<Id, WatchedRepo>, ws: seq<Id>, keys: seq<string>, groups: map<string, seq<Id>>)
    requires forall k :: 0 <= k < |ws| ==> ws[k] in repos
  {
    && Distinct(keys)
    && (forall key :: key in groups <==> key in keys)
    && (forall key :: key in groups ==> groups[key] == Members(repos, ws, key) && groups[key] != [])
    && (forall key, x :: key in groups && x in groups[key] ==> x in ws && GroupKey(repos[x]) == key)
    && (forall k :: 0 <= k < |ws| ==> GroupKey(repos[ws[k]]) in groups && ws[k] in groups[GroupKey(repos[ws[k]])])
  }

  lemma GroupedAll(repos: map<Id, WatchedRepo>, ws: seq<Id>, keys: seq<string>, groups: map<string, seq<Id>>)
    requires forall k :: 0 <= k < |ws| ==> ws[k] in repos
    requires Grouped(repos, ws, |ws|, keys, groups) && Distinct(keys)
    ensures GroupedByKey(repos, ws, keys, groups)
  {
    assert ws[..|ws|] == ws;
    forall key ensures key in groups <==> key in keys {
      assert GroupedAt(repos, ws, |ws|, keys, groups, key);
    }
    forall key | key in groups ensures groups[key] == Members(repos, ws, key) && groups[key] != [] {
      assert GroupedAt(repos, ws, |ws|, keys, groups, key);
    }
    forall key | key in groups ensures forall x :: x in groups[key] ==> x in ws && GroupKey(repos[x]) == key {
      assert GroupedAt(repos, ws, |ws|, keys, groups, key);
      MembersMeaning(repos, ws, key);
    }
    forall k | 0 <= k < |ws| ensures GroupKey(repos[ws[k]]) in groups && ws[k] in groups[GroupKey(repos[ws[k]])] {
      assert GroupedAt(repos, ws, |ws|, keys, groups, GroupKey(repos[ws[k]]));
      MembersMeaning(repos, ws, GroupKey(repos[ws[k]]));
    }
    forall key ensures key in keys <==> exists k :: 0 <= k < |ws| && GroupKey(repos[ws[k]]) == key {
      assert GroupedAt(repos, ws, |ws|, keys, groups, key);
      MembersMeaning(repos, ws, key);
      if key in keys {
        var x := Members(repos, ws, key)[0];
        assert x in Members(repos, ws, key);
      }
    }
  }

  /** The grouping loop after the first `i` watchers. */
  ghost predicate Grouped(repos: map<Id, WatchedRepo>, ws: seq<Id>, i: nat, keys: seq<string>, groups: map<string, seq<Id>>)
    requires i <= |ws| && forall k :: 0 <= k < |ws| ==> ws[k] in repos
  {
    forall key :: GroupedAt(repos, ws, i, keys, groups, key)
  }

  /** `Grouped` for one key: listed exactly when filed under, and its group
      holds the watchers so far filed under it. */
  ghost predicate GroupedAt(repos: map<Id, WatchedRepo>, ws: seq<Id>, i: nat, keys: seq<string>,
                            groups: map<string, seq<Id>>, key: string)
    requires i <= |ws| && forall k :: 0 <= k < |ws| ==> ws[k] in repos
  {
    && (key in groups <==> key in keys)
    && (key in groups <==> Members(repos, ws[..i], key) != [])
    && (key in groups ==> groups[key] == Members(repos, ws[..i], key))
  }

  /** One watcher of the grouping loop. */
  method GroupNext(repos: map<Id, WatchedRepo>, ws: seq<Id>, i: nat, keys: seq<string>, groups: map<string, seq<Id>>)
    returns (keys': seq<string>, groups': map<string, seq<Id>>)
    requires i < |ws| && forall k :: 0 <= k < |ws| ==> ws[k] in repos
    requires Grouped(repos, ws, i, keys, groups) && Distinct(keys)
    ensures Grouped(repos, ws, i + 1, keys', groups') && Distinct(keys')
  {
    var key := GroupKey(repos[ws[i]]);
    assert GroupedAt(repos, ws, i, keys, groups, key);
    if key !in groups {
      DistinctSnoc(keys, key);
      keys', groups' := keys + [key], groups[key := [ws[i]]];
    } else {
      keys', groups' := keys, groups[key := groups[key] + [ws[i]]];
    }
    GroupedSnoc(repos, ws, i, keys, groups, keys', groups');
  }

  lemma GroupedSnoc(repos: map<Id, WatchedRepo>, ws: seq<Id>, i: nat, keys: seq<string>, groups: map<string, seq<Id>>,
                    keys': seq<string>, groups': map<string, seq<Id>>)
    requires i < |ws| && forall k :: 0 <= k < |ws| ==> ws[k] in repos
    requires Grouped(repos, ws, i, keys, groups)
    requires var key := GroupKey(repos[ws[i]]);
             if key in groups then keys' == keys && groups' == groups[key := groups[key] + [ws[i]]]
             else keys' == keys + [key] && groups' == groups[key := [ws[i]]]
    ensures Grouped(repos, ws, i + 1, keys', groups')
  {
    var n := i + 1;
    forall k ensures GroupedAt(repos, ws, n, keys', groups', k) {
      assert GroupedAt(repos, ws, i, keys, groups, k);
      GroupedSnocAt(repos, ws, i, keys, groups, keys', groups', k);
    }
  }

  /** `GroupedSnoc` for one key. */
  lemma GroupedSnocAt(repos: map<Id, WatchedRepo>, ws: seq<Id>, i: nat, keys: seq<string>, groups: map<string, seq<Id>>,
                      keys': seq<string>, groups': map<string, seq<Id>>, k: string)
    requires i < |ws| && forall j :: 0 <= j < |ws| ==> ws[j] in repos
    requires GroupedAt(repos, ws, i, keys, groups, k)
    requires var key := GroupKey(repos[ws[i]]);
             if key in groups then keys' == keys && groups' == groups[key := groups[key] + [ws[i]]]
             else keys' == keys + [key] && groups' == groups[key := [ws[i]]]
    ensures GroupedAt(repos, ws, i + 1, keys', groups', k)
  {
    MembersSnoc(repos, ws, i, k);
  }

  /** Filing one more watcher appends it to its own key's group alone. */
  lemma MembersSnoc(repos: map<Id, WatchedRepo>, ws: seq<Id>, i: nat, key: string)
    requires i < |ws| && forall k :: 0 <= k < |ws| ==> ws[k] in repos
    ensures Members(repos, ws[..i + 1], key) ==
            Members(repos, ws[..i], key) + if GroupKey(repos[ws[i]]) == key then [ws[i]] else []
  {
    assert ws[..i + 1][..i] == ws[..i];
  }

  /** The owner and repository the poll reads for a watcher: its group key, split at `/`. */
  function PolledRepo(w: WatchedRepo): (string, string) {
    SplitRepoKey(GroupKey(w))
  }

  /** Watcher `wid` wants listed issue `i`: the watcher is active, the issue is
      an open issue of its repository (not a pull request), its label filter
      passes and the issue has no linked PR. */
  ghost predicate PollWanted(repos: map<Id, WatchedRepo>, wid: Id, i: RepoIssue, api: Api) {
    && wid in repos && !repos[wid].frozen
    && var (owner, repo) := PolledRepo(repos[wid]);
       && api.listIssues(owner, repo).Got? && i in api.listIssues(owner, repo).value && !i.isPullRequest
       && LabelPasses(repos[wid].labels, LabelNames(i.labels))
       && IssueHasLinkedPR(api, repos[wid].userId, owner, repo, i.number) == Got(false)
  }

  /** Every issue watcher `wid` wants is tracked for it. */
  ghost predicate Complete(issues: map<Id, TrackedIssue>, repos: map<Id, WatchedRepo>, wid: Id, api: Api) {
    forall i :: PollWanted(repos, wid, i, api) ==> HasIssue(issues, wid, i.number)
  }

  /** Every active watcher filed under `key` holds a GitHub token. */
  ghost predicate KeyHasTokens(repos: map<Id, WatchedRepo>, key: string, api: Api) {
    forall x :: x in repos && !repos[x].frozen && GroupKey(repos[x]) == key ==> HasToken(api, repos[x].userId)
  }

  /** The rows created so far, with the listed issue each one came from. */
  ghost predicate PollProgress(issues0: map<Id, TrackedIssue>, notes0: seq<Notification>, repos: map<Id, WatchedRepo>,
                               issues: map<Id, TrackedIssue>, notes: seq<Notification>,
                               created: seq<Id>, sources: seq<RepoIssue>, api: Api, now: int) {
    && Grew(issues0, issues, created)
    && Announced(notes0, notes, created, issues, repos, true, now)
    && RowsListed(issues, repos, created, sources, api, now)
  }

  ghost predicate RowsListed(issues: map<Id, TrackedIssue>, repos: map<Id, WatchedRepo>,
                             created: seq<Id>, sources: seq<RepoIssue>, api: Api, now: int) {
    && |sources| == |created|
    && forall k :: 0 <= k < |created| ==>
         created[k] in issues &&
         PollWanted(repos, issues[created[k]].watchedRepoId, sources[k], api) &&
         issues[created[k]] == ListedRow(issues[created[k]].watchedRepoId, sources[k], IssueItem, now)
  }

  lemma RowsListedByOne(issues: map<Id, TrackedIssue>, repos: map<Id, WatchedRepo>, created: seq<Id>,
                        sources: seq<RepoIssue>, wid: Id, id: Id, i: RepoIssue, api: Api, now: int)
    requires RowsListed(issues, repos, created, sources, api, now)
    requires PollWanted(repos, wid, i, api) && id !in issues
    ensures RowsListed(issues[id := ListedRow(wid, i, IssueItem, now)], repos, created + [id], sources + [i], api, now)
  {
    var after := issues[id := ListedRow(wid, i, IssueItem, now)];
    forall k | 0 <= k < |created + [id]|
      ensures var c := (created + [id])[k];
              c in after && PollWanted(repos, after[c].watchedRepoId, (sources + [i])[k], api) &&
              after[c] == ListedRow(after[c].watchedRepoId, (sources + [i])[k], IssueItem, now)
    {
      if k < |created| {
        assert (created + [id])[k] == created[k] && created[k] in issues && created[k] != id;
        assert (sources + [i])[k] == sources[k];
      }
    }
  }

  lemma PollProgressByOne(issues0: map<Id, TrackedIssue>, notes0: seq<Notification>, repos: map<Id, WatchedRepo>,
                          issues: map<Id, TrackedIssue>, notes: seq<Notification>, created: seq<Id>,
                          sources: seq<RepoIssue>, notes': seq<Notification>, wid: Id, id: Id, i: RepoIssue,
                          api: Api, now: int)
    requires PollProgress(issues0, notes0, repos, issues, notes, created, sources, api, now)
    requires PollWanted(repos, wid, i, api) && id !in issues
    requires |notes'| == |notes| + 1 && notes'[..|notes|] == notes
    requires Announces(notes'[|notes|], id, ListedRow(wid, i, IssueItem, now), repos[wid],
                       PolledRepo(repos[wid]).0, PolledRepo(repos[wid]).1, now)
    ensures PollProgress(issues0, notes0, repos, issues[id := ListedRow(wid, i, IssueItem, now)], notes',
                         created + [id], sources + [i], api, now)
  {
    var row := ListedRow(wid, i, IssueItem, now);
    GrewByOne(issues0, issues, created, id, row);
    AnnouncedByOne(notes0, notes, notes', created, issues, repos, true, now, id, row);
    RowsListedByOne(issues, repos, created, sources, wid, id, i, api, now);
  }

  /** One watcher and one listed issue, in the poll's order: labels, then the
      existing row, then the linked-PR lookup (which throws without a token). */
  method ScreenListed(st: Store, wid: Id, owner: string, repo: string, i: RepoIssue, api: Api, now: int)
    returns (step: Step)
    requires st.Valid() && wid in st.repos
    modifies st
    ensures st.Valid()
    ensures st.repos == old(st.repos) && st.prefs == old(st.prefs) && st.users == old(st.users)
    ensures var w := st.repos[wid];
            var passes := LabelPasses(w.labels, LabelNames(i.labels)) && !HasIssue(old(st.issues), wid, i.number);
            && (step.Aborted? <==> passes && !HasToken(api, w.userId))
            && (step.Created? <==> passes && IssueHasLinkedPR(api, w.userId, owner, repo, i.number) == Got(false))
    ensures !step.Created? ==> st.issues == old(st.issues) && st.notifications == old(st.notifications)
    ensures step.Created? ==>
      && step.id !in old(st.issues)
      && st.issues == old(st.issues)[step.id := ListedRow(wid, i, IssueItem, now)]
      && |st.notifications| == |old(st.notifications)| + 1
      && st.notifications[..|old(st.notifications)|] == old(st.notifications)
      && Announces(st.notifications[|old(st.notifications)|], step.id, ListedRow(wid, i, IssueItem, now), st.repos[wid],
                   owner, repo, now)
  {
    var w := st.repos[wid];
    var issueLabels := LabelNames(i.labels);
    if !LabelPasses(w.labels, issueLabels) {
      return Passed;
    }
    if HasIssue(st.issues, wid, i.number) {
      return Passed;
    }
    var hasPr := IssueHasLinkedPR(api, w.userId, owner, repo, i.number);
    if hasPr.Threw? {
      return Aborted;
    }
    if hasPr.value {
      return Passed;
    }
    var id := Admit(st, wid, owner, repo, i.number, i.title, i.htmlUrl, issueLabels, IssueItem, Queued, now);
    return Created(id);
  }

  /** `ScreenListed` with the loops' bookkeeping. */
  method ListedStep(st: Store, wid: Id, owner: string, repo: string, i: RepoIssue, api: Api, now: int,
                    ghost issues0: map<Id, TrackedIssue>, ghost notes0: seq<Notification>,
                    ghost repos: map<Id, WatchedRepo>, ghost created: seq<Id>, ghost sources: seq<RepoIssue>)
    returns (step: Step)
    requires st.Valid() && st.repos == repos && wid in repos && !repos[wid].frozen
    requires PolledRepo(repos[wid]) == (owner, repo)
    requires api.listIssues(owner, repo).Got? && i in api.listIssues(owner, repo).value && !i.isPullRequest
    requires PollProgress(issues0, notes0, repos, st.issues, st.notifications, created, sources, api, now)
    modifies st
    ensures st.Valid()
    ensures st.repos == old(st.repos) && st.prefs == old(st.prefs) && st.users == old(st.users)
    ensures PollProgress(issues0, notes0, repos, st.issues, st.notifications,
                         if step.Created? then created + [step.id] else created,
                         if step.Created? then sources + [i] else sources, api, now)
    ensures KeepsTracked(old(st.issues), st.issues)
    ensures step.Aborted? ==> !HasToken(api, repos[wid].userId)
    ensures PollWanted(repos, wid, i, api) ==> HasIssue(st.issues, wid, i.number)
  {
    ghost var before, notesBefore := st.issues, st.notifications;
    step := ScreenListed(st, wid, owner, repo, i, api, now);
    if step.Created? {
      PollProgressByOne(issues0, notes0, repos, before, notesBefore, created, sources, st.notifications,
                        wid, step.id, i, api, now);
      TrackedByOne(before, step.id, ListedRow(wid, i, IssueItem, now));
    }
  }

  /** The first `m` watchers of `gs` track listed issue `i` wherever they want it. */
  ghost predicate IssueCovered(issues: map<Id, TrackedIssue>, repos: map<Id, WatchedRepo>, gs: seq<Id>, m: nat,
                               i: RepoIssue, api: Api)
    requires m <= |gs|
  {
    forall j :: 0 <= j < m && PollWanted(repos, gs[j], i, api) ==> HasIssue(issues, gs[j], i.number)
  }

  lemma IssueCoveredGrows(issues: map<Id, TrackedIssue>, issues': map<Id, TrackedIssue>, repos: map<Id, WatchedRepo>,
                          gs: seq<Id>, m: nat, i: RepoIssue, api: Api)
    requires m < |gs| && IssueCovered(issues, repos, gs, m, i, api) && KeepsTracked(issues, issues')
    requires PollWanted(repos, gs[m], i, api) ==> HasIssue(issues', gs[m], i.number)
    ensures IssueCovered(issues', repos, gs, m + 1, i, api)
  {
  }

  /** The inner loop: one listed issue against every watcher of the group. */
  method ScreenWatchers(st: Store, gs: seq<Id>, owner: string, repo: string, i: RepoIssue, api: Api, now: int,
                        ghost issues0: map<Id, TrackedIssue>, ghost notes0: seq<Notification>,
                        ghost repos: map<Id, WatchedRepo>, created: seq<Id>, ghost sources: seq<RepoIssue>)
    returns (created': seq<Id>, ghost sources': seq<RepoIssue>, aborted: bool)
    requires st.Valid() && st.repos == repos
    requires forall j :: 0 <= j < |gs| ==> gs[j] in repos && !repos[gs[j]].frozen && PolledRepo(repos[gs[j]]) == (owner, repo)
    requires api.listIssues(owner, repo).Got? && i in api.listIssues(owner, repo).value && !i.isPullRequest
    requires PollProgress(issues0, notes0, repos, st.issues, st.notifications, created, sources, api, now)
    modifies st
    ensures st.Valid()
    ensures st.repos == old(st.repos) && st.prefs == old(st.prefs) && st.users == old(st.users)
    ensures PollProgress(issues0, notes0, repos, st.issues, st.notifications, created', sources', api, now)
    ensures KeepsTracked(old(st.issues), st.issues)
    ensures aborted ==> exists j :: 0 <= j < |gs| && !HasToken(api, repos[gs[j]].userId)
    ensures !aborted ==> IssueCovered(st.issues, repos, gs, |gs|, i, api)
  {
    created', sources', aborted := created, sources, false;
    for m := 0 to |gs|
      invariant st.Valid() && st.repos == repos && st.prefs == old(st.prefs) && st.users == old(st.users)
      invariant PollProgress(issues0, notes0, repos, st.issues, st.notifications, created', sources', api, now)
      invariant KeepsTracked(old(st.issues), st.issues)
      invariant IssueCovered(st.issues, repos, gs, m, i, api)
    {
      var step;
      step, created', sources' := WatcherNext(st, gs, m, owner, repo, i, api, now, issues0, notes0, repos,
                                              created', sources', old(st.issues));
      if step.Aborted? {
        return created', sources', true;
      }
    }
  }

  /** One watcher of the inner loop, with its bookkeeping. */
  method WatcherNext(st: Store, gs: seq<Id>, m: nat, owner: string, repo: string, i: RepoIssue, api: Api, now: int,
                     ghost issues0: map<Id, TrackedIssue>, ghost notes0: seq<Notification>,
                     ghost repos: map<Id, WatchedRepo>, created: seq<Id>, ghost sources: seq<RepoIssue>,
                     ghost start: map<Id, TrackedIssue>)
    returns (step: Step, created': seq<Id>, ghost sources': seq<RepoIssue>)
    requires m < |gs| && st.Valid() && st.repos == repos
    requires gs[m] in repos && !repos[gs[m]].frozen && PolledRepo(repos[gs[m]]) == (owner, repo)
    requires api.listIssues(owner, repo).Got? && i in api.listIssues(owner, repo).value && !i.isPullRequest
    requires PollProgress(issues0, notes0, repos, st.issues, st.notifications, created, sources, api, now)
    requires KeepsTracked(start, st.issues) && IssueCovered(st.issues, repos, gs, m, i, api)
    modifies st
    ensures st.Valid()
    ensures st.repos == old(st.repos) && st.prefs == old(st.prefs) && st.users == old(st.users)
    ensures PollProgress(issues0, notes0, repos, st.issues, st.notifications, created', sources', api, now)
    ensures KeepsTracked(start, st.issues)
    ensures step.Aborted? ==> !HasToken(api, repos[gs[m]].userId)
    ensures !step.Aborted? ==> IssueCovered(st.issues, repos, gs, m + 1, i, api)
  {
    ghost var before := st.issues;
    step := ListedStep(st, gs[m], owner, repo, i, api, now, issues0, notes0, repos, created, sources);
    KeepsTrackedTransitive(start, before, st.issues);
    IssueCoveredGrows(before, st.issues, repos, gs, m, i, api);
    if step.Created? {
      created', sources' := created + [step.id], sources + [i];
    } else {
      created', sources' := created, sources;
    }
  }

  /** Tracking more rows keeps a watcher complete. */
  lemma CompleteKeeps(issues: map<Id, TrackedIssue>, issues': map<Id, TrackedIssue>, repos: map<Id, WatchedRepo>,
                      wid: Id, api: Api)
    requires Complete(issues, repos, wid, api) && KeepsTracked(issues, issues')
    ensures Complete(issues', repos, wid, api)
  {
  }

  /** The first `n` issues of listing `L` are tracked for every watcher of `gs` that wants them. */
  ghost predicate ListingCovered(issues: map<Id, TrackedIssue>, repos: map<Id, WatchedRepo>, gs: seq<Id>,
                                 L: seq<RepoIssue>, n: nat, api: Api)
    requires n <= |L|
  {
    forall p :: 0 <= p < n ==> IssueCovered(issues, repos, gs, |gs|, L[p], api)
  }

  lemma ListingCoveredGrows(issues: map<Id, TrackedIssue>, issues': map<Id, TrackedIssue>, repos: map<Id, WatchedRepo>,
                            gs: seq<Id>, L: seq<RepoIssue>, n: nat, api: Api)
    requires n < |L| && ListingCovered(issues, repos, gs, L, n, api) && KeepsTracked(issues, issues')
    requires IssueCovered(issues', repos, gs, |gs|, L[n], api)
    ensures ListingCovered(issues', repos, gs, L, n + 1, api)
  {
    forall p | 0 <= p < n ensures IssueCovered(issues', repos, gs, |gs|, L[p], api) {
      assert IssueCovered(issues, repos, gs, |gs|, L[p], api);
    }
  }

  /** A listing covered to its end leaves every watcher of the group complete:
      each issue a watcher wants is in the listing. */
  lemma ListingComplete(issues: map<Id, TrackedIssue>, repos: map<Id, WatchedRepo>, gs: seq<Id>,
                        L: seq<RepoIssue>, owner: string, repo: string, api: Api)
    requires ListingCovered(issues, repos, gs, L, |L|, api)
    requires api.listIssues(owner, repo).Got?
    requires forall i :: i in L <==> i in api.listIssues(owner, repo).value && !i.isPullRequest
    requires forall j :: 0 <= j < |gs| ==> gs[j] in repos && PolledRepo(repos[gs[j]]) == (owner, repo)
    ensures forall j :: 0 <= j < |gs| ==> Complete(issues, repos, gs[j], api)
  {
    forall j, i | 0 <= j < |gs| && PollWanted(repos, gs[j], i, api) ensures HasIssue(issues, gs[j], i.number) {
      var p :| 0 <= p < |L| && L[p] == i;
      assert IssueCovered(issues, repos, gs, |gs|, L[p], api);
    }
  }

  /** A group whose listing cannot be read wants nothing. */
  lemma NothingWanted(issues: map<Id, TrackedIssue>, repos: map<Id, WatchedRepo>, wid: Id, owner: string, repo: string,
                      api: Api)
    requires wid in repos && PolledRepo(repos[wid]) == (owner, repo) && api.listIssues(owner, repo).Threw?
    ensures Complete(issues, repos, wid, api)
  {
  }

  /** The middle loop: one listed issue against the group, with its bookkeeping. */
  method IssueNext(st: Store, gs: seq<Id>, owner: string, repo: string, L: seq<RepoIssue>, n: nat, api: Api, now: int,
                   ghost issues0: map<Id, TrackedIssue>, ghost notes0: seq<Notification>,
                   ghost repos: map<Id, WatchedRepo>, created: seq<Id>, ghost sources: seq<RepoIssue>,
                   ghost start: map<Id, TrackedIssue>)
    returns (created': seq<Id>, ghost sources': seq<RepoIssue>, aborted: bool)
    requires n < |L| && st.Valid() && st.repos == repos
    requires forall j :: 0 <= j < |gs| ==> gs[j] in repos && !repos[gs[j]].frozen && PolledRepo(repos[gs[j]]) == (owner, repo)
    requires api.listIssues(owner, repo).Got? && L[n] in api.listIssues(owner, repo).value && !L[n].isPullRequest
    requires PollProgress(issues0, notes0, repos, st.issues, st.notifications, created, sources, api, now)
    requires KeepsTracked(start, st.issues) && ListingCovered(st.issues, repos, gs, L, n, api)
    modifies st
    ensures st.Valid()
    ensures st.repos == old(st.repos) && st.prefs == old(st.prefs) && st.users == old(st.users)
    ensures PollProgress(issues0, notes0, repos, st.issues, st.notifications, created', sources', api, now)
    ensures KeepsTracked(start, st.issues)
    ensures aborted ==> exists j :: 0 <= j < |gs| && !HasToken(api, repos[gs[j]].userId)
    ensures !aborted ==> ListingCovered(st.issues, repos, gs, L, n + 1, api)
  {
    ghost var before := st.issues;
    created', sources', aborted := ScreenWatchers(st, gs, owner, repo, L[n], api, now, issues0, notes0, repos,
                                                  created, sources);
    KeepsTrackedTransitive(start, before, st.issues);
    if !aborted {
      ListingCoveredGrows(before, st.issues, repos, gs, L, n, api);
    }
  }

  /** The body of the loop over groups: list the group's issues with its first
      watcher's token and screen them; an exception ends this group alone. */
  method PollGroup(st: Store, key: string, gs: seq<Id>, api: Api, now: int,
                   ghost issues0: map<Id, TrackedIssue>, ghost notes0: seq<Notification>,
                   ghost repos: map<Id, WatchedRepo>, created: seq<Id>, ghost sources: seq<RepoIssue>)
    returns (created': seq<Id>, ghost sources': seq<RepoIssue>)
    requires st.Valid() && st.repos == repos && gs != []
    requires forall j :: 0 <= j < |gs| ==> gs[j] in repos && !repos[gs[j]].frozen && GroupKey(repos[gs[j]]) == key
    requires PollProgress(issues0, notes0, repos, st.issues, st.notifications, created, sources, api, now)
    modifies st
    ensures st.Valid()
    ensures st.repos == old(st.repos) && st.prefs == old(st.prefs) && st.users == old(st.users)
    ensures PollProgress(issues0, notes0, repos, st.issues, st.notifications, created', sources', api, now)
    ensures KeepsTracked(old(st.issues), st.issues)
    ensures (forall j :: 0 <= j < |gs| ==> HasToken(api, repos[gs[j]].userId)) ==>
              forall j :: 0 <= j < |gs| ==> Complete(st.issues, repos, gs[j], api)
  {
    created', sources' := created, sources;
    var (owner, repo) := SplitRepoKey(key);
    var fetched := FetchRepoIssues(api, st.repos[gs[0]].userId, owner, repo);
    if fetched.Threw? {
      forall j | 0 <= j < |gs| && HasToken(api, repos[gs[0]].userId) ensures Complete(st.issues, repos, gs[j], api) {
        NothingWanted(st.issues, repos, gs[j], owner, repo, api);
      }
      return;
    }
    var L := fetched.value;
    for n := 0 to |L|
      invariant st.Valid() && st.repos == repos && st.prefs == old(st.prefs) && st.users == old(st.users)
      invariant PollProgress(issues0, notes0, repos, st.issues, st.notifications, created', sources', api, now)
      invariant KeepsTracked(old(st.issues), st.issues)
      invariant ListingCovered(st.issues, repos, gs, L, n, api)
    {
      var aborted;
      created', sources', aborted := IssueNext(st, gs, owner, repo, L, n, api, now, issues0, notes0, repos,
                                               created', sources', old(st.issues));
      if aborted {
        return;
      }
    }
    ListingComplete(st.issues, repos, gs, L, owner, repo, api);
  }

  /** A group whose watchers all hold tokens is complete. */
  ghost predicate GroupCovered(issues: map<Id, TrackedIssue>, repos: map<Id, WatchedRepo>, group: seq<Id>, api: Api)
    requires forall x :: x in group ==> x in repos
  {
    (forall x :: x in group ==> HasToken(api, repos[x].userId)) ==>
      forall x :: x in group ==> Complete(issues, repos, x, api)
  }

  lemma GroupCoveredKeeps(issues: map<Id, TrackedIssue>, issues': map<Id, TrackedIssue>, repos: map<Id, WatchedRepo>,
                          group: seq<Id>, api: Api)
    requires forall x :: x in group ==> x in repos
    requires GroupCovered(issues, repos, group, api) && KeepsTracked(issues, issues')
    ensures GroupCovered(issues', repos, group, api)
  {
    forall x | x in group && GroupCovered(issues, repos, group, api) && (forall y :: y in group ==> HasToken(api, repos[y].userId))
      ensures Complete(issues', repos, x, api)
    {
      CompleteKeeps(issues, issues', repos, x, api);
    }
  }

  /** Every group among the first `g` keys whose watchers all hold tokens is complete. */
  ghost predicate GroupsCovered(issues: map<Id, TrackedIssue>, repos: map<Id, WatchedRepo>, keys: seq<string>,
                                groups: map<string, seq<Id>>, g: nat, api: Api)
    requires g <= |keys| && forall key :: key in keys ==> key in groups
    requires forall key :: key in groups ==> forall x :: x in groups[key] ==> x in repos
  {
    forall h :: 0 <= h < g ==> GroupCovered(issues, repos, groups[keys[h]], api)
  }

  lemma GroupsCoveredGrows(issues: map<Id, TrackedIssue>, issues': map<Id, TrackedIssue>, repos: map<Id, WatchedRepo>,
                           keys: seq<string>, groups: map<string, seq<Id>>, g: nat, api: Api)
    requires g < |keys| && forall key :: key in keys ==> key in groups
    requires forall key :: key in groups ==> forall x :: x in groups[key] ==> x in repos
    requires GroupsCovered(issues, repos, keys, groups, g, api) && KeepsTracked(issues, issues')
    requires GroupCovered(issues', repos, groups[keys[g]], api)
    ensures GroupsCovered(issues', repos, keys, groups, g + 1, api)
  {
    forall h | 0 <= h < g ensures GroupCovered(issues', repos, groups[keys[h]], api) {
      GroupCoveredKeeps(issues, issues', repos, groups[keys[h]], api);
    }
  }

  /** The loop over the groups, in the order their keys first appeared. */
  method PollGroups(st: Store, keys: seq<string>, groups: map<string, seq<Id>>, api: Api, now: int)
    returns (created: seq<Id>, ghost sources: seq<RepoIssue>)
    requires st.Valid()
    requires forall key :: key in keys ==> key in groups
    requires forall key :: key in groups ==> groups[key] != []
    requires forall key :: key in groups ==>
               forall x :: x in groups[key] ==> x in st.repos && !st.repos[x].frozen && GroupKey(st.repos[x]) == key
    modifies st
    ensures st.Valid()
    ensures st.repos == old(st.repos) && st.prefs == old(st.prefs) && st.users == old(st.users)
    ensures PollProgress(old(st.issues), old(st.notifications), st.repos, st.issues, st.notifications, created, sources, api, now)
    ensures GroupsCovered(st.issues, st.repos, keys, groups, |keys|, api)
  {
    ghost var issues0, notes0, repos := st.issues, st.notifications, st.repos;
    created, sources := [], [];
    for g := 0 to |keys|
      invariant st.Valid() && st.repos == repos && st.prefs == old(st.prefs) && st.users == old(st.users)
      invariant PollProgress(issues0, notes0, repos, st.issues, st.notifications, created, sources, api, now)
      invariant GroupsCovered(st.issues, repos, keys, groups, g, api)
    {
      ghost var before := st.issues;
      created, sources := PollGroup(st, keys[g], groups[keys[g]], api, now, issues0, notes0, repos, created, sources);
      GroupsCoveredGrows(before, st.issues, repos, keys, groups, g, api);
    }
  }

  /** The poll, after authorization. */
  method GetPollIssues(st: Store, header: Option<string>, secret: Option<string>, api: Api, now: int)
    returns (r: Reply<PollResult>, created: seq<Id>, ghost sources: seq<RepoIssue>)
    requires st.Valid()
    modifies st
    ensures st.Valid()
    ensures st.repos == old(st.repos) && st.prefs == old(st.prefs) && st.users == old(st.users)
    ensures !CronAuthorized(header, secret) ==>
      r == Unauthorized && created == [] && st.issues == old(st.issues) && st.notifications == old(st.notifications)
    ensures CronAuthorized(header, secret) ==> r.Ok?
    // one poll per distinct owner/repo, one count per created row
    ensures r.Ok? ==> r.body.reposPolled == |ActiveKeys(st.repos)| && r.body.issuesCreated == |created|
    // earlier rows are untouched, and the new ones are the rows `created`
    ensures forall id :: id in old(st.issues) ==> id in st.issues && st.issues[id] == old(st.issues)[id]
    ensures forall id :: id in st.issues ==> id in old(st.issues) || id in created
    ensures Distinct(created) && |sources| == |created|
    // each new row is a listed issue its watcher wants, after its trigger
    ensures forall k :: 0 <= k < |created| ==>
      && created[k] !in old(st.issues) && created[k] in st.issues
      && var t := st.issues[created[k]];
         && PollWanted(st.repos, t.watchedRepoId, sources[k], api)
         && Untriggered(t) == ListedRow(t.watchedRepoId, sources[k], IssueItem, now)
         && t == TriggerStep(Untriggered(t), st.repos[t.watchedRepoId], api, now).issue
    // and each has its announcement, in order, naming the split group key
    ensures Announced(old(st.notifications), st.notifications, created, st.issues, st.repos, true, now)
    // complete: an active watcher whose group all holds tokens tracks every issue it wants
    ensures r.Ok? ==> forall wid :: wid in ActiveIds(st.repos) && KeyHasTokens(st.repos, GroupKey(st.repos[wid]), api) ==>
      Complete(st.issues, st.repos, wid, api)
  {
    if !CronAuthorized(header, secret) {
      return Unauthorized, [], [];
    }
    var reposPolled;
    reposPolled, created, sources := PollActive(st, api, now);
    ghost var mid := st.issues;
    RunTriggers(st, created, api, now);
    TriggeredRowsKeep(mid, st.repos, api, now, Elems(created));
    AnnouncedKeeps(old(st.notifications), st.notifications, created, mid, st.issues, st.repos, true, now);
    HasIssueKeeps(mid, st.issues);
    TriggeredRowsListed(old(st.issues), mid, st.issues, st.repos, created, sources, api, now);
    forall wid | wid in ActiveIds(st.repos) && KeyHasTokens(st.repos, GroupKey(st.repos[wid]), api)
      ensures Complete(st.issues, st.repos, wid, api)
    {
      CompleteKeeps(mid, st.issues, st.repos, wid, api);
    }
    r := Ok(PollResult(reposPolled, |created|));
  }

  /** The grouping and the loop over groups, before the triggers run. */
  method PollActive(st: Store, api: Api, now: int) returns (reposPolled: nat, created: seq<Id>, ghost sources: seq<RepoIssue>)
    requires st.Valid()
    modifies st
    ensures st.Valid()
    ensures st.repos == old(st.repos) && st.prefs == old(st.prefs) && st.users == old(st.users)
    ensures PollProgress(old(st.issues), old(st.notifications), st.repos, st.issues, st.notifications, created, sources, api, now)
    ensures reposPolled == |ActiveKeys(st.repos)|
    ensures forall wid :: wid in ActiveIds(st.repos) && KeyHasTokens(st.repos, GroupKey(st.repos[wid]), api) ==>
      Complete(st.issues, st.repos, wid, api)
  {
    var keys, groups := GroupActive(st.repos);
    created, sources := PollGroups(st, keys, groups, api, now);
    PolledAllComplete(st.issues, st.repos, keys, groups, api);
    reposPolled := |keys|;
  }

  /** The active watchers grouped by `owner/repo`: one key per distinct active
      key, each with the non-empty group of unfrozen watchers filed under it,
      and every active watcher in its key's group. */
  method GroupActive(repos: map<Id, WatchedRepo>) returns (keys: seq<string>, groups: map<string, seq<Id>>)
    ensures forall key :: key in groups <==> key in keys
    ensures forall key :: key in groups ==> groups[key] != []
    ensures forall key :: key in groups ==>
              forall x :: x in groups[key] ==> x in repos && !repos[x].frozen && GroupKey(repos[x]) == key
    ensures forall wid :: wid in ActiveIds(repos) ==> GroupKey(repos[wid]) in groups && wid in groups[GroupKey(repos[wid])]
    ensures |keys| == |ActiveKeys(repos)|
  {
    var ws := Enumerate(ActiveIds(repos));
    EnumeratedActive(repos, ws);
    keys, groups := GroupByRepo(repos, ws);
    GroupsOfActive(repos, ws, keys, groups);
    ActiveKeysCounted(repos, ws, keys, groups);
    forall wid | wid in ActiveIds(repos)
      ensures GroupKey(repos[wid]) in groups && wid in groups[GroupKey(repos[wid])]
    {
      var k :| 0 <= k < |ws| && ws[k] == wid;
    }
  }

  /** An enumeration of the active watchers names stored watchers only. */
  lemma EnumeratedActive(repos: map<Id, WatchedRepo>, ws: seq<Id>)
    requires forall x :: x in ws <==> x in ActiveIds(repos)
    ensures forall k :: 0 <= k < |ws| ==> ws[k] in repos
  {
    forall k | 0 <= k < |ws| ensures ws[k] in repos {
      assert ws[k] in ActiveIds(repos);
    }
  }

  /** Every member of a group of active watchers is a stored, unfrozen watcher
      filed under the group's key. */
  lemma GroupsOfActive(repos: map<Id, WatchedRepo>, ws: seq<Id>, keys: seq<string>, groups: map<string, seq<Id>>)
    requires forall x :: x in ws <==> x in ActiveIds(repos)
    requires forall k :: 0 <= k < |ws| ==> ws[k] in repos
    requires forall key, x :: key in groups && x in groups[key] ==> x in ws && GroupKey(repos[x]) == key
    ensures forall key :: key in groups ==>
              forall x :: x in groups[key] ==> x in repos && !repos[x].frozen && GroupKey(repos[x]) == key
  {
    forall key, x | key in groups && x in groups[key]
      ensures x in repos && !repos[x].frozen && GroupKey(repos[x]) == key
    {
      assert x in ActiveIds(repos);
    }
  }

  /** The new rows after their triggers ran. */
  lemma TriggeredRowsListed(issues0: map<Id, TrackedIssue>, mid: map<Id, TrackedIssue>, after: map<Id, TrackedIssue>,
                            repos: map<Id, WatchedRepo>, created: seq<Id>, sources: seq<RepoIssue>, api: Api, now: int)
    requires forall id :: id in mid ==> mid[id].watchedRepoId in repos
    requires RowsListed(mid, repos, created, sources, api, now) && Grew(issues0, mid, created)
    requires after == TriggeredRows(mid, repos, api, now, Elems(created))
    ensures forall k :: 0 <= k < |created| ==>
      && created[k] in after
      && var t := after[created[k]];
         && PollWanted(repos, t.watchedRepoId, sources[k], api)
         && Untriggered(t) == ListedRow(t.watchedRepoId, sources[k], IssueItem, now)
         && t == TriggerStep(Untriggered(t), repos[t.watchedRepoId], api, now).issue
  {
    forall k | 0 <= k < |created|
      ensures && created[k] in after
              && var t := after[created[k]];
                 && PollWanted(repos, t.watchedRepoId, sources[k], api)
                 && Untriggered(t) == ListedRow(t.watchedRepoId, sources[k], IssueItem, now)
                 && t == TriggerStep(Untriggered(t), repos[t.watchedRepoId], api, now).issue
    {
      var c := created[k];
      var w := repos[mid[c].watchedRepoId];
      assert after[c] == TriggerStep(mid[c], w, api, now).issue;
      UntriggeredInverts(mid[c], w, api, now);
    }
  }

  /** One poll per distinct key among the active watchers. */
  lemma ActiveKeysCounted(repos: map<Id, WatchedRepo>, ws: seq<Id>, keys: seq<string>, groups: map<string, seq<Id>>)
    requires forall x :: x in ws <==> x in ActiveIds(repos)
    requires forall k :: 0 <= k < |ws| ==> ws[k] in repos
    requires Distinct(keys) && forall key :: key in groups <==> key in keys
    requires forall key :: key in groups ==> groups[key] != []
    requires forall key, x :: key in groups && x in groups[key] ==> x in ws && GroupKey(repos[x]) == key
    requires forall k :: 0 <= k < |ws| ==> GroupKey(repos[ws[k]]) in groups
    ensures |keys| == |ActiveKeys(repos)|
  {
    forall key ensures key in keys <==> key in ActiveKeys(repos) {
      if key in ActiveKeys(repos) {
        var id :| id in ActiveIds(repos) && GroupKey(repos[id]) == key;
        var k :| 0 <= k < |ws| && ws[k] == id;
      }
      if key in keys {
        var x := groups[key][0];
        assert x in groups[key];
        assert x in ActiveIds(repos);
      }
    }
    DistinctLength(keys, ActiveKeys(repos));
  }

  /** Every active watcher is in its key's group, so the covered groups make it complete. */
  lemma PolledAllComplete(issues: map<Id, TrackedIssue>, repos: map<Id, WatchedRepo>,
                          keys: seq<string>, groups: map<string, seq<Id>>, api: Api)
    requires forall key :: key in groups <==> key in keys
    requires forall key :: key in groups ==>
               forall x :: x in groups[key] ==> x in repos && !repos[x].frozen && GroupKey(repos[x]) == key
    requires forall wid :: wid in ActiveIds(repos) ==> GroupKey(repos[wid]) in groups && wid in groups[GroupKey(repos[wid])]
    requires GroupsCovered(issues, repos, keys, groups, |keys|, api)
    ensures forall wid :: wid in ActiveIds(repos) && KeyHasTokens(repos, GroupKey(repos[wid]), api) ==>
      Complete(issues, repos, wid, api)
  {
    forall wid | wid in ActiveIds(repos) && KeyHasTokens(repos, GroupKey(repos[wid]), api)
      ensures Complete(issues, repos, wid, api)
    {
      var key := GroupKey(repos[wid]);
      var h :| 0 <= h < |keys| && keys[h] == key;
      assert forall x :: x in groups[keys[h]] ==> HasToken(api, repos[x].userId);
    }
  }
}
