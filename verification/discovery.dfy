/** What the three discovery entry points (the issue poll, the manual sync and
    the webhook) share: the per-watcher filters, the row-then-notification
    insert, the deferred auto-fix triggers, and the facts that describe how the
    tracked-issue table and the notification log grow. */
module Discovery {
  import opened Base
  import opened Text
  import opened Records
  import opened Db
  import opened GitHub
  import opened Notifications
  import opened Copilot

  /** `userLabels.some((label) => issueLabels.includes(label))`. */
  function SharesLabel(userLabels: seq<string>, issueLabels: seq<string>): (b: bool)
    ensures b <==> exists k :: 0 <= k < |userLabels| && userLabels[k] in issueLabels
  {
    if userLabels == [] then false
    else if userLabels[0] in issueLabels then true
    else
      var rest := SharesLabel(userLabels[1..], issueLabels);
      assert forall k :: 1 <= k < |userLabels| ==> userLabels[k] == userLabels[1..][k - 1];
      rest
  }

  /** The label filter: no labels configured accepts every item, otherwise one
      configured label must be among the item's labels. */
  predicate LabelPasses(userLabels: seq<string>, issueLabels: seq<string>) {
    |userLabels| == 0 || SharesLabel(userLabels, issueLabels)
  }

  /** The filter as a statement about label sets: empty, or one label in common. */
  lemma LabelPassesMeaning(userLabels: seq<string>, issueLabels: seq<string>)
    ensures LabelPasses(userLabels, issueLabels) <==>
      userLabels == [] || exists l :: l in userLabels && l in issueLabels
  {
    if userLabels != [] && exists l :: l in userLabels && l in issueLabels {
      var l :| l in userLabels && l in issueLabels;
      var k :| 0 <= k < |userLabels| && userLabels[k] == l;
      assert SharesLabel(userLabels, issueLabels);
    }
  }

  /** The title filter of the manual sync: an unset or empty query accepts
      every title, otherwise the lower-cased title contains the lower-cased query. */
  predicate TitlePasses(query: Option<string>, title: string) {
    !Truthy(query) || Contains(ToLower(title), ToLower(query.value))
  }

  /** The title filter ignores the case of the title and of the query. */
  lemma TitlePassesIgnoresCase(query: string, title: string)
    ensures TitlePasses(Some(query), title) == TitlePasses(Some(query), ToLower(title))
    ensures query != "" ==> TitlePasses(Some(query), title) == TitlePasses(Some(ToLower(query)), title)
  {
    ToLowerIdempotent(title);
    ToLowerIdempotent(query);
    assert |ToLower(query)| == |query|;
  }

  /** The key the issue poll groups watchers by: `${owner}/${repo}`. */
  function GroupKey(w: WatchedRepo): (key: string)
    ensures '/' in key
  {
    assert (w.owner + "/" + w.repo)[|w.owner|] == '/';
    w.owner + "/" + w.repo
  }

  /** The text before the first `/`, or all of it. */
  function UpToSlash(s: string): (r: string)
    ensures r <= s && '/' !in r
    ensures |r| < |s| ==> s[|r|] == '/'
  {
    if s == [] || s[0] == '/' then []
    else
      var rest := UpToSlash(s[1..]);
      assert [s[0]] + rest <= s;
      [s[0]] + rest
  }

  /** `const [owner, repo] = key.split("/")`: the first two `/`-separated fields. */
  function SplitRepoKey(key: string): (string, string) {
    var owner := UpToSlash(key);
    var rest := if |owner| < |key| then key[|owner| + 1..] else "";
    (owner, UpToSlash(rest))
  }

  /** Splitting a group key gives back the watcher's owner and repo, as long
      as neither contains a `/` (GitHub names never do). */
  lemma SplitGroupKey(w: WatchedRepo)
    requires '/' !in w.owner && '/' !in w.repo
    ensures SplitRepoKey(GroupKey(w)) == (w.owner, w.repo)
  {
    var key := GroupKey(w);
    SlashFree(w.owner, "/" + w.repo);
    assert UpToSlash(key) == w.owner;
    assert key[|w.owner| + 1..] == w.repo;
    SlashFree(w.repo, "");
    assert w.repo + "" == w.repo;
  }

  lemma {:induction false} SlashFree(a: string, b: string)
    requires '/' !in a && (b == [] || b[0] == '/')
    ensures UpToSlash(a + b) == a
  {
    if a != [] {
      assert (a + b)[1..] == a[1..] + b;
      SlashFree(a[1..], b);
    } else {
      assert a + b == b;
    }
  }

  /** The tracked-issue table grew from `before` to `after` by the rows `created`,
      in creation order, and no earlier row changed. */
  ghost predicate Grew(before: map<Id, TrackedIssue>, after: map<Id, TrackedIssue>, created: seq<Id>) {
    && (forall id :: id in before ==> id in after && after[id] == before[id])
    && (forall id :: id in after ==> id in before || id in created)
    && (forall k :: 0 <= k < |created| ==> created[k] in after && created[k] !in before)
    && Distinct(created)
  }

  /** `n` is the in-app row announcing tracked row `id` of watched repo `w`,
      written for `owner/repo` at time `now`. */
  predicate Announces(n: Notification, id: Id, t: TrackedIssue, w: WatchedRepo, owner: string, repo: string, now: int) {
    && n.userId == w.userId
    && n.issueId == Some(id)
    && !n.isRead
    && n.createdAt == now
    && n.message == NewIssueMessage(owner, repo, t.issueNumber, t.title)
  }

  /** The owner and repo names a discovery route writes into its message:
      the split group key for the issue poll, the watcher's own otherwise. */
  function MessageRepo(w: WatchedRepo, viaKey: bool): (string, string) {
    if viaKey then SplitRepoKey(GroupKey(w)) else (w.owner, w.repo)
  }

  /** The log grew from `before` by one announcement per created row, in order. */
  ghost predicate Announced(before: seq<Notification>, after: seq<Notification>, created: seq<Id>,
                            issues: map<Id, TrackedIssue>, repos: map<Id, WatchedRepo>, viaKey: bool, now: int) {
    && |after| == |before| + |created|
    && before <= after
    && forall k :: 0 <= k < |created| ==>
         && created[k] in issues && issues[created[k]].watchedRepoId in repos
         && var t := issues[created[k]];
            var w := repos[t.watchedRepoId];
            Announces(after[|before| + k], created[k], t, w, MessageRepo(w, viaKey).0, MessageRepo(w, viaKey).1, now)
  }

  /** Inserting a tracked row and its announcement keeps both growth facts. */
  lemma GrewByOne(before: map<Id, TrackedIssue>, mid: map<Id, TrackedIssue>, created: seq<Id>,
                  id: Id, row: TrackedIssue)
    requires Grew(before, mid, created) && id !in mid
    ensures Grew(before, mid[id := row], created + [id])
  {
    var after := mid[id := row];
    var c := created + [id];
    forall i, j | 0 <= i < j < |c| ensures c[i] != c[j] {
      if j == |created| {
        assert c[i] == created[i] && created[i] in mid;
      } else {
        assert c[i] == created[i] && c[j] == created[j];
      }
    }
    forall k | 0 <= k < |c| ensures c[k] in after && c[k] !in before {
      if k < |created| {
        assert c[k] == created[k];
      }
    }
  }

  lemma AnnouncedByOne(before: seq<Notification>, mid: seq<Notification>, after: seq<Notification>,
                       created: seq<Id>, issues: map<Id, TrackedIssue>, repos: map<Id, WatchedRepo>,
                       viaKey: bool, now: int, id: Id, row: TrackedIssue)
    requires Announced(before, mid, created, issues, repos, viaKey, now)
    requires id !in issues && row.watchedRepoId in repos
    requires |after| == |mid| + 1 && after[..|mid|] == mid
    requires var w := repos[row.watchedRepoId];
             Announces(after[|mid|], id, row, w, MessageRepo(w, viaKey).0, MessageRepo(w, viaKey).1, now)
    ensures Announced(before, after, created + [id], issues[id := row], repos, viaKey, now)
  {
    var c := created + [id];
    var m := issues[id := row];
    assert mid <= after;
    PrefixTransitive(before, mid, after);
    forall k | 0 <= k < |c|
      ensures && c[k] in m && m[c[k]].watchedRepoId in repos
              && var t := m[c[k]];
                 var w := repos[t.watchedRepoId];
                 Announces(after[|before| + k], c[k], t, w, MessageRepo(w, viaKey).0, MessageRepo(w, viaKey).1, now)
    {
      if k < |created| {
        assert c[k] == created[k] && created[k] in issues && created[k] != id;
        assert after[|before| + k] == mid[|before| + k];
      }
    }
  }

  /** The row created for watcher `wid` and listed item `i`, before any trigger
      runs: an issue is queued for the auto-fix, a pull request is skipped. */
  function ListedRow(wid: Id, i: RepoIssue, itemType: ItemType, now: int): (t: TrackedIssue)
    ensures t.watchedRepoId == wid && t.issueNumber == i.number && t.itemType == itemType
    ensures t.autoFixStatus == if itemType == IssueItem then Queued else Skipped
  {
    NewTrackedIssue(wid, i.number, i.title, i.htmlUrl, LabelNames(i.labels), itemType,
                    if itemType == IssueItem then Queued else Skipped, now)
  }

  /** The outcome of screening one item for one watcher: nothing to do, a row
      created, or an exception that leaves the loop. */
  datatype Step = Passed | Created(id: Id) | Aborted

  /** The row and the in-app announcement of one newly discovered item: the
      `trackedIssue.create` followed by `createIssueNotification`. */
  method Admit(st: Store, wid: Id, owner: string, repo: string, number: nat, title: string, url: string,
               labels: seq<string>, itemType: ItemType, status: AutoFixStatus, now: int)
    returns (id: Id)
    requires st.Valid() && wid in st.repos && !HasIssue(st.issues, wid, number)
    modifies st
    ensures st.Valid()
    ensures st.repos == old(st.repos) && st.prefs == old(st.prefs) && st.users == old(st.users)
    ensures id !in old(st.issues)
    ensures st.issues == old(st.issues)[id := NewTrackedIssue(wid, number, title, url, labels, itemType, status, now)]
    ensures |st.notifications| == |old(st.notifications)| + 1
    ensures st.notifications[..|old(st.notifications)|] == old(st.notifications)
    ensures Announces(st.notifications[|old(st.notifications)|], id,
                      NewTrackedIssue(wid, number, title, url, labels, itemType, status, now),
                      st.repos[wid], owner, repo, now)
  {
    var row := NewTrackedIssue(wid, number, title, url, labels, itemType, status, now);
    id := st.CreateTrackedIssue(row);
    CreateIssueNotification(st, st.repos[wid].userId, owner, repo, number, title, id, now);
  }

  /** The table after the auto-fix trigger ran on each id of `ids`. */
  ghost function TriggeredRows(issues: map<Id, TrackedIssue>, repos: map<Id, WatchedRepo>, api: Api, now: int,
                               ids: set<Id>): map<Id, TrackedIssue>
    requires forall id :: id in issues ==> issues[id].watchedRepoId in repos
  {
    map id | id in issues :: if id in ids then TriggerStep(issues[id], repos[issues[id].watchedRepoId], api, now).issue
                             else issues[id]
  }

  /** Triggering one more id: a row triggered once stays as it is, and an id
      with no row changes nothing. */
  lemma TriggeredRowsStep(issues: map<Id, TrackedIssue>, repos: map<Id, WatchedRepo>, api: Api, now: int,
                          done: set<Id>, id: Id)
    requires forall x :: x in issues ==> issues[x].watchedRepoId in repos
    ensures var cur := TriggeredRows(issues, repos, api, now, done);
            && (id !in issues ==> TriggeredRows(issues, repos, api, now, done + {id}) == cur)
            && (id in issues ==>
                  && cur[id].watchedRepoId == issues[id].watchedRepoId
                  && TriggeredRows(issues, repos, api, now, done + {id}) ==
                     cur[id := TriggerStep(cur[id], repos[issues[id].watchedRepoId], api, now).issue])
  {
    if id in issues && id in done {
      TriggerIdempotent(issues[id], repos[issues[id].watchedRepoId], api, now, now);
    }
  }

  /** The ids of a sequence, as a set. */
  function Elems(s: seq<Id>): (r: set<Id>)
    ensures forall x :: x in r <==> x in s
  {
    set x | x in s
  }

  lemma ElemsSnoc(s: seq<Id>, i: nat)
    requires i < |s|
    ensures Elems(s[..i + 1]) == Elems(s[..i]) + {s[i]}
  {
    assert s[..i + 1] == s[..i] + [s[i]];
  }

  /** `await Promise.allSettled(autofixTriggers)`: the triggers queued during
      discovery, run one after another once discovery is over. */
  method RunTriggers(st: Store, ids: seq<Id>, api: Api, now: int)
    requires st.Valid()
    modifies st
    ensures st.Valid()
    ensures st.issues == TriggeredRows(old(st.issues), old(st.repos), api, now, Elems(ids))
    ensures st.notifications == old(st.notifications)
    ensures st.repos == old(st.repos) && st.prefs == old(st.prefs) && st.users == old(st.users)
  {
    ghost var issues, repos := st.issues, st.repos;
    var i := 0;
    assert st.issues == TriggeredRows(issues, repos, api, now, Elems(ids[..i]));
    while i < |ids|
      invariant 0 <= i <= |ids|
      invariant st.Valid()
      invariant st.repos == repos && st.notifications == old(st.notifications)
      invariant st.prefs == old(st.prefs) && st.users == old(st.users)
      invariant st.issues == TriggeredRows(issues, repos, api, now, Elems(ids[..i]))
    {
      TriggerNext(st, ids, i, api, now, issues, repos);
      i := i + 1;
    }
    assert ids[..i] == ids;
  }

  /** One trigger of the loop above. */
  method TriggerNext(st: Store, ids: seq<Id>, i: nat, api: Api, now: int,
                     ghost issues: map<Id, TrackedIssue>, ghost repos: map<Id, WatchedRepo>)
    requires st.Valid() && i < |ids|
    requires forall x :: x in issues ==> issues[x].watchedRepoId in repos
    requires st.repos == repos
    requires st.issues == TriggeredRows(issues, repos, api, now, Elems(ids[..i]))
    modifies st
    ensures st.Valid()
    ensures st.repos == old(st.repos) && st.notifications == old(st.notifications)
    ensures st.prefs == old(st.prefs) && st.users == old(st.users)
    ensures st.issues == TriggeredRows(issues, repos, api, now, Elems(ids[..i + 1]))
  {
    ElemsSnoc(ids, i);
    TriggeredRowsStep(issues, repos, api, now, Elems(ids[..i]), ids[i]);
    var _, _ := TriggerCopilotAutoFix(st, ids[i], api, now);
  }

  /** A row existing for a key keeps existing as the table grows. */
  lemma HasIssueGrows(before: map<Id, TrackedIssue>, after: map<Id, TrackedIssue>, created: seq<Id>)
    requires Grew(before, after, created)
    ensures forall wid, n :: HasIssue(before, wid, n) ==> HasIssue(after, wid, n)
  {
    forall wid, n | HasIssue(before, wid, n) ensures HasIssue(after, wid, n) {
      var id :| id in before && before[id].watchedRepoId == wid && before[id].issueNumber == n;
      assert id in after && after[id] == before[id];
    }
  }

  /** A discovered row before its trigger ran: the auto-fix fields a trigger
      writes are put back to their values on creation. */
  function Untriggered(t: TrackedIssue): (b: TrackedIssue)
    ensures b.autoFixStatus == Queued && b.generatingAt.None? && b.forkIssueNumber.None?
  {
    t.(autoFixStatus := Queued, generatingAt := None, forkIssueNumber := None)
  }

  /** A trigger on a freshly created queued row can be undone by `Untriggered`. */
  lemma UntriggeredInverts(base: TrackedIssue, w: WatchedRepo, api: Api, now: int)
    requires base.autoFixStatus == Queued && base.generatingAt.None? && base.forkIssueNumber.None?
    ensures Untriggered(TriggerStep(base, w, api, now).issue) == base
  {
  }

  /** Running the triggers adds no row and removes none, and changes no row
      beyond the auto-fix fields `Untriggered` resets. */
  lemma TriggeredRowsKeep(issues: map<Id, TrackedIssue>, repos: map<Id, WatchedRepo>, api: Api, now: int, ids: set<Id>)
    requires forall id :: id in issues ==> issues[id].watchedRepoId in repos
    ensures var r := TriggeredRows(issues, repos, api, now, ids);
            && (forall id :: id in r <==> id in issues)
            && (forall id :: id in issues ==> Untriggered(r[id]) == Untriggered(issues[id]))
            && (forall id :: id in issues && id !in ids ==> r[id] == issues[id])
  {
    var r := TriggeredRows(issues, repos, api, now, ids);
    forall id | id in issues ensures Untriggered(r[id]) == Untriggered(issues[id]) {
      if id in ids {
        var o := TriggerStep(issues[id], repos[issues[id].watchedRepoId], api, now);
        assert r[id] == o.issue;
      }
    }
  }

  /** The announcements stay true of rows whose item fields did not change. */
  lemma AnnouncedKeeps(before: seq<Notification>, after: seq<Notification>, created: seq<Id>,
                       issues: map<Id, TrackedIssue>, issues': map<Id, TrackedIssue>,
                       repos: map<Id, WatchedRepo>, viaKey: bool, now: int)
    requires Announced(before, after, created, issues, repos, viaKey, now)
    requires forall id :: id in issues ==> id in issues' && Untriggered(issues'[id]) == Untriggered(issues[id])
    ensures Announced(before, after, created, issues', repos, viaKey, now)
  {
    forall k | 0 <= k < |created|
      ensures && created[k] in issues' && issues'[created[k]].watchedRepoId in repos
              && var t := issues'[created[k]];
                 var w := repos[t.watchedRepoId];
                 Announces(after[|before| + k], created[k], t, w, MessageRepo(w, viaKey).0, MessageRepo(w, viaKey).1, now)
    {
      var c := created[k];
      assert Untriggered(issues'[c]).title == Untriggered(issues[c]).title;
    }
  }

  /** The rows present for a key do not depend on the auto-fix fields. */
  lemma HasIssueKeeps(issues: map<Id, TrackedIssue>, issues': map<Id, TrackedIssue>)
    requires forall id :: id in issues' <==> id in issues
    requires forall id :: id in issues ==> Untriggered(issues'[id]) == Untriggered(issues[id])
    ensures forall wid, n :: HasIssue(issues, wid, n) <==> HasIssue(issues', wid, n)
  {
    forall wid, n | HasIssue(issues, wid, n) ensures HasIssue(issues', wid, n) {
      var id :| id in issues && issues[id].watchedRepoId == wid && issues[id].issueNumber == n;
      assert Untriggered(issues'[id]).issueNumber == Untriggered(issues[id]).issueNumber;
    }
    forall wid, n | HasIssue(issues', wid, n) ensures HasIssue(issues, wid, n) {
      var id :| id in issues' && issues'[id].watchedRepoId == wid && issues'[id].issueNumber == n;
      assert Untriggered(issues'[id]).issueNumber == Untriggered(issues[id]).issueNumber;
    }
  }

  /** Every issue tracked in `a` is still tracked in `b`. */
  ghost predicate KeepsTracked(a: map<Id, TrackedIssue>, b: map<Id, TrackedIssue>) {
    forall x, n :: HasIssue(a, x, n) ==> HasIssue(b, x, n)
  }

  lemma KeepsTrackedTransitive(a: map<Id, TrackedIssue>, b: map<Id, TrackedIssue>, c: map<Id, TrackedIssue>)
    requires KeepsTracked(a, b) && KeepsTracked(b, c)
    ensures KeepsTracked(a, c)
  {
  }

  /** A new row tracks its issue, and every issue tracked before still is. */
  lemma TrackedByOne(issues: map<Id, TrackedIssue>, id: Id, row: TrackedIssue)
    requires id !in issues
    ensures HasIssue(issues[id := row], row.watchedRepoId, row.issueNumber)
    ensures KeepsTracked(issues, issues[id := row])
  {
    assert issues[id := row][id] == row;
    forall x, n | HasIssue(issues, x, n) ensures HasIssue(issues[id := row], x, n) {
      var y :| y in issues && issues[y].watchedRepoId == x && issues[y].issueNumber == n;
      assert y != id && issues[id := row][y] == issues[y];
    }
  }
}
