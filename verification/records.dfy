/** The rows of the persistent store: watched repositories, tracked issues,
    in-app notifications, notification preferences and users. Timestamps are
    milliseconds since the epoch. */
module Records {
  import opened Base

  /** The auto-fix lifecycle of a tracked issue. */
  datatype AutoFixStatus = Queued | Generating | DraftReady | Published | Rejected | Failed | Skipped

  datatype ItemType = IssueItem | PullRequestItem

  datatype IssueState = Open | Closed

  /** A (user, owner, repo) subscription with its filters. `labels` and
      `languages` are stored JSON-encoded; the model keeps the lists. */
  datatype WatchedRepo = WatchedRepo(
    userId: Id,
    owner: string,
    repo: string,
    labels: seq<string>,
    languages: seq<string>,
    titleQuery: Option<string>,
    frozen: bool,
    isOwned: bool,
    forkOwner: Option<string>,
    forkRepo: Option<string>,
    createdAt: int)

  /** One upstream issue or pull request tracked for one watched repository. */
  datatype TrackedIssue = TrackedIssue(
    watchedRepoId: Id,
    issueNumber: nat,
    title: string,
    url: string,
    labels: seq<string>,
    itemType: ItemType,
    state: IssueState,
    claimedAt: Option<int>,
    archivedAt: Option<int>,
    closedAt: Option<int>,
    notifiedAt: Option<int>,
    autoFixStatus: AutoFixStatus,
    generatingAt: Option<int>,
    forkIssueNumber: Option<nat>,
    draftPrNumber: Option<nat>,
    draftPrUrl: Option<string>,
    draftPrOwner: Option<string>)

  datatype Notification = Notification(
    id: Id,
    userId: Id,
    issueId: Option<Id>,
    message: string,
    isRead: bool,
    createdAt: int)

  datatype Preferences = Preferences(
    emailEnabled: bool,
    pushEnabled: bool,
    newIssueEmail: bool,
    draftReadyEmail: bool,
    newIssuePush: bool,
    draftReadyPush: bool,
    pushSubscription: Option<string>)

  datatype User = User(email: Option<string>)

  /** The values a preferences row takes when a field is not given on creation:
      both channels off, every per-kind toggle on, no subscription. */
  const DefaultPreferences := Preferences(false, false, true, true, true, true, None)

  /** The row an upsert on `userId` starts from: the stored one, or a fresh row of defaults. */
  function StoredOrDefault(prefs: map<Id, Preferences>, userId: Id): (p: Preferences)
    ensures userId in prefs ==> p == prefs[userId]
    ensures userId !in prefs ==> p == DefaultPreferences
  {
    if userId in prefs then prefs[userId] else DefaultPreferences
  }

  /** The row with push turned off and its subscription dropped: what
      unsubscribing writes, and what a push reported gone leaves behind. */
  function Unsubscribed(p: Preferences): (q: Preferences)
    ensures q.pushSubscription.None? && !q.pushEnabled
    ensures q.(pushSubscription := p.pushSubscription, pushEnabled := p.pushEnabled) == p
  {
    p.(pushSubscription := None, pushEnabled := false)
  }

  /** A freshly discovered row: open, unclaimed, unarchived, no auto-fix data. */
  function NewTrackedIssue(
    repoId: Id, number: nat, title: string, url: string, labels: seq<string>,
    itemType: ItemType, status: AutoFixStatus, now: int): (t: TrackedIssue)
    ensures t.watchedRepoId == repoId && t.issueNumber == number
    ensures t.itemType == itemType && t.autoFixStatus == status && t.state == Open
    ensures t.claimedAt.None? && t.archivedAt.None? && t.generatingAt.None?
  {
    TrackedIssue(repoId, number, title, url, labels, itemType, Open,
      None, None, None, Some(now), status, None, None, None, None, None)
  }

  /** The store's unique index on tracked issues. */
  function IssueKey(t: TrackedIssue): (Id, nat) {
    (t.watchedRepoId, t.issueNumber)
  }

  predicate IssueKeysUnique(issues: map<Id, TrackedIssue>) {
    forall a, b {:trigger IssueKey(issues[a]), IssueKey(issues[b])} :: a in issues && b in issues && a != b ==>
      IssueKey(issues[a]) != IssueKey(issues[b])
  }

  /** The store's unique index on watched repositories. */
  function RepoKey(r: WatchedRepo): (Id, string, string) {
    (r.userId, r.owner, r.repo)
  }

  predicate RepoKeysUnique(repos: map<Id, WatchedRepo>) {
    forall a, b {:trigger RepoKey(repos[a]), RepoKey(repos[b])} :: a in repos && b in repos && a != b ==>
      RepoKey(repos[a]) != RepoKey(repos[b])
  }

  /** A row for `(repoId, number)` exists: `findUnique` on the compound key. */
  predicate HasIssue(issues: map<Id, TrackedIssue>, repoId: Id, number: nat) {
    exists id :: id in issues && issues[id].watchedRepoId == repoId && issues[id].issueNumber == number
  }

  /** A row for `(userId, owner, repo)` exists. */
  predicate HasRepo(repos: map<Id, WatchedRepo>, userId: Id, owner: string, repo: string) {
    exists id :: id in repos && repos[id].userId == userId && repos[id].owner == owner && repos[id].repo == repo
  }

  /** Adding a row under a new id keeps the unique index exactly when no row has its key. */
  lemma InsertKeepsIssueKeysUnique(issues: map<Id, TrackedIssue>, id: Id, row: TrackedIssue)
    requires IssueKeysUnique(issues) && id !in issues
    ensures IssueKeysUnique(issues[id := row]) <==> !HasIssue(issues, row.watchedRepoId, row.issueNumber)
  {
    if HasIssue(issues, row.watchedRepoId, row.issueNumber) {
      var other :| other in issues && issues[other].watchedRepoId == row.watchedRepoId && issues[other].issueNumber == row.issueNumber;
      var m := issues[id := row];
      assert other in m && id in m && other != id && IssueKey(m[other]) == IssueKey(m[id]);
    } else {
      var m := issues[id := row];
      forall a, b | a in m && b in m && a != b
        ensures IssueKey(m[a]) != IssueKey(m[b])
      {
        if a == id {
          assert !(b in issues && issues[b].watchedRepoId == row.watchedRepoId && issues[b].issueNumber == row.issueNumber);
        } else if b == id {
          assert !(a in issues && issues[a].watchedRepoId == row.watchedRepoId && issues[a].issueNumber == row.issueNumber);
        } else {
          assert IssueKey(issues[a]) != IssueKey(issues[b]);
        }
      }
    }
  }

  /** Rewriting a row without touching its key keeps the unique index. */
  lemma UpdateKeepsIssueKeysUnique(issues: map<Id, TrackedIssue>, id: Id, row: TrackedIssue)
    requires IssueKeysUnique(issues) && id in issues
    requires row.watchedRepoId == issues[id].watchedRepoId && row.issueNumber == issues[id].issueNumber
    ensures IssueKeysUnique(issues[id := row])
  {
    var m := issues[id := row];
    forall a, b | a in m && b in m && a != b
      ensures IssueKey(m[a]) != IssueKey(m[b])
    {
      assert IssueKey(m[a]) == IssueKey(issues[a]) && IssueKey(m[b]) == IssueKey(issues[b]);
    }
  }

  lemma InsertKeepsRepoKeysUnique(repos: map<Id, WatchedRepo>, id: Id, row: WatchedRepo)
    requires RepoKeysUnique(repos) && id !in repos
    requires !HasRepo(repos, row.userId, row.owner, row.repo)
    ensures RepoKeysUnique(repos[id := row])
  {
    var m := repos[id := row];
    forall a, b | a in m && b in m && a != b
      ensures RepoKey(m[a]) != RepoKey(m[b])
    {
      if a == id {
        assert !(b in repos && repos[b].userId == row.userId && repos[b].owner == row.owner && repos[b].repo == row.repo);
      } else if b == id {
        assert !(a in repos && repos[a].userId == row.userId && repos[a].owner == row.owner && repos[a].repo == row.repo);
      }
    }
  }
}
