/** `/api/repos`: the caller's watch list, newest first with the number of
    tracked rows of each, and adding a repository to it. */
module Repos {
  import opened Base
  import opened Records
  import opened Db
  import opened Order

  /** One entry of the `GET` answer: the row and its `_count.trackedIssues`. */
  datatype RepoListing = RepoListing(id: Id, repo: WatchedRepo, trackedIssues: nat)

  /** The fields of the `POST` body the handler reads; `None` for a missing key. */
  datatype AddRepoBody = AddRepoBody(
    owner: Option<string>,
    repo: Option<string>,
    languages: Option<seq<string>>,
    labels: Option<seq<string>>)

  /** The caller's rows: `findMany({ where: { userId } })`. */
  function UserRepoIds(repos: map<Id, WatchedRepo>, userId: Id): (s: set<Id>)
    ensures forall id :: id in s <==> id in repos && repos[id].userId == userId
  {
    set id | id in repos && repos[id].userId == userId
  }

  /** The tracked rows that belong to watched repository `id`. */
  function TrackedCount(issues: map<Id, TrackedIssue>, id: Id): nat {
    |set i | i in issues && issues[i].watchedRepoId == id|
  }

  function ListedAt(l: RepoListing): int {
    l.repo.createdAt
  }

  /** The entry `GET` reports for row `id`. */
  function Entry(repos: map<Id, WatchedRepo>, issues: map<Id, TrackedIssue>, id: Id): RepoListing
    requires id in repos
  {
    RepoListing(id, repos[id], TrackedCount(issues, id))
  }

  /** `GET`. */
  method GetRepos(st: Store, session: Option<Id>) returns (r: Reply<seq<RepoListing>>)
    requires st.Valid()
    ensures session.None? <==> r == Unauthorized
    ensures r.Ok? ==> var mine := UserRepoIds(st.repos, session.value);
      // newest first
      && SortedDesc(r.body, ListedAt)
      // each of the caller's rows once, with its own count, and nobody else's
      && |r.body| == |mine|
      && (forall l :: l in r.body ==> l.id in mine && l == Entry(st.repos, st.issues, l.id))
      && (forall id :: id in mine ==> Entry(st.repos, st.issues, id) in r.body)
  {
    if session.None? {
      return Unauthorized;
    }
    var repos, issues := st.repos, st.issues;
    var mine := UserRepoIds(repos, session.value);
    var ws := Enumerate(mine);
    DistinctLength(ws, mine);
    var rows := seq(|ws|, k requires 0 <= k < |ws| => Entry(repos, issues, ws[k]));
    var sorted := SortDesc(rows, ListedAt);
    SameElements(rows, sorted);
    forall l | l in sorted ensures l.id in mine && l == Entry(repos, issues, l.id) {
      var k :| 0 <= k < |rows| && rows[k] == l;
    }
    forall id | id in mine ensures Entry(repos, issues, id) in sorted {
      var k :| 0 <= k < |ws| && ws[k] == id;
      assert rows[k] == Entry(repos, issues, id);
    }
    r := Ok(sorted);
  }

  /** Reordering keeps the elements. */
  lemma SameElements<T>(a: seq<T>, b: seq<T>)
    requires multiset(a) == multiset(b)
    ensures forall x :: x in a <==> x in b
  {
    forall x ensures x in a <==> x in b {
      assert x in a <==> x in multiset(a);
      assert x in b <==> x in multiset(b);
    }
  }

  /** The row `POST` creates: the given filters, `[]` where a list is missing,
      no title query, not frozen, no fork. */
  function NewWatchedRepo(userId: Id, owner: string, repo: string, body: AddRepoBody, ownedDefault: bool, now: int): (w: WatchedRepo)
    ensures w.userId == userId && w.owner == owner && w.repo == repo
    ensures w.labels == (if body.labels.Some? then body.labels.value else [])
    ensures w.languages == (if body.languages.Some? then body.languages.value else [])
    ensures w.titleQuery.None? && !w.frozen && w.forkOwner.None? && w.forkRepo.None?
  {
    WatchedRepo(userId, owner, repo, body.labels.GetOr([]), body.languages.GetOr([]), None, false, ownedDefault,
                None, None, now)
  }

  /** `POST`: 400 without an owner or a repo, 409 when the caller already
      watches that repository, else the new row and its id. `body` is `None` for
      a body that is not valid JSON or is `null`, which makes the handler throw;
      any other value that is not an object has no owner or repo. `ownedDefault` is the store's default for
      `isOwned`, which this route does not set. */
  method PostRepo(st: Store, session: Option<Id>, body: Option<AddRepoBody>, ownedDefault: bool, now: int)
    returns (r: Reply<(Id, WatchedRepo)>)
    requires st.Valid()
    modifies st
    ensures st.Valid()
    ensures st.issues == old(st.issues) && st.notifications == old(st.notifications)
    ensures st.prefs == old(st.prefs) && st.users == old(st.users)
    ensures session.None? ==> r == Unauthorized
    ensures session.Some? && body.None? ==> r == ServerError
    ensures session.Some? && body.Some? ==>
      (r == BadRequest <==> !Truthy(body.value.owner) || !Truthy(body.value.repo))
    ensures r.Conflict? <==>
      && session.Some? && body.Some? && Truthy(body.value.owner) && Truthy(body.value.repo)
      && HasRepo(old(st.repos), session.value, body.value.owner.value, body.value.repo.value)
    // nothing is written unless the row is created
    ensures !r.Ok? ==> st.repos == old(st.repos)
    ensures r.Ok? ==>
      && session.Some? && body.Some? && Truthy(body.value.owner) && Truthy(body.value.repo)
      && r.body.1 == NewWatchedRepo(session.value, body.value.owner.value, body.value.repo.value, body.value, ownedDefault, now)
      && r.body.0 !in old(st.repos) && st.repos == old(st.repos)[r.body.0 := r.body.1]
  {
    if session.None? {
      return Unauthorized;
    }
    if body.None? {
      return ServerError;
    }
    var b := body.value;
    if !Truthy(b.owner) || !Truthy(b.repo) {
      return BadRequest;
    }
    var userId := session.value;
    if HasRepo(st.repos, userId, b.owner.value, b.repo.value) {
      return Conflict;
    }
    var row := NewWatchedRepo(userId, b.owner.value, b.repo.value, b, ownedDefault, now);
    var id := st.CreateWatchedRepo(row);
    r := Ok((id, row));
  }

  /** A second identical `POST` is refused with 409 and adds no row. */
  lemma SecondPostConflicts(repos: map<Id, WatchedRepo>, id: Id, row: WatchedRepo)
    ensures HasRepo(repos[id := row], row.userId, row.owner, row.repo)
  {
    assert repos[id := row][id] == row;
  }
}
