/** The persistent store: one table per record kind, keyed by generated ids,
    with the unique indexes the schema declares. */
module Db {
  import opened Base
  import opened Records

  class Store {
    var repos: map<Id, WatchedRepo>
    var issues: map<Id, TrackedIssue>
    var notifications: seq<Notification>
    var prefs: map<Id, Preferences>
    var users: map<Id, User>
    /** Ids are generated from a counter: every id in use is below it. */
    var nextId: nat

    /** The unique indexes hold, every tracked issue belongs to an existing
        watched repository, and every row id is below the counter. */
    ghost predicate Valid()
      reads this
    {
      && RepoKeysUnique(repos)
      && IssueKeysUnique(issues)
      && (forall id :: id in issues ==> issues[id].watchedRepoId in repos)
      && (forall id :: id in repos ==> id < nextId)
      && (forall id :: id in issues ==> id < nextId)
    }

    constructor ()
      ensures Valid()
      ensures repos == map[] && issues == map[] && notifications == [] && prefs == map[] && users == map[]
    {
      repos, issues, notifications, prefs, users, nextId := map[], map[], [], map[], map[], 0;
    }

    /** A fresh id, never used before. */
    method NewId() returns (id: Id)
      requires Valid()
      modifies this`nextId
      ensures Valid()
      ensures id == old(nextId) && nextId == id + 1
      ensures id !in issues && id !in repos
    {
      id := nextId;
      nextId := nextId + 1;
    }

    /** `trackedIssue.create`. The unique index on `(watchedRepoId, issueNumber)`
        would reject a second row for the same key; every caller looks the key
        up first, so the model requires it to be free. */
    method CreateTrackedIssue(row: TrackedIssue) returns (id: Id)
      requires Valid()
      requires row.watchedRepoId in repos && !HasIssue(issues, row.watchedRepoId, row.issueNumber)
      modifies this
      ensures Valid()
      ensures id !in old(issues) && issues == old(issues)[id := row]
      ensures repos == old(repos) && notifications == old(notifications)
      ensures prefs == old(prefs) && users == old(users)
    {
      id := NewId();
      InsertKeepsIssueKeysUnique(issues, id, row);
      issues := issues[id := row];
    }

    /** `watchedRepo.create`, for a `(userId, owner, repo)` not yet watched. */
    method CreateWatchedRepo(row: WatchedRepo) returns (id: Id)
      requires Valid() && !HasRepo(repos, row.userId, row.owner, row.repo)
      modifies this
      ensures Valid()
      ensures id !in old(repos) && repos == old(repos)[id := row]
      ensures issues == old(issues) && notifications == old(notifications)
      ensures prefs == old(prefs) && users == old(users)
    {
      id := NewId();
      InsertKeepsRepoKeysUnique(repos, id, row);
      repos := repos[id := row];
    }

    /** Rewrites one tracked issue in place, keeping its key. */
    method UpdateIssue(id: Id, row: TrackedIssue)
      requires Valid() && id in issues
      requires row.watchedRepoId == issues[id].watchedRepoId && row.issueNumber == issues[id].issueNumber
      modifies this`issues
      ensures Valid()
      ensures issues == old(issues)[id := row]
    {
      UpdateKeepsIssueKeysUnique(issues, id, row);
      issues := issues[id := row];
    }
  }
}
