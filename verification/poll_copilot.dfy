/** `GET /api/cron/poll-copilot`: polls every tracked issue that is
    `generating` and reports how many polls fulfilled and how many rejected.
    The polls run under `Promise.allSettled`; they touch disjoint rows, so the
    model runs them one after another, in an unspecified order. */
module PollCopilotRoute {
  import opened Base
  import opened Records
  import opened Db
  import opened GitHub
  import opened Copilot
  import opened Cron
  import Discovery
  import opened Notifications

  datatype PollCounts = PollCounts(polled: nat, successful: nat, failed: nat)

  /** The rows the route selects: `findMany({ where: { autoFixStatus: "generating" } })`. */
  function GeneratingIds(issues: map<Id, TrackedIssue>): (g: set<Id>)
    ensures forall id :: id in g <==> id in issues && issues[id].autoFixStatus == Generating
  {
    set id | id in issues && issues[id].autoFixStatus == Generating
  }

  /** The ids among `ids` whose poll rejects. */
  ghost function Rejected(ids: set<Id>, issues: map<Id, TrackedIssue>, repos: map<Id, WatchedRepo>, api: Api, now: int): set<Id>
    requires forall id :: id in ids ==> id in issues && issues[id].watchedRepoId in repos
  {
    set id | id in ids && !PollStep(issues[id], repos[issues[id].watchedRepoId], api, now).fulfilled
  }

  /** Polling one more row adds it to the rejected set exactly when its poll rejects. */
  lemma RejectedGrows(done: set<Id>, id: Id, issues: map<Id, TrackedIssue>, repos: map<Id, WatchedRepo>, api: Api, now: int)
    requires forall x :: x in done ==> x in issues && issues[x].watchedRepoId in repos
    requires id in issues && issues[id].watchedRepoId in repos && id !in done
    ensures var grown := Rejected(done + {id}, issues, repos, api, now);
            var before := Rejected(done, issues, repos, api, now);
            if PollStep(issues[id], repos[issues[id].watchedRepoId], api, now).fulfilled
            then grown == before
            else grown == before + {id} && |grown| == |before| + 1
  {
    var grown := Rejected(done + {id}, issues, repos, api, now);
    var before := Rejected(done, issues, repos, api, now);
    if PollStep(issues[id], repos[issues[id].watchedRepoId], api, now).fulfilled {
      assert grown == before;
    } else {
      assert grown == before + {id};
      assert id !in before;
    }
  }

  /** The route after authorization: poll each of the selected rows once. */
  method PollCopilot(st: Store, header: Option<string>, secret: Option<string>, api: Api, now: int)
    returns (r: Reply<PollCounts>, ghost noted: seq<Id>)
    requires st.Valid()
    modifies st
    ensures st.Valid()
    ensures !CronAuthorized(header, secret) ==> r == Unauthorized && st.issues == old(st.issues) &&
                                                st.notifications == old(st.notifications)
    ensures CronAuthorized(header, secret) ==> r.Ok?
    // every generating row is polled once; the others are untouched
    ensures r.Ok? ==> forall id :: id in st.issues <==> id in old(st.issues)
    ensures r.Ok? ==> forall id :: id in old(st.issues) ==>
      st.issues[id] == PollStep(old(st.issues)[id], old(st.repos)[old(st.issues)[id].watchedRepoId], api, now).issue
    // the counts
    ensures r.Ok? ==> r.body.polled == |GeneratingIds(old(st.issues))|
    ensures r.Ok? ==> r.body.successful + r.body.failed == r.body.polled
    ensures r.Ok? ==> r.body.failed == |Rejected(GeneratingIds(old(st.issues)), old(st.issues), old(st.repos), api, now)|
    // the log gains one draft-ready row for each polled row whose poll found a pull request, and nothing else
    ensures r.Ok? ==> NotedSoFar(old(st.notifications), st.notifications, noted, old(st.issues), old(st.repos),
                                 GeneratingIds(old(st.issues)), api, now)
    ensures old(st.notifications) <= st.notifications
    ensures st.repos == old(st.repos) && st.prefs == old(st.prefs) && st.users == old(st.users)
  {
    if !CronAuthorized(header, secret) {
      return Unauthorized, [];
    }
    var generating := GeneratingIds(st.issues);
    var successful, failed;
    successful, failed, noted := PollAll(st, generating, api, now);
    PolledAllRows(old(st.issues), old(st.repos), api, now);
    r := Ok(PollCounts(|generating|, successful, failed));
  }

  /** The rows after polling the ids in `done`, each once, from `issues`. */
  ghost function PolledRows(issues: map<Id, TrackedIssue>, repos: map<Id, WatchedRepo>, api: Api, now: int,
                            done: set<Id>): map<Id, TrackedIssue>
    requires forall id :: id in issues ==> issues[id].watchedRepoId in repos
  {
    map id | id in issues :: if id in done then PollStep(issues[id], repos[issues[id].watchedRepoId], api, now).issue
                             else issues[id]
  }

  /** Polling one more row updates that row alone. */
  lemma PolledRowsStep(issues: map<Id, TrackedIssue>, repos: map<Id, WatchedRepo>, api: Api, now: int,
                       done: set<Id>, id: Id)
    requires forall x :: x in issues ==> issues[x].watchedRepoId in repos
    requires id in issues && id !in done
    ensures PolledRows(issues, repos, api, now, done)[id] == issues[id]
    ensures PolledRows(issues, repos, api, now, done + {id}) ==
      PolledRows(issues, repos, api, now, done)[id := PollStep(issues[id], repos[issues[id].watchedRepoId], api, now).issue]
  {
  }

  /** Once every generating row is polled, every row is its poll's outcome:
      polling a row that is not generating leaves it as it is. */
  lemma PolledAllRows(issues: map<Id, TrackedIssue>, repos: map<Id, WatchedRepo>, api: Api, now: int)
    requires forall id :: id in issues ==> issues[id].watchedRepoId in repos
    ensures var p := PolledRows(issues, repos, api, now, GeneratingIds(issues));
            && (forall id :: id in p <==> id in issues)
            && forall id :: id in issues ==> p[id] == PollStep(issues[id], repos[issues[id].watchedRepoId], api, now).issue
  {
    var p := PolledRows(issues, repos, api, now, GeneratingIds(issues));
    forall id | id in issues
      ensures p[id] == PollStep(issues[id], repos[issues[id].watchedRepoId], api, now).issue
    {
      if issues[id].autoFixStatus != Generating {
        assert id !in GeneratingIds(issues);
      }
    }
  }

  /** The poll of row `id` found a pull request and stores a draft-ready message. */
  ghost predicate Noted(issues: map<Id, TrackedIssue>, repos: map<Id, WatchedRepo>, id: Id, api: Api, now: int) {
    id in issues && issues[id].watchedRepoId in repos &&
    PollStep(issues[id], repos[issues[id].watchedRepoId], api, now).note.Some?
  }

  /** `n` is the unread draft-ready row the poll of `id` writes: for the
      repository owner, about that row, with the poll's message, at `now`. */
  ghost predicate DraftNote(n: Notification, id: Id, issues: map<Id, TrackedIssue>, repos: map<Id, WatchedRepo>,
                            api: Api, now: int) {
    && Noted(issues, repos, id, api, now)
    && var t := issues[id];
       var w := repos[t.watchedRepoId];
       && n.userId == w.userId && n.issueId == Some(id)
       && n.message == PollStep(t, w, api, now).note.value
       && !n.isRead && n.createdAt == now
  }

  /** The log after the polls of `done`: `before`, then one draft-ready row for
      each noted row of `done`, each once, in the order of `noted`. */
  ghost predicate NotedSoFar(before: seq<Notification>, after: seq<Notification>, noted: seq<Id>,
                             issues: map<Id, TrackedIssue>, repos: map<Id, WatchedRepo>, done: set<Id>, api: Api, now: int) {
    && Distinct(noted)
    && (forall x :: x in noted <==> x in done && Noted(issues, repos, x, api, now))
    && before <= after && |after| == |before| + |noted|
    && forall k :: 0 <= k < |noted| ==> DraftNote(after[|before| + k], noted[k], issues, repos, api, now)
  }

  /** One more poll keeps `NotedSoFar`: it appends its row exactly when it is noted. */
  lemma NotedNext(before: seq<Notification>, mid: seq<Notification>, after: seq<Notification>, noted: seq<Id>,
                  issues: map<Id, TrackedIssue>, repos: map<Id, WatchedRepo>, done: set<Id>, id: Id, api: Api, now: int)
    requires NotedSoFar(before, mid, noted, issues, repos, done, api, now)
    requires id in issues && issues[id].watchedRepoId in repos && id !in done
    requires var t := issues[id];
             var w := repos[t.watchedRepoId];
             var o := PollStep(t, w, api, now);
             && (o.note.None? ==> after == mid)
             && (o.note.Some? ==> AppendedOne(mid, after, w.userId, Some(id), o.note.value, now))
    ensures NotedSoFar(before, after, if Noted(issues, repos, id, api, now) then noted + [id] else noted,
                       issues, repos, done + {id}, api, now)
  {
    if Noted(issues, repos, id, api, now) {
      var w := repos[issues[id].watchedRepoId];
      NotedAppend(before, mid, after, noted, issues, repos, done, id, w.userId,
                  PollStep(issues[id], w, api, now).note.value, api, now);
    }
  }

  /** A noted poll appends its draft-ready row after the earlier ones. */
  lemma NotedAppend(before: seq<Notification>, mid: seq<Notification>, after: seq<Notification>, noted: seq<Id>,
                    issues: map<Id, TrackedIssue>, repos: map<Id, WatchedRepo>, done: set<Id>, id: Id,
                    userId: Id, message: string, api: Api, now: int)
    requires NotedSoFar(before, mid, noted, issues, repos, done, api, now)
    requires id !in done && Noted(issues, repos, id, api, now)
    requires userId == repos[issues[id].watchedRepoId].userId
    requires message == PollStep(issues[id], repos[issues[id].watchedRepoId], api, now).note.value
    requires AppendedOne(mid, after, userId, Some(id), message, now)
    ensures NotedSoFar(before, after, noted + [id], issues, repos, done + {id}, api, now)
  {
    var noted' := noted + [id];
    assert id !in noted;
    DistinctSnoc(noted, id);
    forall k | 0 <= k < |noted'| ensures DraftNote(after[|before| + k], noted'[k], issues, repos, api, now) {
      if k < |noted| {
        assert after[|before| + k] == mid[|before| + k];
      }
    }
    PrefixTransitive(before, mid, after);
  }

  /** The loop below after polling the first `n` rows of `ws`: the rows and the counts so far. */
  ghost predicate PollProgress(current: map<Id, TrackedIssue>, issues: map<Id, TrackedIssue>, repos: map<Id, WatchedRepo>,
                               ids: set<Id>, ws: seq<Id>, n: nat, api: Api, now: int, successful: nat, failed: nat)
  {
    && n <= |ws| && Distinct(ws) && (forall x :: x in ws <==> x in ids) && ids <= issues.Keys
    && (forall x :: x in issues ==> issues[x].watchedRepoId in repos)
    && current == PolledRows(issues, repos, api, now, Discovery.Elems(ws[..n]))
    && failed == |Rejected(Discovery.Elems(ws[..n]), issues, repos, api, now)|
    && successful + failed == n
  }

  /** One poll of the loop below: the row `ws[n]` takes its outcome, and the
      counts take its verdict. */
  method PollNext(st: Store, ids: set<Id>, ws: seq<Id>, n: nat, api: Api, now: int,
                  successful: nat, failed: nat,
                  ghost issues: map<Id, TrackedIssue>, ghost repos: map<Id, WatchedRepo>,
                  ghost notes: seq<Notification>, ghost noted: seq<Id>)
    returns (successful': nat, failed': nat, ghost noted': seq<Id>)
    requires st.Valid() && n < |ws| && st.repos == repos
    requires PollProgress(st.issues, issues, repos, ids, ws, n, api, now, successful, failed)
    requires NotedSoFar(notes, st.notifications, noted, issues, repos, Discovery.Elems(ws[..n]), api, now)
    modifies st
    ensures st.Valid()
    ensures st.repos == old(st.repos) && st.prefs == old(st.prefs) && st.users == old(st.users)
    ensures PollProgress(st.issues, issues, repos, ids, ws, n + 1, api, now, successful', failed')
    ensures NotedSoFar(notes, st.notifications, noted', issues, repos, Discovery.Elems(ws[..n + 1]), api, now)
  {
    ghost var done := Discovery.Elems(ws[..n]);
    var id := ws[n];
    assert id !in done;
    Discovery.ElemsSnoc(ws, n);
    RejectedGrows(done, id, issues, repos, api, now);
    PolledRowsStep(issues, repos, api, now, done, id);
    ghost var notesBefore := st.notifications;
    var fulfilled := PollCopilotPRStatus(st, id, api, now);
    NotedNext(notes, notesBefore, st.notifications, noted, issues, repos, done, id, api, now);
    noted' := if Noted(issues, repos, id, api, now) then noted + [id] else noted;
    if fulfilled {
      successful', failed' := successful + 1, failed;
    } else {
      successful', failed' := successful, failed + 1;
    }
  }

  /** `Promise.allSettled(generatingIssues.map(pollCopilotPRStatus))`, one
      poll at a time, in the order the store lists the rows. */
  method PollAll(st: Store, ids: set<Id>, api: Api, now: int) returns (successful: nat, failed: nat, ghost noted: seq<Id>)
    requires st.Valid() && ids <= st.issues.Keys
    modifies st
    ensures st.Valid()
    ensures st.issues == PolledRows(old(st.issues), old(st.repos), api, now, ids)
    ensures successful + failed == |ids|
    ensures failed == |Rejected(ids, old(st.issues), old(st.repos), api, now)|
    ensures NotedSoFar(old(st.notifications), st.notifications, noted, old(st.issues), old(st.repos), ids, api, now)
    ensures st.repos == old(st.repos) && st.prefs == old(st.prefs) && st.users == old(st.users)
  {
    ghost var issues, repos := st.issues, st.repos;
    var ws := Enumerate(ids);
    successful, failed := 0, 0;
    noted := [];
    assert st.issues == PolledRows(issues, repos, api, now, Discovery.Elems(ws[..0]));
    for n := 0 to |ws|
      invariant st.Valid() && st.repos == repos && st.prefs == old(st.prefs) && st.users == old(st.users)
      invariant PollProgress(st.issues, issues, repos, ids, ws, n, api, now, successful, failed)
      invariant NotedSoFar(old(st.notifications), st.notifications, noted, issues, repos, Discovery.Elems(ws[..n]), api, now)
    {
      successful, failed, noted := PollNext(st, ids, ws, n, api, now, successful, failed, issues, repos,
                                            old(st.notifications), noted);
    }
    AllEnumerated(ids, ws);
  }

  /** An enumeration of `ids`, polled to its end, has polled all of `ids`, once each. */
  lemma AllEnumerated(ids: set<Id>, ws: seq<Id>)
    requires Distinct(ws) && forall x :: x in ws <==> x in ids
    ensures Discovery.Elems(ws[..|ws|]) == ids && |ws| == |ids|
  {
    assert ws[..|ws|] == ws;
    DistinctLength(ws, ids);
  }
}
