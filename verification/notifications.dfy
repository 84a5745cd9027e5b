/** In-app notifications: the row writer, the message texts, the unread count,
    and the list / mark-all-read handlers of the notifications route. */
module Notifications {
  import opened Base
  import opened Text
  import opened Records
  import opened Db
  import opened Order

  const NewIssuePrefix := "New issue in "
  const DraftReadyPrefix := "Draft PR #"

  /** `New issue in owner/repo: #`, the text before the number. */
  function NewIssueHead(owner: string, repo: string): (h: string)
    ensures NewIssuePrefix <= h
  {
    NewIssuePrefix + owner + "/" + repo + ": #"
  }

  /** `New issue in owner/repo: #N - title`. */
  function NewIssueMessage(owner: string, repo: string, number: nat, title: string): (m: string)
    ensures NewIssuePrefix <= m
    ensures |m| >= |title| && m[|m| - |title|..] == title
  {
    NewIssueHead(owner, repo) + NatToString(number) + " - " + title
  }

  /** ` ready for review: owner/repo issue #N`, the text after the pull request number. */
  function DraftReadyTail(owner: string, repo: string, number: nat): string {
    " ready for review: " + owner + "/" + repo + " issue #" + NatToString(number)
  }

  /** `Draft PR #P ready for review: owner/repo issue #N`. */
  function DraftReadyMessage(prNumber: nat, owner: string, repo: string, number: nat): (m: string)
    ensures DraftReadyPrefix <= m
    ensures |m| >= |DraftReadyTail(owner, repo, number)| && m[|m| - |DraftReadyTail(owner, repo, number)|..] == DraftReadyTail(owner, repo, number)
  {
    DraftReadyPrefix + NatToString(prNumber) + DraftReadyTail(owner, repo, number)
  }

  /** For one repository and title, the new-issue message names one issue number. */
  lemma NewIssueMessageDeterminesNumber(owner: string, repo: string, a: nat, b: nat, title: string)
    requires NewIssueMessage(owner, repo, a, title) == NewIssueMessage(owner, repo, b, title)
    ensures a == b
  {
    var h := NewIssueHead(owner, repo);
    Assoc(h + NatToString(a), " - ", title);
    Assoc(h + NatToString(b), " - ", title);
    MiddleDetermined(h, NatToString(a), NatToString(b), " - " + title);
    NatToStringInjective(a, b);
  }

  /** For one issue, the draft-ready message names one pull request number. */
  lemma DraftReadyMessageDeterminesPr(p: nat, q: nat, owner: string, repo: string, number: nat)
    requires DraftReadyMessage(p, owner, repo, number) == DraftReadyMessage(q, owner, repo, number)
    ensures p == q
  {
    MiddleDetermined(DraftReadyPrefix, NatToString(p), NatToString(q), DraftReadyTail(owner, repo, number));
    NatToStringInjective(p, q);
  }

  /** `createNotification`: inserts exactly one unread row for the user. */
  method CreateNotification(st: Store, userId: Id, message: string, issueId: Option<Id>, now: int)
    returns (id: Id)
    requires st.Valid()
    modifies st
    ensures st.Valid()
    ensures st.notifications == old(st.notifications) + [Notification(id, userId, issueId, message, false, now)]
    ensures AppendedOne(old(st.notifications), st.notifications, userId, issueId, message, now)
    ensures st.repos == old(st.repos) && st.issues == old(st.issues)
    ensures st.prefs == old(st.prefs) && st.users == old(st.users)
  {
    id := st.NewId();
    st.notifications := st.notifications + [Notification(id, userId, issueId, message, false, now)];
  }

  /** `after` is `before` with one unread row for the user appended, at time `now`. */
  predicate AppendedOne(before: seq<Notification>, after: seq<Notification>, userId: Id,
                        issueId: Option<Id>, message: string, now: int) {
    && |after| == |before| + 1
    && after[..|before|] == before
    && after[|before|].userId == userId
    && after[|before|].issueId == issueId
    && after[|before|].message == message
    && !after[|before|].isRead
    && after[|before|].createdAt == now
  }

  /** `createIssueNotification`: the in-app row announcing a new tracked item. */
  method CreateIssueNotification(st: Store, userId: Id, owner: string, repo: string, number: nat,
                                 title: string, issueId: Id, now: int)
    requires st.Valid()
    modifies st
    ensures st.Valid()
    ensures AppendedOne(old(st.notifications), st.notifications, userId, Some(issueId),
                        NewIssueMessage(owner, repo, number, title), now)
    ensures st.repos == old(st.repos) && st.issues == old(st.issues)
    ensures st.prefs == old(st.prefs) && st.users == old(st.users)
  {
    var _ := CreateNotification(st, userId, NewIssueMessage(owner, repo, number, title), Some(issueId), now);
  }

  predicate UnreadFor(n: Notification, userId: Id) {
    n.userId == userId && !n.isRead
  }

  /** `getUnreadCount`: the user's rows with `isRead == false`. */
  function UnreadCount(ns: seq<Notification>, userId: Id): (c: nat)
    ensures c <= |ns|
    ensures c == 0 <==> forall k :: 0 <= k < |ns| ==> !UnreadFor(ns[k], userId)
  {
    if ns == [] then 0
    else (if UnreadFor(ns[0], userId) then 1 else 0) + UnreadCount(ns[1..], userId)
  }

  /** Appending a row adds one to the count of its owner exactly when it is unread. */
  lemma {:induction false} UnreadCountAppend(ns: seq<Notification>, n: Notification, userId: Id)
    ensures UnreadCount(ns + [n], userId) == UnreadCount(ns, userId) + (if UnreadFor(n, userId) then 1 else 0)
  {
    if ns != [] {
      assert (ns + [n])[1..] == ns[1..] + [n];
      UnreadCountAppend(ns[1..], n, userId);
    }
  }

  /** The rows a listing may show: the caller's, and only unread ones when asked. */
  predicate Visible(n: Notification, userId: Id, unreadOnly: bool) {
    n.userId == userId && (unreadOnly ==> !n.isRead)
  }

  /** The ordering key of the listing. */
  function CreatedAt(n: Notification): int {
    n.createdAt
  }

  /** The rows a listing may show, in table order. */
  function VisibleRows(ns: seq<Notification>, userId: Id, unreadOnly: bool): (vs: seq<Notification>)
    ensures forall n :: n in vs <==> n in ns && Visible(n, userId, unreadOnly)
  {
    Filter(ns, (n: Notification) => Visible(n, userId, unreadOnly))
  }

  /** The 50 newest of the caller's visible rows, newest first: all of them when
      there are fewer, and every row left out is no newer than the last one shown. */
  function Listing(ns: seq<Notification>, userId: Id, unreadOnly: bool): (page: seq<Notification>)
    ensures |page| == if |VisibleRows(ns, userId, unreadOnly)| <= 50 then |VisibleRows(ns, userId, unreadOnly)| else 50
    ensures multiset(page) <= multiset(VisibleRows(ns, userId, unreadOnly))
    ensures forall k :: 0 <= k < |page| ==> page[k] in ns && Visible(page[k], userId, unreadOnly)
    ensures SortedDesc(page, CreatedAt)
    ensures forall n :: n in ns && Visible(n, userId, unreadOnly) && n !in page ==>
      |page| == 50 && n.createdAt <= page[49].createdAt
  {
    var mine := VisibleRows(ns, userId, unreadOnly);
    var sorted := SortDesc(mine, CreatedAt);
    var page := Take(sorted, 50);
    TakeSorted(sorted, 50, CreatedAt);
    TakeSortedFrom(mine, 50, CreatedAt);
    LeftOutIsOlder(mine, sorted, page);
    page
  }

  /** The rows the first 50 of a sort leave out are no newer than the 50th. */
  lemma LeftOutIsOlder(mine: seq<Notification>, sorted: seq<Notification>, page: seq<Notification>)
    requires sorted == SortDesc(mine, CreatedAt) && page == Take(sorted, 50)
    ensures forall n :: n in mine && n !in page ==> |page| == 50 && n.createdAt <= page[49].createdAt
  {
    TakeSortedRest(sorted, 50, CreatedAt);
    forall n | n in mine && n !in page ensures |page| == 50 && n.createdAt <= page[49].createdAt {
      assert n in multiset(mine);
      assert n in sorted;
      assert CreatedAt(n) <= CreatedAt(page[49]);
    }
  }

  /** `GET /api/notifications`: the caller's rows (unread only when `unread=true`),
      newest first, at most 50. */
  function ListNotifications(ns: seq<Notification>, session: Option<Id>, unreadParam: Option<string>)
    : (r: Reply<seq<Notification>>)
    ensures session.None? <==> r.Unauthorized?
    ensures r.Ok? ==> |r.body| <= 50
    ensures r.Ok? ==> forall k :: 0 <= k < |r.body| ==>
      r.body[k] in ns && Visible(r.body[k], session.value, unreadParam == Some("true"))
    ensures r.Ok? ==> SortedDesc(r.body, CreatedAt)
    // the newest visible rows: a visible row is left out only behind 50 rows at least as new
    ensures r.Ok? ==> forall n :: n in ns && Visible(n, session.value, unreadParam == Some("true")) && n !in r.body ==>
      |r.body| == 50 && n.createdAt <= r.body[49].createdAt
  {
    if session.None? then Unauthorized
    else Ok(Listing(ns, session.value, unreadParam == Some("true")))
  }

  /** The listing holds every visible row when there are at most 50 of them. */
  lemma ListingComplete(ns: seq<Notification>, userId: Id, unreadParam: Option<string>)
    requires |VisibleRows(ns, userId, unreadParam == Some("true"))| <= 50
    ensures forall n :: n in ns && Visible(n, userId, unreadParam == Some("true")) ==>
      n in ListNotifications(ns, Some(userId), unreadParam).body
  {
    var mine := VisibleRows(ns, userId, unreadParam == Some("true"));
    var page := Listing(ns, userId, unreadParam == Some("true"));
    assert |multiset(page)| == |multiset(mine)|;
    MultisetSameSize(multiset(page), multiset(mine));
    forall n | n in ns && Visible(n, userId, unreadParam == Some("true")) ensures n in page {
      assert n in multiset(mine);
    }
  }

  /** A sub-multiset as large as the whole is the whole. */
  lemma MultisetSameSize<T>(a: multiset<T>, b: multiset<T>)
    requires a <= b && |a| == |b|
    ensures a == b
  {
    var d := b - a;
    assert b == a + d;
    assert |d| == 0;
  }

  /** `updateMany({ where: { userId, isRead: false }, data: { isRead: true } })`. */
  function MarkAllRead(ns: seq<Notification>, userId: Id): (r: seq<Notification>)
    ensures |r| == |ns|
    ensures forall k :: 0 <= k < |ns| ==> r[k] == if UnreadFor(ns[k], userId) then ns[k].(isRead := true) else ns[k]
  {
    if ns == [] then []
    else [if UnreadFor(ns[0], userId) then ns[0].(isRead := true) else ns[0]] + MarkAllRead(ns[1..], userId)
  }

  /** After marking all read, the caller has no unread rows and every other
      user's count is what it was. */
  lemma {:induction false} MarkAllReadCounts(ns: seq<Notification>, userId: Id, other: Id)
    ensures UnreadCount(MarkAllRead(ns, userId), userId) == 0
    ensures other != userId ==> UnreadCount(MarkAllRead(ns, userId), other) == UnreadCount(ns, other)
  {
    if ns != [] {
      MarkAllReadCounts(ns[1..], userId, other);
      assert MarkAllRead(ns, userId)[1..] == MarkAllRead(ns[1..], userId);
    }
  }

  /** `PATCH /api/notifications`: marks the caller's unread rows read. */
  method PatchNotifications(st: Store, session: Option<Id>) returns (r: Reply<bool>)
    requires st.Valid()
    modifies st
    ensures st.Valid()
    ensures session.None? ==> r.Unauthorized? && st.notifications == old(st.notifications)
    ensures session.Some? ==> r == Ok(true) && st.notifications == MarkAllRead(old(st.notifications), session.value)
    ensures st.repos == old(st.repos) && st.issues == old(st.issues)
    ensures st.prefs == old(st.prefs) && st.users == old(st.users)
  {
    if session.None? {
      return Unauthorized;
    }
    st.notifications := MarkAllRead(st.notifications, session.value);
    r := Ok(true);
  }
}
