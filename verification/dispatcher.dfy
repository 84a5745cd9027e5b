/** The notification dispatcher: an in-app row first, then an email and a
    push message as the user's preferences allow, and the removal of a push
    subscription the push service reports gone. */
module Dispatcher {
  import opened Base
  import opened Records
  import opened Db
  import opened Notifications
  import opened Push

  /** Which event is announced, selecting the per-kind toggles. */
  datatype Kind = NewIssueKind | DraftReadyKind

  /** `JSON.parse` of a stored subscription: `None` where it throws. */
  type SubscriptionParser = string -> Option<Subscription>

  /** What went out besides the in-app row: the address an email was sent to,
      and the subscription a push was sent to. */
  datatype Delivery = Delivery(emailTo: Option<string>, pushTo: Option<Subscription>)

  predicate EmailToggle(p: Preferences, kind: Kind) {
    if kind == NewIssueKind then p.newIssueEmail else p.draftReadyEmail
  }

  predicate PushToggle(p: Preferences, kind: Kind) {
    if kind == NewIssueKind then p.newIssuePush else p.draftReadyPush
  }

  /** Email goes out when the channel, the per-kind toggle and the address are all set. */
  predicate EmailWanted(p: Preferences, u: User, kind: Kind) {
    p.emailEnabled && EmailToggle(p, kind) && Truthy(u.email)
  }

  /** Push goes out when the channel, the per-kind toggle and a stored subscription are all set. */
  predicate PushWanted(p: Preferences, kind: Kind) {
    p.pushEnabled && PushToggle(p, kind) && Truthy(p.pushSubscription)
  }

  /** Once a subscription is dropped, no later dispatch of either kind pushes,
      and email is sent exactly as before. */
  lemma UnsubscribedPushesNothing(p: Preferences, u: User, kind: Kind)
    ensures !PushWanted(Unsubscribed(p), kind)
    ensures EmailWanted(Unsubscribed(p), u, kind) == EmailWanted(p, u, kind)
  {
  }

  /** The channels one dispatch uses, and the preferences it leaves, given the
      store's users and preferences before it. */
  ghost predicate Dispatched(users: map<Id, User>, prefs0: map<Id, Preferences>, prefs: map<Id, Preferences>,
                             d: Delivery, userId: Id, kind: Kind, payload: PushPayload,
                             v: Vapid, parse: SubscriptionParser, lib: WebPush) {
    var known := userId in users && userId in prefs0;
    && (d.emailTo.Some? <==> known && EmailWanted(prefs0[userId], users[userId], kind))
    && (d.emailTo.Some? ==> d.emailTo == users[userId].email)
    && (d.pushTo.Some? <==>
          known && PushWanted(prefs0[userId], kind) && parse(prefs0[userId].pushSubscription.value).Some?)
    && (d.pushTo.Some? ==> d.pushTo == parse(prefs0[userId].pushSubscription.value))
    && prefs == (if d.pushTo.Some? && SendPushNotification(v, d.pushTo.value, payload, lib) == Expired
                 then prefs0[userId := Unsubscribed(prefs0[userId])]
                 else prefs0)
  }

  /** The body both dispatchers share. */
  method Deliver(st: Store, userId: Id, issueId: Option<Id>, message: string, kind: Kind, payload: PushPayload,
                 v: Vapid, parse: SubscriptionParser, lib: WebPush, now: int)
    returns (d: Delivery)
    requires st.Valid()
    modifies st
    ensures st.Valid()
    // the in-app row is written whatever the preferences say
    ensures AppendedOne(old(st.notifications), st.notifications, userId, issueId, message, now)
    ensures st.repos == old(st.repos) && st.issues == old(st.issues) && st.users == old(st.users)
    ensures Dispatched(st.users, old(st.prefs), st.prefs, d, userId, kind, payload, v, parse, lib)
  {
    var _ := CreateNotification(st, userId, message, issueId, now);
    if userId !in st.users || userId !in st.prefs {
      return Delivery(None, None);
    }
    var user, prefs := st.users[userId], st.prefs[userId];
    var emailTo := None;
    if prefs.emailEnabled && EmailToggle(prefs, kind) && Truthy(user.email) {
      emailTo := user.email;
    }
    var pushTo := None;
    if prefs.pushEnabled && PushToggle(prefs, kind) && Truthy(prefs.pushSubscription) {
      var sub := parse(prefs.pushSubscription.value);
      if sub.Some? {
        pushTo := sub;
        var result := SendPushNotification(v, sub.value, payload, lib);
        if result == Expired {
          st.prefs := st.prefs[userId := Unsubscribed(prefs)];
        }
      }
    }
    d := Delivery(emailTo, pushTo);
  }

  /** `dispatchIssueNotification`. */
  method DispatchIssueNotification(st: Store, userId: Id, issueId: Option<Id>, owner: string, repo: string,
                                   number: nat, title: string, url: string,
                                   v: Vapid, parse: SubscriptionParser, lib: WebPush, now: int)
    returns (d: Delivery)
    requires st.Valid()
    modifies st
    ensures st.Valid()
    ensures AppendedOne(old(st.notifications), st.notifications, userId, issueId, NewIssueMessage(owner, repo, number, title), now)
    ensures st.repos == old(st.repos) && st.issues == old(st.issues) && st.users == old(st.users)
    ensures Dispatched(st.users, old(st.prefs), st.prefs, d, userId, NewIssueKind,
                       NewIssuePushPayload(owner, repo, number, title, url, IssueItem), v, parse, lib)
  {
    d := Deliver(st, userId, issueId, NewIssueMessage(owner, repo, number, title), NewIssueKind,
                 NewIssuePushPayload(owner, repo, number, title, url, IssueItem), v, parse, lib, now);
  }

  /** `dispatchDraftReadyNotification`. */
  method DispatchDraftReadyNotification(st: Store, userId: Id, issueId: Option<Id>, owner: string, repo: string,
                                        number: nat, prNumber: nat, draftId: string, baseUrl: Option<string>,
                                        v: Vapid, parse: SubscriptionParser, lib: WebPush, now: int)
    returns (d: Delivery)
    requires st.Valid()
    modifies st
    ensures st.Valid()
    ensures AppendedOne(old(st.notifications), st.notifications, userId, issueId, DraftReadyMessage(prNumber, owner, repo, number), now)
    ensures st.repos == old(st.repos) && st.issues == old(st.issues) && st.users == old(st.users)
    ensures Dispatched(st.users, old(st.prefs), st.prefs, d, userId, DraftReadyKind,
                       DraftReadyPushPayload(owner, repo, number, prNumber, draftId, baseUrl), v, parse, lib)
  {
    d := Deliver(st, userId, issueId, DraftReadyMessage(prNumber, owner, repo, number), DraftReadyKind,
                 DraftReadyPushPayload(owner, repo, number, prNumber, draftId, baseUrl), v, parse, lib, now);
  }

  /** A dispatch changes at most the user's own preferences, and only to drop
      the subscription; an unknown user gets the in-app row alone. */
  lemma DispatchedTouchesOnlyOwnPush(users: map<Id, User>, prefs0: map<Id, Preferences>, prefs: map<Id, Preferences>,
                                     d: Delivery, userId: Id, kind: Kind, payload: PushPayload,
                                     v: Vapid, parse: SubscriptionParser, lib: WebPush)
    requires Dispatched(users, prefs0, prefs, d, userId, kind, payload, v, parse, lib)
    ensures forall id :: id in prefs <==> id in prefs0
    ensures forall id :: id in prefs0 && id != userId ==> prefs[id] == prefs0[id]
    ensures userId in prefs0 ==> prefs[userId] in {prefs0[userId], Unsubscribed(prefs0[userId])}
    ensures userId !in users || userId !in prefs0 ==> d == Delivery(None, None) && prefs == prefs0
  {
  }

  /** Only an expiry report changes the preferences: without VAPID settings, or
      for any other outcome, they stay as they were. */
  lemma OnlyExpiryUnsubscribes(users: map<Id, User>, prefs0: map<Id, Preferences>, prefs: map<Id, Preferences>,
                               d: Delivery, userId: Id, kind: Kind, payload: PushPayload,
                               v: Vapid, parse: SubscriptionParser, lib: WebPush)
    requires Dispatched(users, prefs0, prefs, d, userId, kind, payload, v, parse, lib)
    requires !Configured(v) || d.pushTo.None? || lib(d.pushTo.value, payload) != SendFailed(Some(GoneStatus))
    ensures prefs == prefs0
  {
  }
}
