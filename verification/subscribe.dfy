/** `/api/push/subscribe`: storing the browser's push subscription, which
    turns push on, and dropping it, which turns push off. */
module Subscribe {
  import opened Base
  import opened Records
  import opened Db

  /** The `subscription` of the request body: its `endpoint` key and its `JSON.stringify` text. */
  datatype SubscriptionJson = SubscriptionJson(endpoint: Option<string>, text: string)

  /** The row after `POST` stored subscription text `text`. */
  function Subscribed(p: Preferences, text: string): (q: Preferences)
    ensures q.pushSubscription == Some(text) && q.pushEnabled
    ensures q.(pushSubscription := p.pushSubscription, pushEnabled := p.pushEnabled) == p
  {
    p.(pushSubscription := Some(text), pushEnabled := true)
  }

  /** `DELETE` undoes `POST`: unsubscribing after subscribing leaves the row
      as unsubscribing alone would. */
  lemma UnsubscribeUndoesSubscribe(p: Preferences, text: string)
    ensures Unsubscribed(Subscribed(p, text)) == Unsubscribed(p)
  {
  }

  /** A new subscription replaces the old one whole. */
  lemma ResubscribeReplaces(p: Preferences, a: string, b: string)
    ensures Subscribed(Subscribed(p, a), b) == Subscribed(p, b)
  {
  }

  /** `POST`: a missing subscription, or one without an endpoint, is refused
      and nothing is written; otherwise the row is upserted. `body` is `None`
      for a body that is not valid JSON or is `null`, which makes the handler
      throw; any other value that is not an object has no `subscription`. */
  method PostSubscribe(st: Store, session: Option<Id>, body: Option<Option<SubscriptionJson>>) returns (r: Reply<bool>)
    requires st.Valid()
    modifies st`prefs
    ensures st.Valid()
    ensures session.None? ==> r == Unauthorized && st.prefs == old(st.prefs)
    ensures session.Some? && body.None? ==> r == ServerError && st.prefs == old(st.prefs)
    ensures session.Some? && body.Some? ==>
      (r == BadRequest <==> body.value.None? || !Truthy(body.value.value.endpoint))
    ensures r == BadRequest ==> st.prefs == old(st.prefs)
    ensures r.Ok? ==>
      && session.Some? && body.Some? && body.value.Some? && r.body
      && st.prefs == old(st.prefs)[session.value := Subscribed(StoredOrDefault(old(st.prefs), session.value), body.value.value.text)]
  {
    if session.None? {
      return Unauthorized;
    }
    if body.None? {
      return ServerError;
    }
    var subscription := body.value;
    if subscription.None? || !Truthy(subscription.value.endpoint) {
      return BadRequest;
    }
    var userId := session.value;
    st.prefs := st.prefs[userId := Subscribed(StoredOrDefault(st.prefs, userId), subscription.value.text)];
    r := Ok(true);
  }

  /** `DELETE`. */
  method DeleteSubscribe(st: Store, session: Option<Id>) returns (r: Reply<bool>)
    requires st.Valid()
    modifies st`prefs
    ensures st.Valid()
    ensures session.None? ==> r == Unauthorized && st.prefs == old(st.prefs)
    ensures session.Some? ==>
      && r == Ok(true)
      && st.prefs == old(st.prefs)[session.value := Unsubscribed(StoredOrDefault(old(st.prefs), session.value))]
  {
    if session.None? {
      return Unauthorized;
    }
    var userId := session.value;
    st.prefs := st.prefs[userId := Unsubscribed(StoredOrDefault(st.prefs, userId))];
    r := Ok(true);
  }
}
