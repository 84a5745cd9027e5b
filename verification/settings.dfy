/** `/api/settings/notifications`: reading the user's notification
    preferences, with defaults when none are stored, and changing any of the
    six channel toggles. */
module Settings {
  import opened Base
  import opened Records
  import opened Db

  /** The response body of both handlers. */
  datatype SettingsView = SettingsView(
    emailEnabled: bool,
    pushEnabled: bool,
    newIssueEmail: bool,
    draftReadyEmail: bool,
    newIssuePush: bool,
    draftReadyPush: bool,
    hasPushSubscription: bool)

  /** One key of the request body: missing, a boolean, or any other JSON value. */
  datatype JsonField = Absent | BoolValue(b: bool) | OtherValue

  /** The six keys `PATCH` reads from the body. */
  datatype PatchBody = PatchBody(
    emailEnabled: JsonField,
    pushEnabled: JsonField,
    newIssueEmail: JsonField,
    draftReadyEmail: JsonField,
    newIssuePush: JsonField,
    draftReadyPush: JsonField)

  /** What the handlers report about a row; the subscription itself stays private. */
  function View(p: Preferences): (v: SettingsView)
    ensures v.hasPushSubscription <==> Truthy(p.pushSubscription)
  {
    SettingsView(p.emailEnabled, p.pushEnabled, p.newIssueEmail, p.draftReadyEmail,
                 p.newIssuePush, p.draftReadyPush, Truthy(p.pushSubscription))
  }

  /** The literal `GET` answers with when no row is stored. */
  const DefaultView := SettingsView(false, false, true, true, true, true, false)

  /** `GET`. */
  function GetSettings(prefs: map<Id, Preferences>, session: Option<Id>): (r: Reply<SettingsView>)
    ensures session.None? <==> r == Unauthorized
    ensures session.Some? ==> r.Ok?
    ensures session.Some? && session.value !in prefs ==> r.body == DefaultView
    ensures session.Some? && session.value in prefs ==> r.body == View(prefs[session.value])
  {
    if session.None? then Unauthorized
    else if session.value !in prefs then Ok(DefaultView)
    else Ok(View(prefs[session.value]))
  }

  /** The route's default answer is what a freshly created row would show, so
      `GET` answers alike before and after the first row is written. */
  lemma DefaultsAgree(prefs: map<Id, Preferences>, userId: Id)
    ensures GetSettings(prefs, Some(userId)) == Ok(View(StoredOrDefault(prefs, userId)))
  {
  }

  /** `typeof v === "boolean" ? v : current`. */
  function Take(f: JsonField, current: bool): bool {
    if f.BoolValue? then f.b else current
  }

  /** The row after the `data` of one `PATCH` is written to it. */
  function Patched(p: Preferences, body: PatchBody): (q: Preferences)
    // the subscription is never touched
    ensures q.pushSubscription == p.pushSubscription
    // a key that is missing or not a boolean leaves its field alone
    ensures !body.emailEnabled.BoolValue? ==> q.emailEnabled == p.emailEnabled
    ensures !body.pushEnabled.BoolValue? ==> q.pushEnabled == p.pushEnabled
    ensures !body.newIssueEmail.BoolValue? ==> q.newIssueEmail == p.newIssueEmail
    ensures !body.draftReadyEmail.BoolValue? ==> q.draftReadyEmail == p.draftReadyEmail
    ensures !body.newIssuePush.BoolValue? ==> q.newIssuePush == p.newIssuePush
    ensures !body.draftReadyPush.BoolValue? ==> q.draftReadyPush == p.draftReadyPush
  {
    Preferences(
      Take(body.emailEnabled, p.emailEnabled),
      Take(body.pushEnabled, p.pushEnabled),
      Take(body.newIssueEmail, p.newIssueEmail),
      Take(body.draftReadyEmail, p.draftReadyEmail),
      Take(body.newIssuePush, p.newIssuePush),
      Take(body.draftReadyPush, p.draftReadyPush),
      p.pushSubscription)
  }

  /** A boolean key is stored as sent. */
  lemma PatchedTakesBooleans(p: Preferences, body: PatchBody)
    ensures var q := Patched(p, body);
            && (body.emailEnabled.BoolValue? ==> q.emailEnabled == body.emailEnabled.b)
            && (body.pushEnabled.BoolValue? ==> q.pushEnabled == body.pushEnabled.b)
            && (body.newIssueEmail.BoolValue? ==> q.newIssueEmail == body.newIssueEmail.b)
            && (body.draftReadyEmail.BoolValue? ==> q.draftReadyEmail == body.draftReadyEmail.b)
            && (body.newIssuePush.BoolValue? ==> q.newIssuePush == body.newIssuePush.b)
            && (body.draftReadyPush.BoolValue? ==> q.draftReadyPush == body.draftReadyPush.b)
  {
  }

  /** Sending the same `PATCH` twice leaves the row as sending it once. */
  lemma PatchIdempotent(p: Preferences, body: PatchBody)
    ensures Patched(Patched(p, body), body) == Patched(p, body)
  {
  }

  /** A body with no boolean key changes nothing. */
  lemma EmptyPatchNoop(p: Preferences, body: PatchBody)
    requires !body.emailEnabled.BoolValue? && !body.pushEnabled.BoolValue? && !body.newIssueEmail.BoolValue?
    requires !body.draftReadyEmail.BoolValue? && !body.newIssuePush.BoolValue? && !body.draftReadyPush.BoolValue?
    ensures Patched(p, body) == p
  {
  }

  /** `PATCH`: the upsert, answering with the row as stored. `body` is `None`
      for a body that is not valid JSON or is `null`: reading or destructuring
      it throws. Any other JSON value that is not an object destructures to
      missing fields, which is a `PatchBody` with every field `Absent`. */
  method PatchSettings(st: Store, session: Option<Id>, body: Option<PatchBody>) returns (r: Reply<SettingsView>)
    requires st.Valid()
    modifies st`prefs
    ensures st.Valid()
    ensures session.None? ==> r == Unauthorized && st.prefs == old(st.prefs)
    ensures session.Some? && body.None? ==> r == ServerError && st.prefs == old(st.prefs)
    ensures session.Some? && body.Some? ==>
      && st.prefs == old(st.prefs)[session.value := Patched(StoredOrDefault(old(st.prefs), session.value), body.value)]
      && r == Ok(View(st.prefs[session.value]))
  {
    if session.None? {
      return Unauthorized;
    }
    if body.None? {
      return ServerError;
    }
    var userId := session.value;
    var row := StoredOrDefault(st.prefs, userId);
    row := Patched(row, body.value);
    st.prefs := st.prefs[userId := row];
    r := Ok(View(row));
  }

  /** The `PATCH` answer is what a `GET` right after it returns. */
  lemma PatchAnswersAsGet(prefs: map<Id, Preferences>, userId: Id, body: PatchBody)
    ensures var after := prefs[userId := Patched(StoredOrDefault(prefs, userId), body)];
            GetSettings(after, Some(userId)) == Ok(View(Patched(StoredOrDefault(prefs, userId), body)))
  {
  }
}
