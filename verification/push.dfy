/** Web push: the payloads sent for a new item and for a ready draft, and the
    classification of one send through the web-push library. */
module Push {
  import opened Base
  import opened Text
  import opened Records

  /** `{ title, body, url?, icon? }`. */
  datatype PushPayload = PushPayload(title: string, body: string, url: Option<string>, icon: Option<string>)

  /** A browser push subscription, as stored and parsed back. */
  datatype Subscription = Subscription(endpoint: string, p256dh: string, auth: string)

  /** The three VAPID settings the sender reads from the environment. */
  datatype Vapid = Vapid(publicKey: Option<string>, privateKey: Option<string>, email: Option<string>)

  /** What the library's `sendNotification` does: resolve with a status code,
      or reject with an error that may carry one. */
  datatype SendOutcome = SendOk(statusCode: int) | SendFailed(errorStatus: Option<int>)

  /** The library itself, outside this model: the outcome of one send. */
  type WebPush = (Subscription, PushPayload) -> SendOutcome

  /** What `sendPushNotification` returns: `null`, the library's result, or `{ expired: true }`. */
  datatype PushResult = NoResult | Delivered(statusCode: int) | Expired

  const Icon := "/icon-192.png"
  const GoneStatus := 410

  /** All three VAPID settings are set and non-empty. */
  predicate Configured(v: Vapid) {
    Truthy(v.publicKey) && Truthy(v.privateKey) && Truthy(v.email)
  }

  /** `sendPushNotification`. */
  function SendPushNotification(v: Vapid, sub: Subscription, payload: PushPayload, lib: WebPush): (r: PushResult)
    // any missing setting: `null`, whatever the library would have done
    ensures !Configured(v) ==> r == NoResult
    // a configured send returns the library's result on success
    ensures Configured(v) ==> (r.Delivered? <==> lib(sub, payload).SendOk?)
    ensures r.Delivered? ==> r.statusCode == lib(sub, payload).statusCode
    // and reports expiry exactly for a rejection with status 410
    ensures r == Expired <==> Configured(v) && lib(sub, payload) == SendFailed(Some(GoneStatus))
  {
    if !Configured(v) then NoResult
    else match lib(sub, payload)
      case SendOk(code) => Delivered(code)
      case SendFailed(code) => if code == Some(GoneStatus) then Expired else NoResult
  }

  /** Without VAPID settings no send is made: the result does not depend on the library. */
  lemma UnconfiguredSendsNothing(v: Vapid, sub: Subscription, payload: PushPayload, a: WebPush, b: WebPush)
    requires !Configured(v)
    ensures SendPushNotification(v, sub, payload, a) == SendPushNotification(v, sub, payload, b) == NoResult
  {
  }

  /** A rejection other than 410, including one without a status, is `null`. */
  lemma OtherFailuresAreNull(v: Vapid, sub: Subscription, payload: PushPayload, lib: WebPush)
    requires lib(sub, payload).SendFailed? && lib(sub, payload).errorStatus != Some(GoneStatus)
    ensures SendPushNotification(v, sub, payload, lib) == NoResult
  {
  }

  /** "pull request" for a pull request, "issue" otherwise. */
  function ItemWord(kind: ItemType): (w: string)
    ensures w == "pull request" <==> kind == PullRequestItem
  {
    if kind == PullRequestItem then "pull request" else "issue"
  }

  /** `newIssuePushPayload`: `New <kind> in owner/repo`, `#N - title`, the item's URL and the icon. */
  function NewIssuePushPayload(owner: string, repo: string, number: nat, title: string, url: string, kind: ItemType): (p: PushPayload)
    ensures "New " <= p.title
    ensures |p.body| >= |title| && p.body[|p.body| - |title|..] == title
    ensures p.url == Some(url) && p.icon == Some(Icon)
  {
    PushPayload("New " + ItemWord(kind) + " in " + owner + "/" + repo, "#" + NatToString(number) + " - " + title,
                Some(url), Some(Icon))
  }

  /** The title tells a pull request from an issue for the same repository. */
  lemma NewIssuePayloadNamesKind(owner: string, repo: string, number: nat, title: string, url: string)
    ensures NewIssuePushPayload(owner, repo, number, title, url, IssueItem).title !=
            NewIssuePushPayload(owner, repo, number, title, url, PullRequestItem).title
  {
    assert NewIssuePushPayload(owner, repo, number, title, url, IssueItem).title[4] == 'i';
    assert NewIssuePushPayload(owner, repo, number, title, url, PullRequestItem).title[4] == 'p';
  }

  /** For one title, the body names one issue number. */
  lemma NewIssuePayloadNamesNumber(owner: string, repo: string, m: nat, n: nat, title: string, url: string, kind: ItemType)
    requires NewIssuePushPayload(owner, repo, m, title, url, kind).body == NewIssuePushPayload(owner, repo, n, title, url, kind).body
    ensures m == n
  {
    Assoc("#" + NatToString(m), " - ", title);
    Assoc("#" + NatToString(n), " - ", title);
    MiddleDetermined("#", NatToString(m), NatToString(n), " - " + title);
    NatToStringInjective(m, n);
  }

  /** An environment variable interpolated into a template: unset reads as `undefined`. */
  function Interpolated(v: Option<string>): (s: string)
    ensures v.Some? ==> s == v.value
  {
    if v.Some? then v.value else "undefined"
  }

  /** The draft's page: `<NEXTAUTH_URL>/drafts/<draftId>`. */
  function DraftUrl(baseUrl: Option<string>, draftId: string): (u: string)
    ensures Interpolated(baseUrl) <= u
    ensures |u| >= |draftId| && u[|u| - |draftId|..] == draftId
  {
    var u := Interpolated(baseUrl) + "/drafts/" + draftId;
    assert u == Interpolated(baseUrl) + ("/drafts/" + draftId);
    assert u == (Interpolated(baseUrl) + "/drafts/") + draftId;
    u
  }

  /** `draftReadyPushPayload`: `Draft PR #P ready`, `owner/repo issue #N`, the draft's page and the icon. */
  function DraftReadyPushPayload(owner: string, repo: string, number: nat, prNumber: nat, draftId: string,
                                 baseUrl: Option<string>): (p: PushPayload)
    ensures "Draft PR #" <= p.title
    ensures p.url == Some(DraftUrl(baseUrl, draftId)) && p.icon == Some(Icon)
  {
    PushPayload("Draft PR #" + NatToString(prNumber) + " ready", owner + "/" + repo + " issue #" + NatToString(number),
                Some(DraftUrl(baseUrl, draftId)), Some(Icon))
  }

  /** The draft title names one pull request number. */
  lemma DraftPayloadNamesPr(owner: string, repo: string, number: nat, p: nat, q: nat, draftId: string, baseUrl: Option<string>)
    requires DraftReadyPushPayload(owner, repo, number, p, draftId, baseUrl).title ==
             DraftReadyPushPayload(owner, repo, number, q, draftId, baseUrl).title
    ensures p == q
  {
    MiddleDetermined("Draft PR #", NatToString(p), NatToString(q), " ready");
    NatToStringInjective(p, q);
  }
}
