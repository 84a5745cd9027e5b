/** The settings page's client logic: the optimistic preference toggle that is
    rolled back when saving fails, and the conversion of the URL-safe VAPID
    public key into the bytes the browser's push manager takes. */
module SettingsPage {
  import opened Base
  import opened Records
  import opened Settings
  import opened Base64

  /** `keyof NotificationPreferences`. */
  datatype PrefKey =
    | EmailEnabledKey | PushEnabledKey | NewIssueEmailKey | DraftReadyEmailKey
    | NewIssuePushKey | DraftReadyPushKey | HasPushSubscriptionKey

  function Get(v: SettingsView, key: PrefKey): bool {
    match key
    case EmailEnabledKey => v.emailEnabled
    case PushEnabledKey => v.pushEnabled
    case NewIssueEmailKey => v.newIssueEmail
    case DraftReadyEmailKey => v.draftReadyEmail
    case NewIssuePushKey => v.newIssuePush
    case DraftReadyPushKey => v.draftReadyPush
    case HasPushSubscriptionKey => v.hasPushSubscription
  }

  /** `{ ...prev, [key]: value }`. */
  function With(v: SettingsView, key: PrefKey, value: bool): (w: SettingsView)
    ensures Get(w, key) == value
    ensures forall k :: k != key ==> Get(w, k) == Get(v, k)
  {
    match key
    case EmailEnabledKey => v.(emailEnabled := value)
    case PushEnabledKey => v.(pushEnabled := value)
    case NewIssueEmailKey => v.(newIssueEmail := value)
    case DraftReadyEmailKey => v.(draftReadyEmail := value)
    case NewIssuePushKey => v.(newIssuePush := value)
    case DraftReadyPushKey => v.(draftReadyPush := value)
    case HasPushSubscriptionKey => v.(hasPushSubscription := value)
  }

  /** The body `JSON.stringify({ [key]: value })` as the `PATCH` handler reads
      it; `hasPushSubscription` is not one of the keys it looks at. */
  function PatchFor(key: PrefKey, value: bool): (b: PatchBody)
    ensures key == HasPushSubscriptionKey ==> b == PatchBody(Absent, Absent, Absent, Absent, Absent, Absent)
  {
    var none := PatchBody(Absent, Absent, Absent, Absent, Absent, Absent);
    match key
    case EmailEnabledKey => none.(emailEnabled := BoolValue(value))
    case PushEnabledKey => none.(pushEnabled := BoolValue(value))
    case NewIssueEmailKey => none.(newIssueEmail := BoolValue(value))
    case DraftReadyEmailKey => none.(draftReadyEmail := BoolValue(value))
    case NewIssuePushKey => none.(newIssuePush := BoolValue(value))
    case DraftReadyPushKey => none.(draftReadyPush := BoolValue(value))
    case HasPushSubscriptionKey => none
  }

  /** A successful save makes the server's answer what the page already shows:
      the stored row's view with the one key changed. The subscription flag is
      ignored by the server, so changing it saves nothing. */
  lemma SavedMatchesServer(p: Preferences, key: PrefKey, value: bool)
    ensures key != HasPushSubscriptionKey ==> View(Patched(p, PatchFor(key, value))) == With(View(p), key, value)
    ensures key == HasPushSubscriptionKey ==> View(Patched(p, PatchFor(key, value))) == View(p)
  {
    match key
    case EmailEnabledKey =>
    case PushEnabledKey =>
    case NewIssueEmailKey =>
    case DraftReadyEmailKey =>
    case NewIssuePushKey =>
    case DraftReadyPushKey =>
    case HasPushSubscriptionKey =>
  }

  /** The page's state: the preferences it shows and whether a save is in flight. */
  class Page {
    var prefs: SettingsView
    var saving: bool

    /** The state the page starts with, before the stored preferences arrive. */
    constructor ()
      ensures prefs == DefaultView && !saving
    {
      prefs := DefaultView;
      saving := false;
    }

    /** `updatePreference`: the key is set at once; `saved` is whether the
        `PATCH` came back with an ok status. On failure the key is set to
        `!value`, not to the value it had before. */
    method UpdatePreference(key: PrefKey, value: bool, saved: bool)
      modifies this
      ensures prefs == With(old(prefs), key, if saved then value else !value)
      ensures !saving
    {
      prefs := With(prefs, key, value);
      saving := true;
      if !saved {
        prefs := With(prefs, key, !value);
      }
      saving := false;
    }
  }

  /** A failed save of the value the switch offers, the opposite of what is
      shown, puts the view back exactly as it was. */
  lemma RollbackRestores(v: SettingsView, key: PrefKey)
    ensures With(With(v, key, !Get(v, key)), key, Get(v, key)) == v
  {
    match key
    case EmailEnabledKey =>
    case PushEnabledKey =>
    case NewIssueEmailKey =>
    case DraftReadyEmailKey =>
    case NewIssuePushKey =>
    case DraftReadyPushKey =>
    case HasPushSubscriptionKey =>
  }

  /** A failed save of the value already shown flips the key: the rollback
      writes `!value` rather than the earlier value. */
  lemma RollbackOfSameValueFlips(v: SettingsView, key: PrefKey)
    ensures Get(With(With(v, key, Get(v, key)), key, !Get(v, key)), key) != Get(v, key)
  {
  }

  /** `(4 - len % 4) % 4`. */
  function PadLength(n: nat): (k: nat)
    // the fewest `=` that make the length a multiple of four
    ensures k < 4 && (n + k) % 4 == 0
    ensures n % 4 == 0 ==> k == 0
    ensures n % 4 != 0 ==> n % 4 + k == 4
  {
    (4 - n % 4) % 4
  }

  /** `c.repeat(n)`. */
  function Repeat(c: char, n: nat): (s: string)
    ensures |s| == n && forall i :: 0 <= i < n ==> s[i] == c
  {
    if n == 0 then [] else Repeat(c, n - 1) + [c]
  }

  /** `.replace(/x/g, y)` for a one-character pattern. */
  function ReplaceAll(s: string, x: char, y: char): (r: string)
    ensures |r| == |s|
    ensures forall i :: 0 <= i < |s| ==> r[i] == (if s[i] == x then y else s[i])
  {
    if s == [] then [] else ReplaceAll(s[..|s| - 1], x, y) + [if s[|s| - 1] == x then y else s[|s| - 1]]
  }

  /** One character of the URL-safe alphabet in the standard alphabet. */
  function StandardChar(c: char): char {
    if c == '-' then '+' else if c == '_' then '/' else c
  }

  /** The padded, standard-alphabet form of a URL-safe base64 string. */
  function ToStandardBase64(s: string): (r: string)
    ensures |r| == |s| + PadLength(|s|) && |r| % 4 == 0
    ensures forall i :: 0 <= i < |s| ==> r[i] == StandardChar(s[i])
    ensures forall i :: |s| <= i < |r| ==> r[i] == '='
  {
    ReplaceAll(ReplaceAll(s + Repeat('=', PadLength(|s|)), '-', '+'), '_', '/')
  }

  predicate IsUrlSafeChar(c: char) {
    ('A' <= c <= 'Z') || ('a' <= c <= 'z') || ('0' <= c <= '9') || c == '-' || c == '_'
  }

  /** A URL-safe key becomes standard base64: standard characters, then padding only. */
  lemma UrlSafeBecomesStandard(s: string)
    requires forall i :: 0 <= i < |s| ==> IsUrlSafeChar(s[i])
    ensures var r := ToStandardBase64(s);
            forall i :: 0 <= i < |r| ==> (IsStandardDigit(r[i]) <==> i < |s|) && (r[i] == '=' <==> i >= |s|)
  {
  }

  /** Text already in the standard alphabet with a length that is a multiple of four is left alone. */
  lemma StandardUnchanged(s: string)
    requires |s| % 4 == 0
    requires forall i :: 0 <= i < |s| ==> s[i] != '-' && s[i] != '_'
    ensures ToStandardBase64(s) == s
  {
    var r := ToStandardBase64(s);
    assert |r| == |s|;
    forall i | 0 <= i < |s| ensures r[i] == s[i] {
    }
  }

  /** Storing a character code into a `Uint8Array` keeps it modulo 256. */
  function ToUint8(c: char): (b: Byte)
    ensures (c as int) < 256 ==> b as int == c as int
  {
    ((c as int) % 256) as Byte
  }

  /** The bytes of decoded text, one per character. */
  function Bytes(raw: string): (bs: seq<Byte>)
    ensures |bs| == |raw|
    ensures forall i :: 0 <= i < |raw| && (raw[i] as int) < 256 ==> bs[i] as int == raw[i] as int
  {
    seq(|raw|, i requires 0 <= i < |raw| => ToUint8(raw[i]))
  }

  /** The `for` loop of `urlBase64ToUint8Array`: each character code stored
      into a fresh `Uint8Array` of the same length. */
  method CopyCodes(raw: string) returns (outputArray: array<Byte>)
    ensures fresh(outputArray) && outputArray[..] == Bytes(raw)
  {
    outputArray := new Byte[|raw|];
    for i := 0 to |raw|
      invariant forall j :: 0 <= j < i ==> outputArray[j] == ToUint8(raw[j])
    {
      outputArray[i] := ToUint8(raw[i]);
    }
  }

  /** `urlBase64ToUint8Array`: pad, switch alphabets, decode, and copy the
      character codes into a fresh byte array; `None` where `atob` throws. */
  method UrlBase64ToUint8Array(s: string) returns (out: Option<array<Byte>>)
    ensures out.None? <==> Atob(ToStandardBase64(s)).None?
    ensures out.Some? ==> fresh(out.value) && out.value[..] == Bytes(Atob(ToStandardBase64(s)).value)
  {
    var rawData := Atob(ToStandardBase64(s));
    if rawData.None? {
      return None;
    }
    var outputArray := CopyCodes(rawData.value);
    out := Some(outputArray);
  }

  /** A URL-safe digit in the standard alphabet. */
  lemma StandardOfUrlDigit(v: Sextet)
    ensures StandardChar(UrlSafeDigit(v)) == StandardDigit(v)
  {
    DigitRoundTrip(v);
  }

  /** The page pads exactly as RFC 4648 section 4 does. */
  lemma PadLengthIsPadding(n: nat)
    ensures PadLength((4 * n + 2) / 3) == |Padding(n)|
  {
    SextetCount(n);
  }

  /** URL-safe digits followed by the page's padding are standard digits
      followed by the same number of `=`. */
  lemma UrlTextBecomesStandard(vs: seq<Sextet>, pad: string)
    requires |pad| == PadLength(|vs|) && forall i :: 0 <= i < |pad| ==> pad[i] == '='
    ensures ToStandardBase64(UrlText(vs)) == StandardText(vs) + pad
  {
    var r := ToStandardBase64(UrlText(vs));
    var e := StandardText(vs) + pad;
    forall i | 0 <= i < |r| ensures r[i] == e[i] {
      if i < |vs| {
        StandardOfUrlDigit(vs[i]);
      }
    }
  }

  /** The page's conversion turns a URL-safe unpadded encoding into the
      standard padded one, character for character. */
  lemma UrlKeyBecomesEncode(bs: seq<Byte>)
    ensures ToStandardBase64(EncodeUrl(bs)) == Encode(bs)
  {
    PadLengthIsPadding(|bs|);
    UrlTextBecomesStandard(Sextets(bs), Padding(|bs|));
  }

  /** A VAPID public key encoded as section 5 of RFC 4648 without padding comes
      back as exactly the bytes it encodes. */
  lemma KeyRoundTrip(bs: seq<Byte>)
    ensures Atob(ToStandardBase64(EncodeUrl(bs))) == Some(Latin1(bs))
    ensures Bytes(Latin1(bs)) == bs
  {
    UrlKeyBecomesEncode(bs);
    AtobDecodesEncode(bs);
  }

  /** A URL-safe key stays free of whitespace once converted. */
  lemma ConvertedHasNoWhitespace(s: string)
    requires forall i :: 0 <= i < |s| ==> IsUrlSafeChar(s[i])
    ensures Filter(ToStandardBase64(s), c => !IsAsciiWhitespace(c)) == ToStandardBase64(s)
  {
    var r := ToStandardBase64(s);
    forall i | 0 <= i < |r| ensures !IsAsciiWhitespace(r[i]) {
    }
    NoWhitespaceKept(r);
  }

  /** A URL-safe key whose length leaves a remainder of one when divided by
      four gets three `=`; `atob` strips two and then throws on the third. */
  lemma StrayDigitRejected(s: string)
    requires |s| % 4 == 1
    requires forall i :: 0 <= i < |s| ==> IsUrlSafeChar(s[i])
    ensures Atob(ToStandardBase64(s)) == None
  {
    var r := ToStandardBase64(s);
    ConvertedHasNoWhitespace(s);
    var t := WithoutPadding(r);
    assert t == r[..|r| - 2];
    assert !IsStandardDigit(t[|t| - 1]);
  }
}
