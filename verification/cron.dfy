/** The shared-secret check at the head of every cron route: the
    `authorization` header must equal `Bearer ${CRON_SECRET}`. */
module Cron {
  import opened Base

  /** The header value the routes compare against, as the template literal
      renders it: an unset secret is interpolated as the text `undefined`. */
  function ExpectedHeaderAsWritten(secret: Option<string>): (h: string)
    ensures "Bearer " <= h
  {
    "Bearer " + (if secret.Some? then secret.value else "undefined")
  }

  /** The check as written: the header equals the rendered template. */
  predicate CronAuthorizedAsWritten(header: Option<string>, secret: Option<string>) {
    header == Some(ExpectedHeaderAsWritten(secret))
  }

  /** With no secret configured, the literal header `Bearer undefined` passes
      the check as written. */
  lemma UnsetSecretAdmitsLiteralHeader()
    ensures CronAuthorizedAsWritten(Some("Bearer undefined"), None)
  {
    assert ExpectedHeaderAsWritten(None) == "Bearer undefined";
  }

  /** The check the routes evidently intend, and the one the model's routes use:
      a configured, non-empty secret, sent as a bearer token. */
  predicate CronAuthorized(header: Option<string>, secret: Option<string>) {
    Truthy(secret) && header == Some("Bearer " + secret.value)
  }

  /** The intended check never admits a request when no secret is configured,
      agrees with the written check whenever the secret is set and non-empty, and
      accepts exactly one header value. */
  lemma CronAuthorizedMeaning(header: Option<string>, secret: Option<string>)
    ensures !Truthy(secret) ==> !CronAuthorized(header, secret)
    ensures Truthy(secret) ==> (CronAuthorized(header, secret) <==> CronAuthorizedAsWritten(header, secret))
    ensures CronAuthorized(header, secret) ==> header.Some? && "Bearer " <= header.value &&
                                               header.value[|"Bearer "|..] == secret.value
  {
    if CronAuthorized(header, secret) {
      assert header.value == "Bearer " + secret.value;
    }
  }
}
