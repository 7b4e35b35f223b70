/** `WebhookNotifier`: an on/off switch and a URL for posting error reports.
    The HTTP client is an oracle: `PostOutcome` says how the POST ended, and
    the clock reading for the payload's timestamp is a parameter. */
module Webhook {
  import opened Data

  /** The exception being reported: `type(error).__name__` and `str(error)`. */
  datatype ErrorInfo = ErrorInfo(typeName: string, message: string)

  /** How `client.post(...)` followed by `raise_for_status()` ends. */
  datatype PostOutcome =
    | Delivered          // a 2xx response
    | HttpError          // an `httpx.HTTPError`, caught by `_send_webhook`
    | OtherError         // any other exception, caught by `notify_error`

  const PayloadKeys: set<string> := {"timestamp", "severity", "error_type", "error_message", "context"}

  /** `_build_payload`: the five report fields; a missing or empty context
      becomes an empty dictionary. */
  function BuildPayload(timestamp: string, error: ErrorInfo, context: Option<map<string, Value>>,
                        severity: string): (p: map<string, Value>)
    ensures p.Keys == PayloadKeys
    ensures p["severity"] == Str(severity) && p["timestamp"] == Str(timestamp)
    ensures p["error_type"] == Str(error.typeName) && p["error_message"] == Str(error.message)
    ensures context.None? ==> p["context"] == Dict(map[])
    ensures context.Some? ==> p["context"] == Dict(context.value)
  {
    map["timestamp" := Str(timestamp),
        "severity" := Str(severity),
        "error_type" := Str(error.typeName),
        "error_message" := Str(error.message),
        "context" := Dict(if context.Some? && context.value != map[] then context.value else map[])]
  }

  /** A URL Python treats as true: present and not empty. */
  predicate UrlSet(url: Option<string>) {
    url.Some? && url.value != ""
  }

  class WebhookNotifier {
    var webhookUrl: Option<string>
    var timeout: Value
    var enabled: bool

    /** Notifications are on only while some URL (possibly empty) is stored. */
    ghost predicate Valid()
      reads this
    {
      enabled ==> webhookUrl.Some?
    }

    /** `__init__`: enabled only when asked for and a URL is given. */
    constructor (webhookUrl: Option<string>, timeout: Value, enabled: bool)
      ensures Valid()
      ensures this.webhookUrl == webhookUrl && this.timeout == timeout
      ensures this.enabled <==> enabled && webhookUrl.Some?
    {
      this.webhookUrl := webhookUrl;
      this.timeout := timeout;
      this.enabled := enabled && webhookUrl.Some?;
    }

    /** `set_webhook_url`: store the URL; notifications are on exactly when
        it is not None, even after `disable`. */
    method SetWebhookUrl(url: Option<string>)
      modifies this
      ensures Valid()
      ensures webhookUrl == url && (enabled <==> url.Some?) && timeout == old(timeout)
    {
      webhookUrl := url;
      enabled := url.Some?;
    }

    /** `disable`: notifications off, URL kept. */
    method Disable()
      requires Valid()
      modifies this
      ensures Valid()
      ensures !enabled && webhookUrl == old(webhookUrl) && timeout == old(timeout)
    {
      enabled := false;
    }

    /** `enable`: on only when a non-empty URL is stored; otherwise nothing
        changes. */
    method Enable()
      requires Valid()
      modifies this
      ensures Valid()
      ensures webhookUrl == old(webhookUrl) && timeout == old(timeout)
      ensures UrlSet(webhookUrl) ==> enabled
      ensures !UrlSet(webhookUrl) ==> enabled == old(enabled)
    {
      if UrlSet(webhookUrl) {
        enabled := true;
      }
    }

    /** `_send_webhook`: an unset or empty URL gives False without any
        request; otherwise the payload is posted (`posted` is the request
        body that went out) and the result is whether the POST succeeded.
        An HTTP error gives False; any other failure propagates (`raised`). */
    method SendWebhook(payload: map<string, Value>, outcome: PostOutcome)
      returns (sent: bool, posted: Option<map<string, Value>>, raised: bool)
      ensures !UrlSet(webhookUrl) ==> !sent && posted.None? && !raised
      ensures UrlSet(webhookUrl) ==> posted == Some(payload)
      ensures UrlSet(webhookUrl) ==> (sent <==> outcome.Delivered?) && (raised <==> outcome.OtherError?)
    {
      if !UrlSet(webhookUrl) {
        return false, None, false;
      }
      posted := Some(payload);
      sent := outcome.Delivered?;
      raised := outcome.OtherError?;
    }

    /** `notify_error`: when disabled, False without building a payload;
        otherwise the built payload is sent, and any failure gives False. */
    method NotifyError(error: ErrorInfo, context: Option<map<string, Value>>, severity: string,
                       timestamp: string, outcome: PostOutcome)
      returns (sent: bool, posted: Option<map<string, Value>>)
      ensures !enabled ==> !sent && posted.None?
      ensures enabled && !UrlSet(webhookUrl) ==> !sent && posted.None?
      ensures enabled && UrlSet(webhookUrl) ==>
                posted == Some(BuildPayload(timestamp, error, context, severity)) &&
                (sent <==> outcome.Delivered?)
      ensures sent ==> enabled && UrlSet(webhookUrl) && outcome.Delivered?
    {
      if !enabled {
        return false, None;
      }
      var payload := BuildPayload(timestamp, error, context, severity);
      var raised;
      sent, posted, raised := SendWebhook(payload, outcome);
      if raised {
        // caught and logged by `notify_error`
        sent := false;
      }
    }
  }
}
