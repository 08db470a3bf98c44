/** The contact-form submit handler of portfolio/script.js. As for script.js,
    Submit runs up to the fetch and Complete from the settled fetch through the
    finally block. Alerts are recorded in the order they were raised. */
module PortfolioContact {
  import opened JsRuntime
  import opened Http

  const FillAlert := "Please fill name, email and message."
  const ThankYouAlert := "Message sent \U{2014} thank you!"
  const FailedToSend := "Failed to send message"
  const HttpFailurePrefix := FailedToSend + ". Server responded with "
  const RefusedPrefix := FailedToSend + ": "
  const UnexpectedAlert := "Unexpected server response. See console for details."
  const NetworkAlert := "Network error while sending message."
  const SendingLabel := "Sending..."
  const IdleLabel := "Send Message"

  /** The value of each field element, None when the form has no such element. */
  datatype FormFields = FormFields(name: Option<string>, email: Option<string>, subject: Option<string>, message: Option<string>)

  /** `(element || {}).value || ''` */
  function FieldValue(f: Option<string>): string {
    if f.Some? then f.value else ""
  }

  /** The posted fields, unless name, email or message is missing or empty.
      Nothing is trimmed. */
  function Collect(fields: FormFields): (r: Option<Submission>)
    ensures r.None? <==> fields.name in {None, Some("")} || fields.email in {None, Some("")}
                         || fields.message in {None, Some("")}
    ensures r.Some? ==> Some(r.value.name) == fields.name && Some(r.value.email) == fields.email
                         && Some(r.value.message) == fields.message
    ensures r.Some? ==> r.value.subject == FieldValue(fields.subject)
  {
    var name, email := FieldValue(fields.name), FieldValue(fields.email);
    var message, subject := FieldValue(fields.message), FieldValue(fields.subject);
    if name == "" || email == "" || message == "" then None
    else Some(Submission(name, email, subject, message))
  }

  /** `contentType.includes('application/json')`, with a missing header read as ''. */
  predicate DeclaresJson(contentType: Option<string>) {
    contentType.Some? && Includes(contentType.value, "application/json")
  }

  /** How a settled fetch is classified. */
  datatype Outcome =
    | HttpFailure(status: nat) // any status outside 200..299
    | Sent                     // JSON with a truthy `success`
    | Refused(error: string)   // JSON without it: `data.error || 'unknown'`
    | Unexpected               // 2xx without a JSON content type
    | NetworkError             // the fetch rejected, or res.json() threw, or `data` was null

  function Classify(o: FetchOutcome): (r: Outcome)
    ensures r.HttpFailure? <==> o.Response? && !Ok(o.status)
    ensures r.HttpFailure? ==> r.status == o.status
    ensures r.Unexpected? <==> o.Response? && Ok(o.status) && !DeclaresJson(o.contentType)
    ensures r.Sent? <==> o.Response? && Ok(o.status) && DeclaresJson(o.contentType)
                         && o.body.JsonValue? && Truthy(o.body.success)
    ensures r.Refused? ==> r.error != "" && o.Response? && o.body.JsonValue?
                           && r.error == ErrorOr(o.body.error, "unknown")
    ensures r.NetworkError? <==> o.NetworkFailure?
                                 || (Ok(o.status) && DeclaresJson(o.contentType) && !o.body.JsonValue?)
  {
    match o
    case NetworkFailure => NetworkError
    case Response(status, contentType, body) =>
      if !Ok(status) then HttpFailure(status)
      else if DeclaresJson(contentType) then
        match body
        case Unparsable => NetworkError
        case JsonNull => NetworkError
        case JsonValue(success, error) =>
          if Truthy(success) then Sent else Refused(ErrorOr(error, "unknown"))
      else Unexpected
  }

  /** The failure alerts and the thank-you alert differ in their first letter. */
  lemma AlertInitials()
    ensures HttpFailurePrefix[0] == 'F' && RefusedPrefix[0] == 'F' && ThankYouAlert[0] == 'M'
  {
    assert HttpFailurePrefix[0] == FailedToSend[0] && RefusedPrefix[0] == FailedToSend[0];
  }

  /** The alert raised for each outcome. The thank-you alert is raised for a
      confirmed send and for nothing else; a refusal's alert ends with the
      server's error, and an HTTP failure's alert names the status. */
  function AlertFor(r: Outcome): (a: string)
    ensures a == ThankYouAlert <==> r.Sent?
    ensures r.Refused? ==> IsPrefix(RefusedPrefix, a) && a[|RefusedPrefix|..] == r.error
    ensures r.HttpFailure? ==> IsPrefix(HttpFailurePrefix, a) && a == HttpFailurePrefix + NatToString(r.status) + "."
    ensures r.Unexpected? ==> a == UnexpectedAlert
    ensures r.NetworkError? ==> a == NetworkAlert
  {
    match r
    case HttpFailure(status) =>
      var a := HttpFailurePrefix + NatToString(status) + ".";
      assert a[..|HttpFailurePrefix|] == HttpFailurePrefix;
      assert a[0] == HttpFailurePrefix[0];
      AlertInitials();
      a
    case Sent => ThankYouAlert
    case Refused(error) =>
      var a := RefusedPrefix + error;
      assert a[..|RefusedPrefix|] == RefusedPrefix && a[|RefusedPrefix|..] == error;
      assert a[0] == RefusedPrefix[0];
      AlertInitials();
      a
    case Unexpected => UnexpectedAlert
    case NetworkError => NetworkAlert
  }

  /** Reads the status code back out of an HTTP-failure alert. */
  function StatusInAlert(t: string): Option<nat> {
    if IsPrefix(HttpFailurePrefix, t) && |t| > |HttpFailurePrefix| + 1 && t[|t| - 1] == '.'
       && (forall i :: |HttpFailurePrefix| <= i < |t| - 1 ==> IsDigit(t[i]))
    then Some(ParseDigits(t[|HttpFailurePrefix|..|t| - 1]))
    else None
  }

  /** The alert for a failed status names that status: it can be read back. */
  lemma AlertNamesStatus(status: nat)
    ensures StatusInAlert(AlertFor(HttpFailure(status))) == Some(status)
  {
    var digits := NatToString(status);
    var t := HttpFailurePrefix + digits + ".";
    assert t[..|HttpFailurePrefix|] == HttpFailurePrefix;
    assert t[|HttpFailurePrefix|..|t| - 1] == digits;
    forall i | |HttpFailurePrefix| <= i < |t| - 1 ensures IsDigit(t[i]) {
      assert t[i] == digits[i - |HttpFailurePrefix|];
    }
    ParseNatToString(status);
  }

  /** The form: its submit button (which may be absent), the alerts raised so far
      and the number of resets. */
  class Form {
    const hasButton: bool
    var disabled: bool
    var buttonText: string
    var alerts: seq<string>
    var resets: nat

    constructor (hasButton: bool, buttonText: string)
      ensures this.hasButton == hasButton && this.buttonText == buttonText
      ensures !disabled && alerts == [] && resets == 0
    {
      this.hasButton := hasButton;
      this.buttonText := buttonText;
      disabled := false;
      alerts := [];
      resets := 0;
    }

    /** From the submit event up to the fetch. An incomplete form raises one
        alert and leaves the button alone. */
    method Submit(fields: FormFields) returns (request: Option<Submission>)
      modifies this
      ensures request == Collect(fields)
      ensures resets == old(resets)
      ensures request.None? ==> alerts == old(alerts) + [FillAlert]
                                && disabled == old(disabled) && buttonText == old(buttonText)
      ensures request.Some? ==> alerts == old(alerts)
      ensures request.Some? && hasButton ==> disabled && buttonText == SendingLabel
      ensures request.Some? && !hasButton ==> disabled == old(disabled) && buttonText == old(buttonText)
    {
      request := Collect(fields);
      if request.None? {
        alerts := alerts + [FillAlert];
        return;
      }
      if hasButton {
        disabled := true;
        buttonText := SendingLabel;
      }
    }

    /** From the settled fetch through the finally block: exactly one alert,
        a reset only after a confirmed send, and the button restored. */
    method Complete(o: FetchOutcome)
      modifies this
      ensures alerts == old(alerts) + [AlertFor(Classify(o))]
      ensures resets == old(resets) + (if Classify(o).Sent? then 1 else 0)
      ensures hasButton ==> !disabled && buttonText == IdleLabel
      ensures !hasButton ==> disabled == old(disabled) && buttonText == old(buttonText)
    {
      // try
      if o.NetworkFailure? {
        alerts := alerts + [NetworkAlert];
      } else if !Ok(o.status) {
        alerts := alerts + [HttpFailurePrefix + NatToString(o.status) + "."];
      } else if DeclaresJson(o.contentType) {
        if !o.body.JsonValue? {
          // res.json() threw, or data.success was read from null: catch
          alerts := alerts + [NetworkAlert];
        } else if Truthy(o.body.success) {
          alerts := alerts + [ThankYouAlert];
          resets := resets + 1;
        } else {
          alerts := alerts + [RefusedPrefix + ErrorOr(o.body.error, "unknown")];
        }
      } else {
        alerts := alerts + [UnexpectedAlert];
      }
      // finally
      if hasButton {
        disabled := false;
        buttonText := IdleLabel;
      }
    }
  }
}
