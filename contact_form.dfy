/** The contact-form submit handler of script.js. The async handler is split at
    its await: Submit runs up to the fetch and returns what the pending call
    holds on to (the request it posted and the button's original label);
    Complete runs from the settled fetch to the end of the handler. */
module ContactForm {
  import opened JsRuntime
  import opened Http

  const FillRequired := "Please fill required fields."
  const ThankYou := "Message sent \U{2014} thank you!"
  const SendFailedNote := "Failed to send message."
  const NetworkErrorNote := "Network error."
  const SendingLabel := "Sending..."
  const IdleLabel := "Send Message"

  /** A field counts as filled when something other than whitespace is in it. */
  predicate Blank(s: string) {
    forall i :: 0 <= i < |s| ==> IsWhitespace(s[i])
  }

  /** The trimmed fields, unless name, email or message trims to nothing. */
  function Validate(name: string, email: string, subject: string, message: string): (r: Option<Submission>)
    ensures r.None? <==> Blank(name) || Blank(email) || Blank(message)
    ensures r.Some? ==> r.value.name != "" && r.value.email != "" && r.value.message != ""
    ensures r.Some? ==> r.value == Submission(Trim(name), Trim(email), Trim(subject), Trim(message))
  {
    var n, e, s, m := Trim(name), Trim(email), Trim(subject), Trim(message);
    if n == "" || e == "" || m == "" then None else Some(Submission(n, e, s, m))
  }

  /** How the try block ends: the note it shows, whether it resets the form,
      and whether it left through the catch block. */
  datatype Settlement = Settlement(note: string, reset: bool, threw: bool)

  /** The part of the try block after the fetch, on a form with or without a
      note element. `res.json()` is read whatever the status; an unparsable
      body throws, as does a failed fetch. A null body throws only where one
      of its properties is read: `success` on an ok status (the `&&` reads
      it only then), `error` in the else branch only when there is a note. */
  function Settle(o: FetchOutcome, hasNote: bool): (s: Settlement)
    ensures s.threw <==> o.NetworkFailure? || o.body.Unparsable?
                         || (o.body.JsonNull? && (Ok(o.status) || hasNote))
    ensures s.threw ==> s.note == NetworkErrorNote && !s.reset
    ensures s.reset <==> o.Response? && Ok(o.status) && o.body.JsonValue? && Truthy(o.body.success)
    ensures s.reset ==> s.note == ThankYou
    ensures !s.threw && !s.reset ==>
              s.note == ErrorOr(if o.body.JsonValue? then o.body.error else None, SendFailedNote)
    ensures s.note != ""
  {
    match o
    case NetworkFailure => Settlement(NetworkErrorNote, false, true)
    case Response(status, _, body) =>
      match body
      case Unparsable => Settlement(NetworkErrorNote, false, true)
      case JsonNull =>
        if Ok(status) || hasNote then Settlement(NetworkErrorNote, false, true)
        else Settlement(SendFailedNote, false, false)
      case JsonValue(success, error) =>
        if Ok(status) && Truthy(success) then Settlement(ThankYou, true, false)
        else Settlement(ErrorOr(error, SendFailedNote), false, false)
  }

  /** What the pending handler keeps across the await. */
  datatype Pending = Pending(request: Submission, origText: string)

  /** The form: its submit button, its optional `.form-note` element and the
      number of times it was reset. */
  class Form {
    const hasNote: bool
    var disabled: bool
    var buttonText: string
    var note: string
    var resets: nat

    constructor (hasNote: bool, buttonText: string)
      ensures this.hasNote == hasNote && this.buttonText == buttonText
      ensures !disabled && note == "" && resets == 0
    {
      this.hasNote := hasNote;
      this.buttonText := buttonText;
      disabled := false;
      note := "";
      resets := 0;
    }

    /** From the submit event up to the fetch: an incomplete form only gets the
        note; otherwise the button is disabled and relabelled, and the trimmed
        fields are posted. */
    method Submit(name: string, email: string, subject: string, message: string) returns (p: Option<Pending>)
      modifies this
      ensures p.None? <==> Blank(name) || Blank(email) || Blank(message)
      ensures resets == old(resets)
      ensures p.None? ==> disabled == old(disabled) && buttonText == old(buttonText)
                          && note == (if hasNote then FillRequired else old(note))
      ensures p.Some? ==> p.value == Pending(Validate(name, email, subject, message).value, old(buttonText))
                          && disabled && buttonText == SendingLabel && note == old(note)
    {
      var fields := Validate(name, email, subject, message);
      if fields.None? {
        if hasNote {
          note := FillRequired;
        }
        return None;
      }
      disabled := true;
      var origText := buttonText;
      buttonText := SendingLabel;
      p := Some(Pending(fields.value, origText));
    }

    /** From the settled fetch to the end of the handler. Every path enables the
        button again: the normal path puts back the label it found, the catch
        block always writes 'Send Message'. */
    method Complete(p: Pending, o: FetchOutcome)
      modifies this
      ensures !disabled
      ensures buttonText == if Settle(o, hasNote).threw then IdleLabel else p.origText
      ensures note == if hasNote then Settle(o, hasNote).note else old(note)
      ensures resets == old(resets) + (if Settle(o, hasNote).reset then 1 else 0)
    {
      var s := Settle(o, hasNote);
      if !s.threw {
        if s.reset {
          if hasNote {
            note := ThankYou;
          }
          resets := resets + 1;
        } else {
          if hasNote {
            note := s.note;
          }
        }
        buttonText := p.origText;
        disabled := false;
      } else {
        if hasNote {
          note := NetworkErrorNote;
        }
        disabled := false;
        buttonText := IdleLabel;
      }
    }
  }

  /** A submission started from the idle label ends with that label on every
      path, and with the button enabled. */
  method SubmitAndSettle(f: Form, name: string, email: string, subject: string, message: string, o: FetchOutcome)
    requires f.buttonText == IdleLabel && !f.disabled
    modifies f
    ensures !f.disabled && f.buttonText == IdleLabel
  {
    var p := f.Submit(name, email, subject, message);
    if p.Some? {
      f.Complete(p.value, o);
    }
  }
}
