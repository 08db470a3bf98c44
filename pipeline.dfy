/** The two contact forms against the mail relay: what each client posts, how the
    server answers it, and how each client reads the answer back. */
module Pipeline {
  import opened JsRuntime
  import opened Http
  import opened Server
  import ContactForm
  import PortfolioContact

  /** JSON.stringify of a submission, as the server's body parser hands it over:
      every field is present and is a string. */
  function AsRequest(p: Submission): ContactRequest {
    ContactRequest(Some(JString(p.name)), Some(JString(p.email)), Some(JString(p.subject)), Some(JString(p.message)))
  }

  /** The Content-Type header res.json writes. */
  const JsonContentType := "application/json; charset=utf-8"

  /** A reply of the contact handler as the client's fetch sees it: the status,
      the JSON content type and the `success` and `error` properties. */
  function Wire(status: nat, body: ContactBody): (o: FetchOutcome)
    ensures o.Response? && o.status == status && o.body.JsonValue?
    ensures Truthy(o.body.success) <==> body.Accepted?
    ensures body.Refused? ==> o.body.error == Some(body.error)
  {
    Response(status, Some(JsonContentType),
             JsonValue(Some(JBool(body.Accepted?)), if body.Refused? then Some(body.error) else None))
  }

  lemma JsonContentTypeDeclared()
    ensures PortfolioContact.DeclaresJson(Some(JsonContentType))
  {
    IncludesMiddle("", "application/json", "; charset=utf-8");
    assert "" + "application/json" + "; charset=utf-8" == JsonContentType;
  }

  /** What a client posts reads back on the server as the same submission, as
      long as name, email and message are not empty. */
  lemma RequestRoundTrip(p: Submission)
    requires p.name != "" && p.email != "" && p.message != ""
    ensures HasRequiredFields(AsRequest(p))
    ensures MailFields(AsRequest(p)) == Some(p)
  {
  }

  /** The outcome of posting `p` to a configured server with a transport:
      the built message goes to the transport, whatever the transport does. */
  lemma ConfiguredServerMails(p: Submission, cfg: Config, send: SendResult)
    requires p.name != "" && p.email != "" && p.message != ""
    requires Credentialed(cfg)
    ensures var out := HandleContact(AsRequest(p), cfg, true, send);
            out.Reply? && out.mailed == Some(BuildMail(cfg, p))
            && out.status != 400
  {
    RequestRoundTrip(p);
  }

  /** Whatever script.js lets through, the server neither rejects as incomplete
      nor fails on while building the message. */
  lemma ScriptSubmissionNeverIncomplete(name: string, email: string, subject: string, message: string,
                                        cfg: Config, hasTransporter: bool, send: SendResult)
    requires ContactForm.Validate(name, email, subject, message).Some?
    ensures var out := HandleContact(AsRequest(ContactForm.Validate(name, email, subject, message).value),
                                     cfg, hasTransporter, send);
            out.Reply? && out.status != 400
  {
    RequestRoundTrip(ContactForm.Validate(name, email, subject, message).value);
  }

  /** The same for the portfolio page's form. */
  lemma PortfolioSubmissionNeverIncomplete(fields: PortfolioContact.FormFields,
                                           cfg: Config, hasTransporter: bool, send: SendResult)
    requires PortfolioContact.Collect(fields).Some?
    ensures var out := HandleContact(AsRequest(PortfolioContact.Collect(fields).value), cfg, hasTransporter, send);
            out.Reply? && out.status != 400
  {
  }

  /** The three components disagree on a name made only of whitespace: script.js
      refuses it, while the portfolio form posts it and the server mails it. */
  lemma BlankNameDisagreement(name: string, email: string, subject: string, message: string,
                              cfg: Config, send: SendResult)
    requires name != "" && ContactForm.Blank(name) && email != "" && message != ""
    requires Credentialed(cfg)
    ensures ContactForm.Validate(name, email, subject, message).None?
    ensures PortfolioContact.Collect(PortfolioContact.FormFields(Some(name), Some(email), Some(subject), Some(message)))
         == Some(Submission(name, email, subject, message))
    ensures HandleContact(AsRequest(Submission(name, email, subject, message)), cfg, true, send).mailed.Some?
  {
    ConfiguredServerMails(Submission(name, email, subject, message), cfg, send);
  }

  /** Against this server, the portfolio form only ever thanks or reports the
      status: every refusal carries a 4xx or 5xx status, so the branches for a
      refused JSON body and for a non-JSON reply are never taken. */
  lemma PortfolioReadsServer(req: ContactRequest, cfg: Config, hasTransporter: bool, send: SendResult)
    requires HandleContact(req, cfg, hasTransporter, send).Reply?
    ensures var out := HandleContact(req, cfg, hasTransporter, send);
            var r := PortfolioContact.Classify(Wire(out.status, out.body));
            r == if out.body.Accepted? then PortfolioContact.Sent else PortfolioContact.HttpFailure(out.status)
  {
    JsonContentTypeDeclared();
  }

  /** Against this server, script.js shows the server's own error message
      whenever the send is refused, and resets the form exactly on success. */
  lemma ScriptReadsServer(req: ContactRequest, cfg: Config, hasTransporter: bool, send: SendResult, hasNote: bool)
    requires HandleContact(req, cfg, hasTransporter, send).Reply?
    ensures var out := HandleContact(req, cfg, hasTransporter, send);
            var s := ContactForm.Settle(Wire(out.status, out.body), hasNote);
            !s.threw && (s.reset <==> out.body.Accepted?)
            && (out.body.Refused? ==> s.note == out.body.error)
  {
  }
}
