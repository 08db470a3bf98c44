/** The mail relay of server.js: the configuration it reads once at start-up,
    GET /api/health, GET /api/debug/email-config and POST /api/contact. The
    mail transport is represented by whether it was created and by what its
    sendMail call settles with. */
module Server {
  import opened JsRuntime
  import opened Http
  import opened HtmlEscape

  /** The constants read from the environment at start-up. */
  datatype Config = Config(
    smtpUser: string,
    smtpPass: string,
    smtpHost: string,
    smtpPort: int,
    smtpSecure: bool,
    emailReceiver: string,
    emailFromName: string,
    nodeEnv: Option<string>)

  /** `process.env[key] || fallback`: an unset or empty variable gives the fallback. */
  function EnvOr(env: map<string, string>, key: string, fallback: string): string {
    if key in env && env[key] != "" then env[key] else fallback
  }

  predicate EnvSet(env: map<string, string>, key: string) {
    key in env && env[key] != ""
  }

  /** The configuration block at the top of server.js. `parsedPort` is what
      parseInt makes of EMAIL_PORT, used only when that variable is set. */
  function FromEnvironment(env: map<string, string>, parsedPort: int): (c: Config)
    ensures c.smtpUser == EnvOr(env, "EMAIL_USER", "") && c.smtpPass == EnvOr(env, "EMAIL_PASS", "")
    ensures c.emailReceiver == if EnvSet(env, "EMAIL_RECEIVER") then env["EMAIL_RECEIVER"] else c.smtpUser
    ensures c.smtpHost == EnvOr(env, "EMAIL_HOST", "smtp.gmail.com") && c.smtpHost != ""
    ensures c.emailFromName == EnvOr(env, "EMAIL_FROM_NAME", "Portfolio Contact") && c.emailFromName != ""
    ensures c.nodeEnv == if "NODE_ENV" in env then Some(env["NODE_ENV"]) else None
    ensures c.smtpSecure <==> !EnvSet(env, "EMAIL_SECURE") || env["EMAIL_SECURE"] == "true"
    ensures c.smtpPort == if EnvSet(env, "EMAIL_PORT") then parsedPort else 465
  {
    var user := EnvOr(env, "EMAIL_USER", "");
    Config(
      user,
      EnvOr(env, "EMAIL_PASS", ""),
      EnvOr(env, "EMAIL_HOST", "smtp.gmail.com"),
      if EnvSet(env, "EMAIL_PORT") then parsedPort else 465,
      if EnvSet(env, "EMAIL_SECURE") then env["EMAIL_SECURE"] == "true" else true,
      EnvOr(env, "EMAIL_RECEIVER", user),
      EnvOr(env, "EMAIL_FROM_NAME", "Portfolio Contact"),
      if "NODE_ENV" in env then Some(env["NODE_ENV"]) else None)
  }

  /** Both SMTP credentials are present. */
  predicate Credentialed(cfg: Config) {
    cfg.smtpUser != "" && cfg.smtpPass != ""
  }

  // ---------------------------------------------------------------- /api/health

  datatype HealthReply = HealthReply(ok: bool, emailConfigured: bool)

  function Health(cfg: Config): (h: HealthReply)
    ensures h.ok
    ensures h.emailConfigured <==> cfg.smtpUser != "" && cfg.smtpPass != ""
  {
    HealthReply(true, Credentialed(cfg))
  }

  /** The health report tells whether a password is set, never which one. */
  lemma HealthHidesPassword(cfg: Config, pass: string)
    requires cfg.smtpPass != "" && pass != ""
    ensures Health(cfg.(smtpPass := pass)) == Health(cfg)
  {
  }

  // ---------------------------------------------------- /api/debug/email-config

  datatype DebugReply =
    | Forbidden(status: nat, error: string)
    | Snapshot(
        emailConfigured: bool,
        smtpHost: string,
        smtpPort: int,
        smtpSecure: bool,
        emailReceiver: string,
        emailFromName: string,
        nodeEnv: string,
        hasTransporter: bool)

  /** The caller's address as Express reports it counts as local. */
  predicate IsLocalhost(ip: string) {
    ip == "127.0.0.1" || ip == "::1" || Includes(ip, "localhost")
  }

  function DebugEmailConfig(cfg: Config, ip: string, hasTransporter: bool): (r: DebugReply)
    ensures r.Forbidden? <==> cfg.nodeEnv == Some("production") && !IsLocalhost(ip)
    ensures r.Forbidden? ==> r.status == 403 && r.error == "Not allowed"
    ensures r.Snapshot? ==> r.emailConfigured == Health(cfg).emailConfigured
    ensures r.Snapshot? ==> r.hasTransporter == hasTransporter && r.emailReceiver == cfg.emailReceiver
    ensures r.Snapshot? ==> r.smtpHost == cfg.smtpHost && r.smtpPort == cfg.smtpPort
                            && r.smtpSecure == cfg.smtpSecure && r.emailFromName == cfg.emailFromName
    ensures r.Snapshot? ==> r.nodeEnv == if cfg.nodeEnv.Some? && cfg.nodeEnv.value != "" then cfg.nodeEnv.value else "development"
  {
    if cfg.nodeEnv == Some("production") && !IsLocalhost(ip) then
      Forbidden(403, "Not allowed")
    else
      Snapshot(
        Credentialed(cfg),
        cfg.smtpHost,
        cfg.smtpPort,
        cfg.smtpSecure,
        cfg.emailReceiver,
        cfg.emailFromName,
        if cfg.nodeEnv.Some? && cfg.nodeEnv.value != "" then cfg.nodeEnv.value else "development",
        hasTransporter)
  }

  /** The diagnostics never depend on the password beyond its presence. */
  lemma DebugHidesPassword(cfg: Config, pass: string, ip: string, hasTransporter: bool)
    requires cfg.smtpPass != "" && pass != ""
    ensures DebugEmailConfig(cfg.(smtpPass := pass), ip, hasTransporter) == DebugEmailConfig(cfg, ip, hasTransporter)
  {
  }

  // --------------------------------------------------------------- /api/contact

  const MissingFields := "Missing required fields (name, email, message)"
  const NotConfigured := "Email service not configured on server. Contact administrator."
  const InitFailed := "Email service initialization failed. Contact administrator."
  const SendFailed := "Failed to send email. Please try again later."
  const AuthFailed := "Email authentication failed. Server configuration issue."
  const Unavailable := "Email service temporarily unavailable. Please try again."

  /** The destructured request body; None is a property that is not there. */
  datatype ContactRequest = ContactRequest(
    name: Option<Json>,
    email: Option<Json>,
    subject: Option<Json>,
    message: Option<Json>)

  /** What the awaited sendMail settles with: the transport's message id, or an
      error with its `code` property and its message text. */
  datatype SendResult =
    | Delivered(messageId: string)
    | SendError(code: Option<string>, detail: string)

  datatype MailOptions = MailOptions(
    from: string,
    to: string,
    subject: string,
    replyTo: string,
    text: string,
    html: string)

  /** The JSON reply: `{success: true, messageId}` or `{success: false, error}`. */
  datatype ContactBody = Accepted(messageId: string) | Refused(error: string)

  /** The handler either answers (with the mail it handed to the transport, if
      it got that far), or throws before reaching the send. */
  datatype ContactOutcome =
    | Reply(status: nat, body: ContactBody, mailed: Option<MailOptions>)
    | Threw

  predicate HasRequiredFields(req: ContactRequest) {
    Truthy(req.name) && Truthy(req.email) && Truthy(req.message)
  }

  /** The fields as the strings escapeHtml needs. It throws a TypeError on any
      value that is not a string, which is why name, email and message must be
      strings, and so must the subject unless it is falsy (then 'N/A' is
      escaped instead). A falsy subject is represented by "". */
  function MailFields(req: ContactRequest): (r: Option<Submission>)
    requires HasRequiredFields(req)
    ensures r.Some? <==> StringOf(req.name).Some? && StringOf(req.email).Some? && StringOf(req.message).Some?
                         && (Truthy(req.subject) ==> StringOf(req.subject).Some?)
    ensures r.Some? ==> r.value.name != "" && r.value.email != "" && r.value.message != ""
    ensures r.Some? ==> (r.value.subject != "" <==> Truthy(req.subject))
    // the fields are the request's own strings
    ensures r.Some? ==> Some(r.value.name) == StringOf(req.name) && Some(r.value.email) == StringOf(req.email)
                        && Some(r.value.message) == StringOf(req.message)
                        && (Truthy(req.subject) ==> Some(r.value.subject) == StringOf(req.subject))
  {
    var name := StringOf(req.name);
    var email := StringOf(req.email);
    var message := StringOf(req.message);
    if name.None? || email.None? || message.None? then None
    else if !Truthy(req.subject) then Some(Submission(name.value, email.value, "", message.value))
    else if StringOf(req.subject).None? then None
    else Some(Submission(name.value, email.value, StringOf(req.subject).value, message.value))
  }

  /** The fixed parts of the HTML template literal. */
  const HtmlParts: seq<string> := [
    "\n      <h3>New Portfolio Contact</h3>\n      <p><strong>Name:</strong> ",
    "</p>\n      <p><strong>Email:</strong> <a href=\"mailto:",
    "\">",
    "</a></p>\n      <p><strong>Subject:</strong> ",
    "</p>\n      <p><strong>Message:</strong></p>\n      <pre>",
    "</pre>\n    "]

  /** The fixed parts of the plain-text template literal. */
  const TextParts: seq<string> := ["Name: ", "\nEmail: ", "\n\nMessage:\n", ""]

  function HtmlValues(name: string, email: string, subject: string, message: string): seq<string> {
    [Escape(name), Escape(email), Escape(email), Escape(subject), Escape(message)]
  }

  /** The HTML body: the template with every submitted value escaped. */
  function HtmlBody(name: string, email: string, subject: string, message: string): string {
    Template(HtmlParts, HtmlValues(name, email, subject, message))
  }

  /** The plain-text body, which embeds the values as they were sent. */
  function TextBody(name: string, email: string, message: string): string {
    Template(TextParts, [name, email, message])
  }

  /** The subject shown in the HTML body. */
  function ShownSubject(s: Submission): string {
    if s.subject != "" then s.subject else "N/A"
  }

  /** The mailOptions object of the handler. */
  function BuildMail(cfg: Config, s: Submission): (m: MailOptions)
    ensures m.from == cfg.emailFromName + " <" + cfg.smtpUser + ">"
    ensures m.to == cfg.emailReceiver && m.replyTo == s.email
    ensures s.subject != "" ==> m.subject == s.subject
    ensures s.subject == "" ==> m.subject == "Portfolio contact from " + s.name && Includes(m.subject, s.name)
    ensures m.html == HtmlBody(s.name, s.email, ShownSubject(s), s.message)
    ensures m.text == TextBody(s.name, s.email, s.message)
    ensures Includes(m.html, Escape(s.message)) && Includes(m.html, Escape(s.name))
    ensures Includes(m.html, Escape(s.email)) && Includes(m.html, Escape(ShownSubject(s)))
    ensures Includes(m.text, s.message) && Includes(m.text, s.name) && Includes(m.text, s.email)
  {
    var values := HtmlValues(s.name, s.email, ShownSubject(s), s.message);
    TemplateIncludes(HtmlParts, values, 0);
    TemplateIncludes(HtmlParts, values, 1);
    TemplateIncludes(HtmlParts, values, 3);
    TemplateIncludes(HtmlParts, values, 4);
    TemplateIncludes(TextParts, [s.name, s.email, s.message], 0);
    TemplateIncludes(TextParts, [s.name, s.email, s.message], 1);
    TemplateIncludes(TextParts, [s.name, s.email, s.message], 2);
    IncludesMiddle("Portfolio contact from ", s.name, "");
    assert "Portfolio contact from " + s.name + "" == "Portfolio contact from " + s.name;
    MailOptions(
      cfg.emailFromName + " <" + cfg.smtpUser + ">",
      cfg.emailReceiver,
      if s.subject != "" then s.subject else "Portfolio contact from " + s.name,
      s.email,
      TextBody(s.name, s.email, s.message),
      HtmlBody(s.name, s.email, ShownSubject(s), s.message))
  }

  /** Submitted values cannot add markup: whatever was sent, the HTML body holds
      exactly as many '<', '>', '"' and '\'' characters as the bare template. */
  lemma HtmlMarkupIsTemplate(name: string, email: string, subject: string, message: string, c: char)
    requires IsMarkup(c)
    ensures Count(HtmlBody(name, email, subject, message), c) == CountAll(HtmlParts, c)
  {
    var values := HtmlValues(name, email, subject, message);
    forall i | 0 <= i < |values| ensures Count(values[i], c) == 0 {
      EscapeAddsNoMarkup([name, email, email, subject, message][i], c);
    }
    TemplateCount(HtmlParts, values, c);
  }

  /** The message handed to the transport carries no markup from the
      submission: its HTML body has exactly the template's own markup. */
  lemma MailAddsNoMarkup(cfg: Config, s: Submission, c: char)
    requires IsMarkup(c)
    ensures Count(BuildMail(cfg, s).html, c) == CountAll(HtmlParts, c)
  {
    HtmlMarkupIsTemplate(s.name, s.email, ShownSubject(s), s.message, c);
  }

  /** The catch block of the handler: the error code picks one of three fixed
      messages; the error's own text is never used. */
  function SendErrorMessage(code: Option<string>): (msg: string)
    ensures msg == AuthFailed <==> code == Some("EAUTH")
    ensures msg == Unavailable <==> code == Some("ECONNREFUSED") || code == Some("ETIMEDOUT")
    ensures msg == SendFailed || msg == AuthFailed || msg == Unavailable
  {
    if code == Some("EAUTH") then AuthFailed
    else if code == Some("ECONNREFUSED") || code == Some("ETIMEDOUT") then Unavailable
    else SendFailed
  }

  /** POST /api/contact. `hasTransporter` says whether the transport was
      created at start-up; `send` is what its sendMail settles with. */
  function HandleContact(req: ContactRequest, cfg: Config, hasTransporter: bool, send: SendResult): (out: ContactOutcome)
    // presence is checked first: no transport is touched for an incomplete form
    ensures (out.Reply? && out.status == 400) <==> !HasRequiredFields(req)
    ensures !HasRequiredFields(req) ==> out == Reply(400, Refused(MissingFields), None)
    // then the credentials, then the transport
    ensures HasRequiredFields(req) && !Credentialed(cfg) ==> out == Reply(500, Refused(NotConfigured), None)
    ensures HasRequiredFields(req) && Credentialed(cfg) && !hasTransporter ==> out == Reply(500, Refused(InitFailed), None)
    // the handler throws only while building the message
    ensures out.Threw? <==> HasRequiredFields(req) && Credentialed(cfg) && hasTransporter && MailFields(req).None?
    // exactly the complete, configured requests reach the transport, with the built message
    ensures (out.Reply? && out.mailed.Some?) <==> HasRequiredFields(req) && Credentialed(cfg) && hasTransporter && MailFields(req).Some?
    ensures out.Reply? && out.mailed.Some? ==> out.mailed.value == BuildMail(cfg, MailFields(req).value)
    // success is exactly a delivered message, and it reports the transport's id
    ensures out.Reply? ==> (out.body.Accepted? <==> out.mailed.Some? && send.Delivered?)
    ensures out.Reply? && out.body.Accepted? ==> out.status == 200 && out.body.messageId == send.messageId
    // every failure is a 4xx or 5xx with a fixed message
    ensures out.Reply? && out.body.Refused? ==> out.status == 400 || out.status == 500
    ensures out.Reply? && out.mailed.Some? && send.SendError? ==> out.status == 500 && out.body == Refused(SendErrorMessage(send.code))
  {
    if !HasRequiredFields(req) then
      Reply(400, Refused(MissingFields), None)
    else if !Credentialed(cfg) then
      Reply(500, Refused(NotConfigured), None)
    else if !hasTransporter then
      Reply(500, Refused(InitFailed), None)
    else
      match MailFields(req)
      case None => Threw
      case Some(s) =>
        var mail := BuildMail(cfg, s);
        match send
        case Delivered(id) => Reply(200, Accepted(id), Some(mail))
        case SendError(code, _) => Reply(500, Refused(SendErrorMessage(code)), Some(mail))
  }

  /** The reply to a failed send does not depend on the error's text, so no
      internal detail reaches the caller. */
  lemma SendErrorHidesDetail(req: ContactRequest, cfg: Config, hasTransporter: bool, code: Option<string>, d1: string, d2: string)
    ensures HandleContact(req, cfg, hasTransporter, SendError(code, d1)) == HandleContact(req, cfg, hasTransporter, SendError(code, d2))
  {
  }

  /** When the health check reports email as not configured, every complete
      submission is refused with "not configured" and nothing is sent. */
  lemma UnconfiguredHealthMeansNoSend(req: ContactRequest, cfg: Config, hasTransporter: bool, send: SendResult)
    requires !Health(cfg).emailConfigured && HasRequiredFields(req)
    ensures HandleContact(req, cfg, hasTransporter, send) == Reply(500, Refused(NotConfigured), None)
  {
  }
}
