# Portfolio contact pipeline, modelled in Dafny

The portfolio site has a small Express server (`server.js`) and two browser
scripts. The server relays contact-form submissions by SMTP and answers two
diagnostic endpoints. The main page's `script.js` runs the hero typing effect
and posts its contact form. The portfolio page's `portfolio/script.js` posts
its own contact form and runs the slide-in navigation menu. This project
models each of them and proves what they guarantee.

- `js.dfy` (`JsRuntime`): the JavaScript semantics the code relies on.
  This covers optional values, JSON values and truthiness, `substring`'s
  clamping, `includes`, `trim` (the ECMAScript WhiteSpace and LineTerminator
  code points) and the decimal rendering of a status code. It also has template
  literals as fixed parts with values placed between them.
- `http.dfy` (`Http`): the posted submission and what a client's `fetch`
  settles with. That is a rejection, or a status, a Content-Type header and a
  body that `res.json()` reads as unparsable, as `null` or as a value.
- `escape.dfy` (`HtmlEscape`): `escapeHtml`. Its output holds no `<`, `>`, `"`
  or `'`. Every `&` it emits begins an entity, and decoding the five entities
  gives the input back.
- `server.js` is modelled in `server.dfy` (`Server`):
  - the start-up configuration from the environment;
  - `GET /api/health`;
  - `GET /api/debug/email-config`, which answers 403 in production unless the
    caller is local;
  - `POST /api/contact`, as one function from the request, the configuration,
    whether the transport exists and what `sendMail` settles with.
- `typing.dfy` (`Typing`): `type()` as a step function on the cursor, with the
  whole type-and-delete cycle proved. It also has a `Typewriter` class whose
  `Type` method updates the three module-level variables as the code does.
- `contact_form.dfy` (`ContactForm`): the submit handler of `script.js`.
  The async handler is split at the await. `Submit` runs up to the fetch.
  `Complete` runs from the settled fetch to the end of the handler.
- `portfolio_form.dfy` (`PortfolioContact`): the same for the portfolio page's
  form, including its try/catch/finally.
- `nav_drawer.dfy` (`NavDrawer`): the four menu handlers on the
  `aria-expanded` attribute and the two `active` classes. The proved invariant
  is that attribute and classes stay in sync.
- `pipeline.dfy` (`Pipeline`): the clients against the server.
  - Anything either client posts is neither rejected as incomplete nor makes
    the server throw.
  - A name made of whitespace is refused by `script.js` but relayed by the
    portfolio form and the server.
  - Against this server, the portfolio form only ever thanks or reports the
    status.

External effects become values:
- `alert` calls are an appended list.
- `form.reset()` is a counter.
- Element text and attributes are fields.
- The SMTP transport is reduced to whether it was created and to the result of
  `sendMail`.

Strings are sequences of Unicode scalar values.

Only `script.js` trims the submitted fields. `portfolio/script.js` and
`server.js` test the raw values, so a field made of whitespace passes both of
them (`Pipeline.BlankNameDisagreement`).

## Model

| member | source | states |
|---|---|---|
| `JsRuntime.Substring` | script.js:18-26 | `substring(0, k)` is the prefix of length k clamped to [0, length]: empty for k < 0, the whole string for k beyond the end |
| `JsRuntime.Trim` | script.js:85-88 | the trimmed field has no leading or trailing whitespace, and is empty exactly when the field is all whitespace |
| `JsRuntime.TrimIdempotent` | script.js:85-88 | trimming an already trimmed field changes nothing |
| `JsRuntime.LeadingWhitespace` | script.js:85-88 | the length of the whitespace run at the start of a field: all whitespace, and followed by a non-whitespace character or the end |
| `JsRuntime.TrimKeepsMiddle` | script.js:85-88 | the trimmed field is the input's own characters starting just after its leading whitespace, and everything after it is whitespace |
| `JsRuntime.NatToString` | portfolio/script.js:38 | a status rendered in decimal is a nonempty string of digits with no leading zero |
| `JsRuntime.ParseNatToString` | portfolio/script.js:38 | the decimal rendering reads back as the same number |
| `HtmlEscape.Escape` | server.js:192-201 | the escaped text is at least as long as the input and contains none of `<`, `>`, `"`, `'` |
| `HtmlEscape.EscapeAmpersands` | server.js:193-200 | every `&` in the escaped text begins one of the five entities |
| `HtmlEscape.EscapeIdentity` | server.js:200 | text without any of the five characters is left unchanged |
| `HtmlEscape.EscapeConcat` | server.js:200 | the replacement is global and per character: escaping a concatenation is concatenating the escapes |
| `HtmlEscape.UnescapeEscape` | server.js:192-201 | escaping loses nothing: decoding the five entities restores the input |
| `HtmlEscape.EscapeAddsNoMarkup` | server.js:192-201 | escaped text contains zero occurrences of each markup character |
| `Server.FromEnvironment` | server.js:19-25 | empty or unset variables fall back to their defaults: the host to `smtp.gmail.com`, the sender name to `Portfolio Contact`, user and password to empty, the receiver to the SMTP user and the port to 465; `secure` is true unless EMAIL_SECURE is set to something other than `true` |
| `Server.Health` | server.js:86-91 | `ok` is always true; `emailConfigured` holds exactly when both user and password are set |
| `Server.HealthHidesPassword` | server.js:89 | the health reply does not depend on which password is set |
| `Server.DebugEmailConfig` | server.js:171-189 | 403 with `Not allowed` exactly when NODE_ENV is `production` (line 175) and the caller is not local; otherwise the snapshot agrees with the health flag and reports the configured host, port, `secure` flag, receiver and sender name and the transporter flag, with `nodeEnv` being NODE_ENV or, when that is unset or empty, `development` (line 186) |
| `Server.DebugHidesPassword` | server.js:179-188 | the diagnostics do not depend on which password is set |
| `Server.MailFields` | server.js:129-136 | escaping succeeds exactly when name, email and message are strings and the subject is a string or falsy; the fields are the request's own strings, and a falsy subject is empty |
| `Server.BuildMail` | server.js:123-137 | sender is `from-name <user>`, receiver the configured one, reply-to the sender's address; the subject is the submitted one or else `Portfolio contact from <name>`; the bodies are the two templates filled with the values (escaped in the HTML one), so both contain every submitted value |
| `Server.MailAddsNoMarkup` | server.js:123-137 | the HTML body of any built message has exactly the template's own count of each markup character, whatever was submitted |
| `Server.HtmlMarkupIsTemplate` | server.js:129-136 | submitted values add no markup: the HTML body has exactly the template's own count of each markup character |
| `Server.SendErrorMessage` | server.js:153-161 | EAUTH, and ECONNREFUSED or ETIMEDOUT, pick their messages (in both directions); every other code gets the generic message |
| `Server.HandleContact` | server.js:94-168 | 400 exactly for missing fields, then 500 for missing credentials, then 500 for a missing transport; it throws exactly when escaping fails after those checks; exactly the other requests are mailed, with the built message; success is exactly a delivery, with status 200 and the transport's id; a send error gives 500 with the code's message |
| `Server.SendErrorHidesDetail` | server.js:147-166 | the reply to a failed send does not depend on the error's text |
| `Server.UnconfiguredHealthMeansNoSend` | server.js:86-112 | when health reports email unconfigured, every complete request gets the not-configured 500 and nothing is sent |
| `Typing.Step` | script.js:13-34 | a frame shows the clamped prefix of the current phrase; typing moves forward and turns at the end; deleting moves back and passes to the next phrase (mod the count) below zero; the delays are 90, 1200, 40 and 600 as the case demands |
| `Typing.StepKeepsReachable` | script.js:13-34 | the cursor bounds (-1 to length while typing, 0 to length + 1 while deleting) are preserved |
| `Typing.InitialReachable` | script.js:4-10 | the initial cursor is within those bounds |
| `Typing.Run` | script.js:13-34 | any number of calls keeps the phrase index within the phrase list |
| `Typing.TypingPhase` | script.js:25-31 | k typing calls from a advance the character index by k and turn to deleting exactly past the end |
| `Typing.DeletingPhase` | script.js:17-24 | k deleting calls from b go back by k, and the (b + 1)-th passes to the next phrase at -1 |
| `Typing.PhraseCycle` | script.js:13-34 | 2·length + 4 calls take a phrase from its first frame to the next phrase's first frame, passing the turn after length + 2 |
| `Typing.TypingFrames` | script.js:26 | the typing frames show the prefixes of the phrase in order |
| `Typing.DeletingFrames` | script.js:18 | the deleting frames show the phrase shrinking back one character per call |
| `Typing.Typewriter.constructor` | script.js:10-11 | the animation starts at the first phrase, first character, typing |
| `Typing.Typewriter.Type` | script.js:13-34 | without the element nothing changes and nothing is scheduled; otherwise the element shows the step's frame, the variables become the step's cursor and the step's delay is scheduled |
| `ContactForm.Validate` | script.js:85-93 | the form is refused exactly when name, email or message is all whitespace; otherwise the trimmed fields are posted |
| `ContactForm.Settle` | script.js:107-119 | leaving through the catch is exactly a failed fetch, an unreadable body, or a null body whose `success` (ok status) or `error` (a note element present) is read, with the network note; the form is reset exactly on an ok status with a truthy success; otherwise the note is the server's error or the fallback |
| `ContactForm.Form.Submit` | script.js:81-98 | a refused form only gets the fill-in note; otherwise the button is disabled and relabelled, and the trimmed fields and the old label are kept for the completion |
| `ContactForm.Form.Complete` | script.js:107-122 | the button is enabled again, with its old label or, after the catch, the idle label; the note and the reset count follow `Settle` |
| `ContactForm.SubmitAndSettle` | script.js:95-122 | a submission started from the idle label leaves the button enabled with that label on every path |
| `PortfolioContact.Collect` | portfolio/script.js:11-19 | the form is refused exactly when name, email or message is missing or empty; otherwise the raw values are posted, an absent subject as empty |
| `PortfolioContact.Classify` | portfolio/script.js:34-55 | non-2xx is an HTTP failure with that status; 2xx without a JSON content type is unexpected; success exactly for a JSON body with a truthy `success`; a refusal carries `error` or `unknown`; the network branch exactly for a rejected fetch or unreadable JSON |
| `PortfolioContact.AlertFor` | portfolio/script.js:38-55 | the thank-you alert is raised exactly on success; a refusal's alert is the refusal prefix followed by the server's error; an HTTP failure's alert is its prefix, the status in decimal and a period; the unexpected-reply and network alerts are their fixed texts |
| `PortfolioContact.AlertNamesStatus` | portfolio/script.js:38 | the HTTP-failure alert names the status: it reads back as that number |
| `PortfolioContact.Form.Submit` | portfolio/script.js:8-25 | a refused form raises the fill-in alert and nothing else; otherwise the collected fields are posted and an existing button is disabled and relabelled |
| `PortfolioContact.Form.Complete` | portfolio/script.js:33-61 | exactly one alert, the one for the classified outcome; a reset only after a confirmed send; the `finally` restores an existing button |
| `NavDrawer.Toggle` | portfolio/script.js:75-81 | the attribute becomes the negation of its previous value; the menu class flips, and so does the overlay's one when there is an overlay; sync is preserved |
| `NavDrawer.Close` | portfolio/script.js:84-99 | from any state the attribute becomes `false` and both classes are removed, which is a synced state |
| `NavDrawer.KeyDown` | portfolio/script.js:102-108 | only Escape with the menu open changes anything, and then it closes the menu; sync is preserved |
| `NavDrawer.CloseIdempotent` | portfolio/script.js:84-99 | closing twice is closing once |
| `NavDrawer.ToggleTwice` | portfolio/script.js:75-81 | from a synced state with the attribute set, two toggles return to it |
| `NavDrawer.SyncedForever` | portfolio/script.js:65-108 | from a synced state, no sequence of events lets the attribute and the classes disagree |
| `NavDrawer.SyncedAfterLinkClick` | portfolio/script.js:84-90 | from any state, a link click followed by any events ends synced |
| `NavDrawer.Drawer.constructor` | portfolio/script.js:66-71 | the handlers start from the page's attribute and classes |
| `NavDrawer.Drawer.OnToggleClick` | portfolio/script.js:75-81 | the new DOM state is `Toggle` of the old one |
| `NavDrawer.Drawer.OnLinkClick` | portfolio/script.js:84-90 | the new DOM state is `Close` of the old one |
| `NavDrawer.Drawer.OnOverlayClick` | portfolio/script.js:93-99 | registered only with an overlay; the new DOM state is `Close` of the old one |
| `NavDrawer.Drawer.OnKeyDown` | portfolio/script.js:102-108 | the new DOM state is `KeyDown` of the old one |
| `Pipeline.Wire` | server.js:143-166 | a reply reaches the client with its status, as a JSON value whose `success` is truthy exactly for an acceptance and whose `error` is the refusal's message |
| `Pipeline.JsonContentTypeDeclared` | portfolio/script.js:39 | the content type res.json writes is recognised as JSON |
| `Pipeline.RequestRoundTrip` | portfolio/script.js:27-31 | a posted submission with nonempty name, email and message is complete on the server and reads back unchanged |
| `Pipeline.ConfiguredServerMails` | server.js:98-141 | with credentials and a transport, such a submission is mailed with the message built from it |
| `Pipeline.ScriptSubmissionNeverIncomplete` | script.js:90-105 | whatever script.js posts is never answered 400 and never makes the server throw |
| `Pipeline.PortfolioSubmissionNeverIncomplete` | portfolio/script.js:16-31 | the same for the portfolio form |
| `Pipeline.BlankNameDisagreement` | script.js:85-90 | a whitespace-only name is refused by script.js but posted by the portfolio form and mailed by the server |
| `Pipeline.PortfolioReadsServer` | portfolio/script.js:35-52 | against this server the portfolio form classifies every reply as a success or an HTTP failure with the reply's status |
| `Pipeline.ScriptReadsServer` | script.js:107-113 | against this server script.js never leaves through the catch, resets exactly on acceptance and shows the server's own error message |

## Left out

- Express plumbing is not modelled: CORS, the JSON body parser, static files and `app.listen`. Neither is what Express does when the contact handler throws; the model stops at `Threw`.
- The creation of the mail transport, its options (timeouts, pool) and the `verify` callback are left out. The transport is reduced to whether it exists.
- `parseInt` of EMAIL_PORT is not modelled; its result is a parameter of `Server.FromEnvironment`.
- `PORT` and `app.listen` are left out.
- All console logging is left out; it changes no state the handlers return.
- `fetch`, `setTimeout`, `alert` and the DOM are represented by values and fields, not executed. The scheduling of `type()` is the returned delay.
- The smooth scrolling, the theme toggle and the fade-in animations of script.js are left out, since they fall outside the contact and typing core.
- `sendMessage` in script.js (`/api/message`) is left out; no server route answers it.
- A response whose `error` property is not a string, and a JSON array or object standing for `success`, are represented only by their truthiness.
- `res.text()` in the portfolio form is not modelled: its text only goes to the console. Its own failure is not modelled either.
- script.js assumes its button and its name, email, subject and message elements exist. The model assumes the same. Only the note element is optional.
- The nav handlers are registered only when the toggle and the menu both exist (`if (!navToggle || !navMenu) return;`); `NavDrawer.Drawer` models the registered case.
- `e.stopPropagation()` and `preventDefault()` are left out; they affect only event dispatch.
- JavaScript strings are UTF-16. The model uses Unicode scalar values, so for text outside the Basic Multilingual Plane its `substring` counts differently.
