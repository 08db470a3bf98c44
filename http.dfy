/** What travels between the browser and the server: the contact submission the
    clients send, and what a client's fetch of /api/contact can come back with. */
module Http {
  import opened JsRuntime

  /** The JSON body the clients post: the four form fields, in this order. */
  datatype Submission = Submission(name: string, email: string, subject: string, message: string)

  /** The body of a response, as res.json() sees it. JsonValue stands for any
      parsed value other than null; `success` and `error` are its properties
      (both absent when the value is not an object). An `error` that is not a
      string is not represented. */
  datatype Body =
    | Unparsable
    | JsonNull
    | JsonValue(success: Option<Json>, error: Option<string>)

  /** The settled fetch: either it rejected (the request never completed), or a
      response arrived with a status, an optional Content-Type header and a body. */
  datatype FetchOutcome =
    | NetworkFailure
    | Response(status: nat, contentType: Option<string>, body: Body)

  /** Response.ok: the status is in the range 200 to 299. */
  predicate Ok(status: nat) {
    200 <= status <= 299
  }

  /** `data.error || fallback` for a parsed body. */
  function ErrorOr(error: Option<string>, fallback: string): string {
    if error.Some? && error.value != "" then error.value else fallback
  }
}
