/** Request and response shapes shared by the route handlers. */
module Http {
  import opened Wrappers
  import opened JsString

  /** A JSON answer: the body on success, or an HTTP status with the `error` message. */
  datatype Reply<+T> = Ok(body: T) | Fail(status: nat, error: string)

  /** What a call into a library gives: its value, or the message of what it threw. */
  datatype Attempt<+T> = Done(value: T) | Threw(message: string)

  /** `req.headers['x-forwarded-for'] || req.socket.remoteAddress`: the
      forwarded-for header when it is present and not empty, otherwise the
      socket's remote address (which may itself be `undefined`). */
  function ClientAddress(forwardedFor: Option<string>, remoteAddress: Option<string>): (r: Option<string>)
    ensures TruthyString(forwardedFor) ==> r == forwardedFor
    ensures !TruthyString(forwardedFor) ==> r == remoteAddress
  {
    if TruthyString(forwardedFor) then forwardedFor else remoteAddress
  }
}
