/** What the Express middlewares and handlers read from a request and the two ways
    they end: calling `next()` or answering with a status code and an error code. */
module Http {
  import opened Wrappers

  datatype Request = Request(
    ip: Option<string>,         // req.ip
    httpMethod: string,         // req.method
    path: string,               // req.path
    url: string,                // req.url
    userAgent: Option<string>)  // req.get('User-Agent')

  /** `req.ip || 'unknown'`: an absent or empty address counts as unknown. */
  function ClientIp(req: Request): (ip: string)
    ensures req.ip.Some? && req.ip.value != "" ==> ip == req.ip.value
    ensures ip != ""
  {
    if req.ip.Some? && req.ip.value != "" then req.ip.value else "unknown"
  }

  /** `s || fallback` for an optional header value. */
  function OrElse(s: Option<string>, fallback: string): string {
    if s.Some? && s.value != "" then s.value else fallback
  }

  datatype Reply =
    | Next                                   // next() was called
    | Respond(status: int, error: string)    // res.status(status).json({ error, ... })
}
