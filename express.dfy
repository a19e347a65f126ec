/**
 * The two pieces of the web framework every middleware touches: the per-visitor
 * session object (`req.session`) and the way a middleware answers a request.
 */
module Express {
  import opened JsValues

  /**
   * `req.session`. Its fields are written by the login handlers (not modelled), by the
   * CSRF middleware (`csrfToken`) and by the validation handler (`error`).
   */
  class Session {
    var userId: Value
    var userName: Value
    var userEmail: Value
    var role: Value
    var csrfToken: Value
    var error: Value

    /** A session as the login handler leaves it; no CSRF token and no pending error yet. */
    constructor (userId: Value, userName: Value, userEmail: Value, role: Value)
      ensures this.userId == userId && this.userName == userName
      ensures this.userEmail == userEmail && this.role == role
      ensures csrfToken == Undefined && error == Undefined
    {
      this.userId := userId;
      this.userName := userName;
      this.userEmail := userEmail;
      this.role := role;
      csrfToken := Undefined;
      error := Undefined;
    }
  }

  /** An error object passed along the middleware chain; only `code` is ever inspected. */
  datatype Error = Error(code: Value, message: string)

  /** How a middleware finishes: hand over to the next one, or answer the request itself. */
  datatype Reply =
    | Next                                            // next()
    | NextError(err: Error)                           // next(err)
    | Redirect(url: string)                           // res.redirect(url)
    | Send(status: nat, body: string)                 // res.status(s).send(body)
    | RenderError(status: nat, message: string)       // res.status(s).render('error', { message, ... })
}
