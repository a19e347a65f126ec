/**
 * Double-submit CSRF protection: one token per session, echoed by forms and
 * compared with strict equality on every state-changing request.
 */
module CsrfMiddleware {
  import opened JsValues
  import opened Express

  const InvalidTokenMessage := "Invalid security token. Please refresh the page and try again."
  const FormFailedMessage := "Form validation failed. Please refresh the page and try again."
  const BadTokenCode := "EBADCSRFTOKEN"

  predicate IsHexDigit(c: char)
  {
    ('0' <= c <= '9') || ('a' <= c <= 'f')
  }

  /** What `generateToken` yields: 32 random bytes as 64 lower-case hexadecimal digits. */
  predicate IsHexToken(t: string)
  {
    |t| == 64 && forall k | 0 <= k < |t| :: IsHexDigit(t[k])
  }

  /**
   * `csrfProtection`. `generated` stands for the value `generateToken()` would return;
   * the result is what is written to `res.locals.csrfToken`. An existing token is kept.
   */
  method CsrfProtection(session: Session, generated: string) returns (localsToken: Value)
    requires IsHexToken(generated)
    modifies session`csrfToken
    ensures Truthy(old(session.csrfToken)) ==> session.csrfToken == old(session.csrfToken)
    ensures !Truthy(old(session.csrfToken)) ==> session.csrfToken == Str(generated)
    ensures Truthy(session.csrfToken)
    ensures localsToken == session.csrfToken
  {
    if !Truthy(session.csrfToken) {
      session.csrfToken := Str(generated);
    }
    localsToken := session.csrfToken;
  }

  /** The fields of a request that `verifyCsrfToken` looks at. */
  datatype CsrfRequest = CsrfRequest(
    httpMethod: string,
    bodyToken: Value,          // req.body._csrf
    csrfTokenHeader: Value,    // req.headers['csrf-token']
    xCsrfTokenHeader: Value)   // req.headers['x-csrf-token']

  predicate IsSafeMethod(m: string)
  {
    m == "GET" || m == "HEAD"
  }

  /** The submitted token: the body field first, then the `csrf-token` header, then the `x-csrf-token` header. */
  function SubmittedToken(req: CsrfRequest): (t: Value)
    ensures Truthy(req.bodyToken) ==> t == req.bodyToken
    ensures !Truthy(req.bodyToken) && Truthy(req.csrfTokenHeader) ==> t == req.csrfTokenHeader
    ensures !Truthy(req.bodyToken) && !Truthy(req.csrfTokenHeader) ==> t == req.xCsrfTokenHeader
  {
    Or(Or(req.bodyToken, req.csrfTokenHeader), req.xCsrfTokenHeader)
  }

  /**
   * `verifyCsrfToken`: GET and HEAD pass unchecked; any other method passes iff the
   * submitted token is present and strictly equal to the session's; otherwise a 403 page.
   */
  function VerifyCsrfToken(req: CsrfRequest, session: Session): (r: Reply)
    reads session
    ensures r == Next <==>
      IsSafeMethod(req.httpMethod) || (Truthy(SubmittedToken(req)) && SubmittedToken(req) == session.csrfToken)
    ensures r != Next ==> r == RenderError(403, InvalidTokenMessage)
  {
    if IsSafeMethod(req.httpMethod) then Next
    else
      var token := SubmittedToken(req);
      if !Truthy(token) || token != session.csrfToken then RenderError(403, InvalidTokenMessage)
      else Next
  }

  /** A state-changing request that carries no token is refused, even when the session has no token either. */
  lemma MissingTokenRejected(req: CsrfRequest, session: Session)
    requires !IsSafeMethod(req.httpMethod)
    requires !Truthy(req.bodyToken) && !Truthy(req.csrfTokenHeader) && !Truthy(req.xCsrfTokenHeader)
    ensures VerifyCsrfToken(req, session) == RenderError(403, InvalidTokenMessage)
  {
  }

  /** A state-changing request can only pass once the session holds a token, and then only with exactly that token. */
  lemma PassImpliesSessionToken(req: CsrfRequest, session: Session)
    requires !IsSafeMethod(req.httpMethod) && VerifyCsrfToken(req, session) == Next
    ensures Truthy(session.csrfToken)
    ensures SubmittedToken(req) == session.csrfToken
  {
  }

  /** The body field shadows the headers: a wrong body token is refused even when a header carries the right one. */
  lemma BodyTokenShadowsHeaders(req: CsrfRequest, session: Session)
    requires !IsSafeMethod(req.httpMethod)
    requires Truthy(req.bodyToken) && req.bodyToken != session.csrfToken
    ensures VerifyCsrfToken(req, session) == RenderError(403, InvalidTokenMessage)
  {
  }

  /** A form that echoes the token `csrfProtection` put in the page is accepted, whatever its method. */
  lemma EchoedTokenAccepted(req: CsrfRequest, session: Session)
    requires Truthy(session.csrfToken) && req.bodyToken == session.csrfToken
    ensures VerifyCsrfToken(req, session) == Next
  {
  }

  /** `handleCsrfError`: only an error whose code is exactly 'EBADCSRFTOKEN' becomes a 403 page; any other is forwarded unchanged. */
  function HandleCsrfError(err: Error): (r: Reply)
    ensures err.code == Str(BadTokenCode) ==> r == RenderError(403, FormFailedMessage)
    ensures err.code != Str(BadTokenCode) ==> r == NextError(err)
  {
    if err.code == Str(BadTokenCode) then RenderError(403, FormFailedMessage) else NextError(err)
  }
}
