/** The two route guards: signed-in users, and signed-in users whose role is exactly 'admin'. */
module AuthMiddleware {
  import opened JsValues
  import opened Express

  const LoginUrl := "/login"
  const AdminOnly := "Access denied. Admin only."

  /** `isAuthenticated`: passes a request on iff it carries a session with a truthy `userId`; otherwise sends it to the login page. */
  function IsAuthenticated(s: Session?): (r: Reply)
    reads s
    ensures r == Next <==> s != null && Truthy(s.userId)
    ensures r != Next ==> r == Redirect(LoginUrl)
  {
    if s != null && Truthy(s.userId) then Next else Redirect(LoginUrl)
  }

  /** `isAdmin`: passes a request on iff its session has a truthy `userId` and a role equal to 'admin'; otherwise a 403. */
  function IsAdmin(s: Session?): (r: Reply)
    reads s
    ensures r == Next <==> s != null && Truthy(s.userId) && s.role == Str("admin")
    ensures r != Next ==> r == Send(403, AdminOnly)
  {
    if s != null && Truthy(s.userId) && s.role == Str("admin") then Next else Send(403, AdminOnly)
  }

  /** Every request the admin guard lets through, the sign-in guard lets through too. */
  lemma AdminImpliesAuthenticated(s: Session?)
    ensures IsAdmin(s) == Next ==> IsAuthenticated(s) == Next
  {
  }

  /** The check is an exact comparison with 'admin': a 'super_admin' role, or a role of any other spelling, is refused. */
  lemma OnlyExactAdminRole(s: Session?)
    requires s != null && s.role != Str("admin")
    ensures IsAdmin(s) == Send(403, AdminOnly)
  {
  }
}
