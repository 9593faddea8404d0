/** The authentication and role middleware: each invocation either responds or calls `next`. */
module Auth {
  import opened Options
  import opened Http

  const UnauthorizedMessage := "Unauthorized: Please log in."
  const AccessDeniedMessage := "Access denied"

  /** `requireAuth`: 401 unless the session carries a truthy `userId`; otherwise proceed. */
  function RequireAuth(session: Option<Session>): (e: Effect)
    ensures e.nextCalled != e.response.Some?
    ensures e.nextCalled <==> Truthy(SessionUserId(session))
    ensures !e.nextCalled ==> e.response == Some(Response(401, ErrorBody(UnauthorizedMessage)))
  {
    if session.None? || !Truthy(session.value.userId) then
      Effect(Some(Response(401, ErrorBody(UnauthorizedMessage))), false)
    else
      Effect(None, true)
  }

  /** `Array.prototype.includes` on strings, scanning from the front. */
  function Includes(roles: seq<string>, role: string): (found: bool)
    ensures found <==> role in roles
  {
    if roles == [] then false
    else if roles[0] == role then true
    else Includes(roles[1..], role)
  }

  /** `restrictTo(allowedRoles)`: 403 when `userType` is missing, empty (falsy) or not allowed. */
  function RestrictTo(allowedRoles: seq<string>, session: Option<Session>): (e: Effect)
    ensures e.nextCalled != e.response.Some?
    ensures e.nextCalled <==>
      (SessionUserType(session).Some? && SessionUserType(session).value != ""
       && SessionUserType(session).value in allowedRoles)
    ensures !e.nextCalled ==> e.response == Some(Response(403, ErrorBody(AccessDeniedMessage)))
  {
    var userType := SessionUserType(session);
    if userType.None? || userType.value == "" || !Includes(allowedRoles, userType.value) then
      Effect(Some(Response(403, ErrorBody(AccessDeniedMessage))), false)
    else
      Effect(None, true)
  }
}
