/** JSON responses of the route handlers, and the two guards that wrap
    them: one requiring a session, one requiring a session whose custom
    attributes hold a role. */
module ProtectedRoute {
  import opened Wrappers
  import opened Json

  /** A `NextResponse.json(body, { status })`. */
  datatype Response = Response(status: int, body: map<string, Json>)

  function ErrorResponse(status: int, message: string): Response {
    Response(status, map["error" := JStr(message)])
  }

  /** The fields of a session the handlers read. */
  datatype Session = Session(userId: Option<string>, customAttributes: Option<seq<string>>)

  const AuthRequired: string := "Authentication required. Please log in to access this resource."

  function Unauthorized(): Response {
    Response(401, map["error" := JStr("Unauthorized"), "message" := JStr(AuthRequired)])
  }

  function Forbidden(role: string): Response {
    Response(403, map[
      "error" := JStr("Forbidden"),
      "message" := JStr("Access denied. This action requires the '" + role + "' role."),
      "requiredRole" := JStr(role)])
  }

  /** `withAuth`: `Ok(session)` when the wrapped handler runs with that
      session, `Err(response)` when the wrapper answers instead. */
  function WithAuth(session: Option<Session>): (r: Result<Session, Response>)
    ensures r.Ok? <==> session.Some?
    ensures r.Ok? ==> r.value == session.value
    ensures r.Err? ==> r.error.status == 401
  {
    if session.None? then Err(Unauthorized()) else Ok(session.value)
  }

  /** `custom_attributes?.includes(role) ?? false`. */
  predicate HasRole(s: Session, role: string) {
    s.customAttributes.Some? && role in s.customAttributes.value
  }

  /** `withAuthRole`. */
  function WithAuthRole(role: string, session: Option<Session>): (r: Result<Session, Response>)
    ensures r.Ok? <==> session.Some? && HasRole(session.value, role)
    ensures r.Ok? ==> r.value == session.value
    ensures session.None? ==> r == Err(Unauthorized())
    ensures session.Some? && !HasRole(session.value, role) ==>
      r.Err? && r.error.status == 403 && "requiredRole" in r.error.body && r.error.body["requiredRole"] == JStr(role)
  {
    if session.None? then Err(Unauthorized())
    else if !HasRole(session.value, role) then Err(Forbidden(role))
    else Ok(session.value)
  }

  /** The role guard passes only where the session guard passes, and it
      answers 401, never 403, without a session. */
  lemma RoleGuardRefinesAuth(role: string, session: Option<Session>)
    ensures WithAuthRole(role, session).Ok? ==> WithAuth(session) == WithAuthRole(role, session)
    ensures WithAuth(session).Err? ==> WithAuthRole(role, session) == WithAuth(session)
  {
  }

  /** Missing custom attributes never hold a role. */
  lemma NoAttributesNoRole(role: string, userId: Option<string>)
    ensures WithAuthRole(role, Some(Session(userId, None))) == Err(Forbidden(role))
  {
  }

  /** `!session.user.id`: no id, or the empty one. */
  predicate MissingUserId(s: Session) {
    s.userId.None? || s.userId.value == ""
  }
}
