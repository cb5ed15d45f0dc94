/** The `PUT` route that sets a project's winner flag: badge admins only,
    two required body fields, and the service's outcome as 200 or 500. */
module SetWinnerRoute {
  import opened Wrappers
  import opened Json
  import opened ProtectedRoute
  import opened SetProjectWinner

  /** The role the route requires. */
  const Role: string := "badge_admin"

  /** The handler's reply: the service result with status 200, or an error. */
  datatype WinnerReply = WinnerReply(status: int, success: bool, error: string, result: Option<WinnerResult>)

  /** What the request gets: the guard's answer, or the handler's. */
  datatype RouteReply = Guarded(response: Response) | Handled(reply: WinnerReply)

  /** `session?.user.name || "user"`. */
  function AwarderName(sessionName: Option<string>): (r: string)
    ensures r != ""
    ensures sessionName.Some? && sessionName.value != "" ==> r == sessionName.value
  {
    if sessionName.Some? && sessionName.value != "" then sessionName.value else "user"
  }


  /** The two body checks, in order. Reading a property of a `null` body
      throws inside the `try`, and the `catch` answers 500. */
  function BodyCheck(body: Json): (r: Option<WinnerReply>)
    ensures Nullish(body) ==> r == Some(WinnerReply(500, false, ReadPropertyError(body, "project_id"), None))
    ensures !Nullish(body) && !Truthy(Get(FieldsOf(body), "project_id")) ==> r == Some(WinnerReply(400, false, "project_id parameter is required", None))
    ensures !Nullish(body) && Truthy(Get(FieldsOf(body), "project_id")) ==>
      (r.Some? <==> Get(FieldsOf(body), "isWinner") == JUndefined) &&
      (r.Some? ==> r.value.status == 400 && r.value.error == "isWinner parameter is required")
  {
    var fields := FieldsOf(body);
    if Nullish(body) then Some(WinnerReply(500, false, ReadPropertyError(body, "project_id"), None))
    else if !Truthy(Get(fields, "project_id")) then Some(WinnerReply(400, false, "project_id parameter is required", None))
    else if Get(fields, "isWinner") == JUndefined then Some(WinnerReply(400, false, "isWinner parameter is required", None))
    else None
  }

  /** The properties of the parsed body; a body that is not an object has
      none. */
  function FieldsOf(body: Json): map<string, Json> {
    if body.JObj? then body.fields else map[]
  }

  /** The service's answer as the route sends it. */
  function Answer(r: Result<WinnerResult, string>): (w: WinnerReply)
    ensures r.Ok? ==> w == WinnerReply(200, r.value.success, "", Some(r.value))
    ensures r.Err? ==> w == WinnerReply(500, false, r.error, None)
  {
    if r.Ok? then WinnerReply(200, r.value.success, "", Some(r.value)) else WinnerReply(500, false, r.error, None)
  }

  /** The whole request: the reply, the new project table and the badge
      request. A project id that is not a string is rejected by the
      database, which throws. */
  function HandlePut(projects: map<string, ProjectRow>, session: Option<Session>, sessionName: Option<string>, body: Json,
                     assign: BadgeRequest -> WinnerResult): (RouteReply, map<string, ProjectRow>, Option<BadgeRequest>)
  {
    match WithAuthRole(Role, session)
    case Err(response) => (Guarded(response), projects, None)
    case Ok(_) =>
      var check := BodyCheck(body);
      if check.Some? then (Handled(check.value), projects, None)
      else
        var id := Get(FieldsOf(body), "project_id");
        if !id.JStr? then (Handled(WinnerReply(500, false, "Invalid value for id", None)), projects, None)
        else
          var (projects', r, request) := Outcome(projects, id.s, Get(FieldsOf(body), "isWinner"), AwarderName(sessionName), assign);
          (Handled(Answer(r)), projects', request)
  }

  /** The guards come first: without a session the answer is 401 and
      without the role 403, and neither touches a project. */
  lemma GuardsFirst(projects: map<string, ProjectRow>, session: Option<Session>, sessionName: Option<string>, body: Json,
                    assign: BadgeRequest -> WinnerResult)
    ensures var (reply, projects', request) := HandlePut(projects, session, sessionName, body, assign);
      (session.None? ==> reply == Guarded(Unauthorized())) &&
      (session.Some? && !HasRole(session.value, Role) ==> reply.Guarded? && reply.response.status == 403) &&
      (reply.Guarded? ==> projects' == projects && request.None?)
  {
    var g := WithAuthRole(Role, session);
    if g.Err? {
      assert HandlePut(projects, session, sessionName, body, assign) == (Guarded(g.error), projects, None);
    } else {
      PassedGuardIsHandled(projects, session, sessionName, body, assign);
    }
  }

  lemma PassedGuardIsHandled(projects: map<string, ProjectRow>, session: Option<Session>, sessionName: Option<string>, body: Json,
                             assign: BadgeRequest -> WinnerResult)
    requires WithAuthRole(Role, session).Ok?
    ensures HandlePut(projects, session, sessionName, body, assign).0.Handled?
  {
  }

  /** A body (other than `null`) without `project_id`, or without
      `isWinner`, is answered with 400 and the service is not called. */
  lemma MissingFields(projects: map<string, ProjectRow>, session: Session, sessionName: Option<string>, body: Json,
                      assign: BadgeRequest -> WinnerResult)
    requires HasRole(session, Role)
    requires !Nullish(body)
    requires !Truthy(Get(FieldsOf(body), "project_id")) || Get(FieldsOf(body), "isWinner") == JUndefined
    ensures var (reply, projects', request) := HandlePut(projects, Some(session), sessionName, body, assign);
      reply.Handled? && reply.reply.status == 400 && !reply.reply.success && projects' == projects && request.None?
  {
  }

  /** A `null` body passes the guards but makes the handler throw: 500,
      and the service is not called. */
  lemma NullBodyFails(projects: map<string, ProjectRow>, session: Session, sessionName: Option<string>,
                      assign: BadgeRequest -> WinnerResult)
    requires HasRole(session, Role)
    ensures var (reply, projects', request) := HandlePut(projects, Some(session), sessionName, JNull, assign);
      reply.Handled? && reply.reply.status == 500 && !reply.reply.success && projects' == projects && request.None?
  {
  }

  /** A valid request reaches the service with the session's name, or
      `"user"`, as the awarder: a thrown error becomes 500, anything else
      200 with the service's result. */
  lemma ServiceOutcome(projects: map<string, ProjectRow>, session: Session, sessionName: Option<string>, id: string, body: Json,
                       assign: BadgeRequest -> WinnerResult)
    requires HasRole(session, Role)
    requires Get(FieldsOf(body), "project_id") == JStr(id) && id != "" && Get(FieldsOf(body), "isWinner") != JUndefined
    ensures var (reply, projects', request) := HandlePut(projects, Some(session), sessionName, body, assign);
      var (p1, r, b1) := Outcome(projects, id, Get(FieldsOf(body), "isWinner"), AwarderName(sessionName), assign);
      reply == Handled(Answer(r)) && projects' == p1 && request == b1 &&
      (request.Some? ==> request.value.awardedBy == AwarderName(sessionName)) &&
      (reply.reply.status == 200 <==> r.Ok?) && (reply.reply.status == 500 <==> r.Err?)
  {
    OutcomeCases(projects, id, Get(FieldsOf(body), "isWinner"), AwarderName(sessionName), assign);
  }

  /** `PUT`, on the project table. */
  method Put(store: ProjectStore, session: Option<Session>, sessionName: Option<string>, body: Json,
             assign: BadgeRequest -> WinnerResult) returns (reply: RouteReply, request: Option<BadgeRequest>)
    modifies store
    ensures (reply, store.projects, request) == HandlePut(old(store.projects), session, sessionName, body, assign)
  {
    request := None;
    var guard := WithAuthRole(Role, session);
    if guard.Err? {
      return Guarded(guard.error), request;
    }
    var name := AwarderName(sessionName);
    var check := BodyCheck(body);
    if check.Some? {
      return Handled(check.value), request;
    }
    var id := Get(FieldsOf(body), "project_id");
    if !id.JStr? {
      return Handled(WinnerReply(500, false, "Invalid value for id", None)), request;
    }
    var r;
    r, request := store.SetWinner(id.s, Get(FieldsOf(body), "isWinner"), name, assign);
    reply := Handled(Answer(r));
  }
}
