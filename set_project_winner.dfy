/** Marking a project as a winner (or not), and awarding the project badge
    when it wins. The badge service is a function supplied by the caller. */
module SetProjectWinner {
  import opened Wrappers
  import opened Json

  /** The columns of a project row the service reads and writes. */
  datatype ProjectRow = ProjectRow(isWinner: Json, hackathonId: Option<string>)

  /** The body sent to the badge service. */
  datatype BadgeRequest = BadgeRequest(projectId: string, userId: string, hackathonId: Option<string>, awardedBy: string, category: string)

  /** An `AssignBadgeResult`, with `alreadyWinner` when it is set. */
  datatype WinnerResult = WinnerResult(success: bool, message: string, alreadyWinner: bool, badgeId: string, userId: string, badges: seq<Json>)

  const AlreadyWinner: WinnerResult :=
    WinnerResult(false, "Project is already set as winner", true, "", "", [])

  const Updated: WinnerResult :=
    WinnerResult(true, "Project winner status updated successfully", false, "", "", [])

  /** The badge request for a winning project. */
  function RequestFor(projectId: string, row: ProjectRow, awardedBy: string): (b: BadgeRequest)
    ensures b.projectId == projectId && b.userId == "" && b.awardedBy == awardedBy && b.category == "project"
  {
    BadgeRequest(projectId, "", row.hackathonId, awardedBy, "project")
  }

  /** The project table. */
  class ProjectStore {
    var projects: map<string, ProjectRow>

    constructor(projects: map<string, ProjectRow>)
      ensures this.projects == projects
    {
      this.projects := projects;
    }

    /** `SetWinner`. `isWinner` is whatever the caller sent: the database
        rejects a value that is not a boolean, which throws. The badge
        request issued, if any, is returned beside the result. */
    method SetWinner(projectId: string, isWinner: Json, awardedBy: string, assign: BadgeRequest -> WinnerResult)
      returns (r: Result<WinnerResult, string>, request: Option<BadgeRequest>)
      modifies this
      ensures (projects, r, request) == Outcome(old(projects), projectId, isWinner, awardedBy, assign)
    {
      request := None;
      if projectId !in projects {
        return Err("Project not found"), request;
      }
      var existing := projects[projectId];
      if existing.isWinner == JBool(true) && isWinner == JBool(true) {
        return Ok(AlreadyWinner), request;
      }
      if !isWinner.JBool? {
        return Err("Invalid value for is_winner"), request;
      }
      projects := projects[projectId := existing.(isWinner := isWinner)];
      var result := Updated;
      if isWinner == JBool(true) {
        request := Some(RequestFor(projectId, existing, awardedBy));
        var badge := assign(request.value);
        result := badge.(success := true);
      }
      r := Ok(result);
    }
  }

  /** The outcome of `SetWinner` on a table, as a value: the new table, the
      result and the badge request. */
  function Outcome(projects: map<string, ProjectRow>, projectId: string, isWinner: Json, awardedBy: string,
                   assign: BadgeRequest -> WinnerResult): (map<string, ProjectRow>, Result<WinnerResult, string>, Option<BadgeRequest>)
  {
    if projectId !in projects then (projects, Err("Project not found"), None)
    else
      var existing := projects[projectId];
      if existing.isWinner == JBool(true) && isWinner == JBool(true) then (projects, Ok(AlreadyWinner), None)
      else if !isWinner.JBool? then (projects, Err("Invalid value for is_winner"), None)
      else
        var projects' := projects[projectId := existing.(isWinner := isWinner)];
        if isWinner.b then
          var request := RequestFor(projectId, existing, awardedBy);
          (projects', Ok(assign(request).(success := true)), Some(request))
        else (projects', Ok(Updated), None)
  }

  /** An unknown project fails with no write; a project already a winner
      asked to win again is not written and reports it; otherwise the flag
      takes the requested value, the call succeeds, and a badge is requested
      exactly when the project is set as a winner. A value that is not a
      boolean fails without a write. */
  lemma OutcomeCases(projects: map<string, ProjectRow>, projectId: string, isWinner: Json, awardedBy: string,
                     assign: BadgeRequest -> WinnerResult)
    ensures var (p1, r, request) := Outcome(projects, projectId, isWinner, awardedBy, assign);
      (projectId !in projects ==> r == Err("Project not found") && request.None? && p1 == projects) &&
      (projectId in projects && projects[projectId].isWinner == JBool(true) && isWinner == JBool(true) ==>
        r == Ok(AlreadyWinner) && request.None? && p1 == projects) &&
      (projectId in projects && !(projects[projectId].isWinner == JBool(true) && isWinner == JBool(true)) && isWinner.JBool? ==>
        p1 == projects[projectId := projects[projectId].(isWinner := isWinner)] && r.Ok? && r.value.success &&
        (request.Some? <==> isWinner.b) &&
        (isWinner.b ==> request == Some(RequestFor(projectId, projects[projectId], awardedBy)) &&
                        r.value == assign(request.value).(success := true))) &&
      (!isWinner.JBool? ==> r.Err? && request.None? && p1 == projects)
  {
  }

  /** Setting a winner twice awards the badge once: the second call finds
      the project a winner, changes nothing and reports it. */
  lemma WinnerTwiceAwardsOnce(projects: map<string, ProjectRow>, projectId: string, awardedBy: string,
                              assign: BadgeRequest -> WinnerResult)
    requires projectId in projects
    ensures var (p1, r1, b1) := Outcome(projects, projectId, JBool(true), awardedBy, assign);
      var (p2, r2, b2) := Outcome(p1, projectId, JBool(true), awardedBy, assign);
      p1[projectId].isWinner == JBool(true) && p2 == p1 && r2 == Ok(AlreadyWinner) && b2.None? &&
      (projects[projectId].isWinner != JBool(true) ==> b1.Some? && r1.Ok? && r1.value.success)
  {
  }

  /** Clearing the winner flag never issues a badge and always succeeds on
      a known project; every successful call leaves the flag equal to the
      request. */
  lemma ClearingAndSetting(projects: map<string, ProjectRow>, projectId: string, b: bool, awardedBy: string,
                           assign: BadgeRequest -> WinnerResult)
    requires projectId in projects
    ensures var (p1, r1, b1) := Outcome(projects, projectId, JBool(b), awardedBy, assign);
      p1[projectId].isWinner == JBool(b) &&
      (!b ==> r1 == Ok(Updated) && b1.None?) &&
      (r1.Ok? && !r1.value.success <==> b && projects[projectId].isWinner == JBool(true)) &&
      (forall q :: q in projects && q != projectId ==> q in p1 && p1[q] == projects[q])
  {
  }
}
