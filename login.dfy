/** The login form (`src/components/Login.tsx`): the blank-name guard, the admin account, the
    roster assignment that overrides the form, and the manual choice of alliance and position. */
module Login {
  import opened Wrappers
  import opened Types
  import opened Text
  import opened Application

  /** The user `handleSubmit` signs in, or `None` when the trimmed name is empty. The admin name
      gets team 0, red, position 1; a name on the roster gets its roster placement; any other name
      gets the form's team, alliance and position. */
  function LoginDecision(username: string, team: int, alliance: Alliance, position: Position,
                         roster: seq<AdminScouter>): (r: Option<User>)
    ensures r.None? <==> AllWhitespace(username)
    ensures r.Some? ==> r.value.username == Trim(username)
    ensures r.Some? && Trim(username) == AdminUsername ==> r.value == User(AdminUsername, 0, Red, 1)
    ensures r.Some? && Trim(username) != AdminUsername && FindByName(roster, Trim(username)).Some? ==>
      var i := FindByName(roster, Trim(username)).value;
      r.value == User(Trim(username), 0, roster[i].assignedAlliance, roster[i].assignedPosition)
    ensures r.Some? && Trim(username) != AdminUsername && FindByName(roster, Trim(username)).None? ==>
      r.value == User(Trim(username), team, alliance, position)
  {
    TrimEmptyIff(username);
    var name := Trim(username);
    if name == [] then None
    else if name == AdminUsername then Some(User(name, 0, Red, 1))
    else
      match UserAssignment(roster, name)
      case Some(fromRoster) => Some(fromRoster)
      case None => Some(User(name, team, alliance, position))
  }

  /** The application's admin flag is set exactly when the trimmed name is the admin name. */
  lemma AdminFlagIffAdminName(username: string, team: int, alliance: Alliance, position: Position,
                              roster: seq<AdminScouter>)
    requires LoginDecision(username, team, alliance, position, roster).Some?
    ensures LoginDecision(username, team, alliance, position, roster).value.username == AdminUsername
      <==> Trim(username) == AdminUsername
  {
  }

  /** Surrounding whitespace never changes who signs in. */
  lemma LoginIgnoresSurroundingWhitespace(username: string, team: int, alliance: Alliance,
                                          position: Position, roster: seq<AdminScouter>)
    ensures LoginDecision(Trim(username), team, alliance, position, roster)
      == LoginDecision(username, team, alliance, position, roster)
  {
    TrimIdempotent(username);
  }

  class LoginForm {
    var username: string
    var assignedTeam: int
    var assignedAlliance: Alliance
    var assignedPosition: Position
    var isAdminAssigned: bool

    /** The form's initial state: no name, team 1 (no control changes it), red, position 1. */
    constructor ()
      ensures username == "" && assignedTeam == 1 && assignedAlliance == Red
      ensures assignedPosition == 1 && !isAdminAssigned
    {
      username, assignedTeam, assignedAlliance := "", 1, Red;
      assignedPosition, isAdminAssigned := 1, false;
    }

    /** Typing a name: it is stored as typed and looked up, untrimmed, in the roster; a match
        copies its alliance and position into the form, no match leaves them as they were. */
    method ChangeUsername(name: string, roster: seq<AdminScouter>)
      modifies this
      ensures username == name && assignedTeam == old(assignedTeam)
      ensures isAdminAssigned <==> UserAssignment(roster, name).Some?
      ensures isAdminAssigned ==>
        var i := FindByName(roster, name).value;
        assignedAlliance == roster[i].assignedAlliance && assignedPosition == roster[i].assignedPosition
      ensures !isAdminAssigned ==>
        assignedAlliance == old(assignedAlliance) && assignedPosition == old(assignedPosition)
    {
      username := name;
      var assignment := UserAssignment(roster, name);
      isAdminAssigned := assignment.Some?;
      if assignment.Some? {
        assignedAlliance := assignment.value.assignedAlliance;
        assignedPosition := assignment.value.assignedPosition;
      }
    }

    /** Choosing an alliance or position in the manual controls. */
    method ChoosePlacement(alliance: Alliance, position: Position)
      modifies this
      ensures assignedAlliance == alliance && assignedPosition == position
      ensures username == old(username) && assignedTeam == old(assignedTeam)
      ensures isAdminAssigned == old(isAdminAssigned)
    {
      assignedAlliance, assignedPosition := alliance, position;
    }

    /** `handleSubmit`: the user handed to the application, if any. */
    method HandleSubmit(roster: seq<AdminScouter>) returns (login: Option<User>)
      ensures login == LoginDecision(username, assignedTeam, assignedAlliance, assignedPosition, roster)
    {
      login := LoginDecision(username, assignedTeam, assignedAlliance, assignedPosition, roster);
    }
  }
}
