/** The scouting form (`src/components/ScoutingForm.tsx`): four reef-level counters that never
    go below zero, the climb choice, free-text notes, and the submission built from them. */
module ScoutingForm {
  import opened Wrappers
  import opened Types
  import opened Text
  import MatchList

  /** `notes.trim() || undefined`: the trimmed notes, or nothing when they are blank. */
  function SubmittedNotes(notes: string): (r: Option<string>)
    ensures r.None? <==> AllWhitespace(notes)
    ensures r.Some? ==> r.value == Trim(notes) && r.value != []
    ensures r.Some? ==> !IsWhitespace(r.value[0]) && !IsWhitespace(r.value[|r.value| - 1])
  {
    TrimEmptyIff(notes);
    var t := Trim(notes);
    if t == [] then None else Some(t)
  }

  class Form {
    const game: Match
    const user: User
    var l1Count: int
    var l2Count: int
    var l3Count: int
    var l4Count: int
    var climbStatus: ClimbStatus
    var notes: string

    /** No counter is ever negative. */
    predicate Valid()
      reads this
    {
      l1Count >= 0 && l2Count >= 0 && l3Count >= 0 && l4Count >= 0
    }

    function Count(level: Level): int
      reads this
    {
      match level
      case L1 => l1Count
      case L2 => l2Count
      case L3 => l3Count
      case L4 => l4Count
    }

    /** The minus button of a counter is disabled at zero (or below). */
    predicate DecrementDisabled(level: Level)
      reads this
    {
      Count(level) <= 0
    }

    /** A fresh form: counters at zero, no climb, no notes. */
    constructor (game: Match, user: User)
      ensures this.game == game && this.user == user && Valid()
      ensures forall level :: Count(level) == 0
      ensures climbStatus == NoClimb && notes == ""
    {
      this.game, this.user := game, user;
      l1Count, l2Count, l3Count, l4Count := 0, 0, 0, 0;
      climbStatus, notes := NoClimb, "";
    }

    /** The plus button: one more, no other counter moves. */
    method Increment(level: Level)
      requires Valid()
      modifies this
      ensures Valid()
      ensures Count(level) == old(Count(level)) + 1
      ensures forall other :: other != level ==> Count(other) == old(Count(other))
      ensures climbStatus == old(climbStatus) && notes == old(notes)
    {
      match level
      case L1 => l1Count := l1Count + 1;
      case L2 => l2Count := l2Count + 1;
      case L3 => l3Count := l3Count + 1;
      case L4 => l4Count := l4Count + 1;
    }

    /** The minus button, `Math.max(0, count - 1)`: one less, but never below zero. */
    method Decrement(level: Level)
      requires Valid()
      modifies this
      ensures Valid()
      ensures Count(level) == if old(Count(level)) > 0 then old(Count(level)) - 1 else 0
      ensures old(DecrementDisabled(level)) ==> Count(level) == old(Count(level))
      ensures forall other :: other != level ==> Count(other) == old(Count(other))
      ensures climbStatus == old(climbStatus) && notes == old(notes)
    {
      match level
      case L1 => l1Count := Max0(l1Count - 1);
      case L2 => l2Count := Max0(l2Count - 1);
      case L3 => l3Count := Max0(l3Count - 1);
      case L4 => l4Count := Max0(l4Count - 1);
    }

    /** Choosing a climb option or editing the notes. */
    method SetClimbStatus(c: ClimbStatus)
      modifies this
      ensures climbStatus == c && notes == old(notes)
      ensures forall level :: Count(level) == old(Count(level))
    {
      climbStatus := c;
    }

    method SetNotes(text: string)
      modifies this
      ensures notes == text && climbStatus == old(climbStatus)
      ensures forall level :: Count(level) == old(Count(level))
    {
      notes := text;
    }

    /** `handleSubmit`: the submission for this match, for the team at the user's position, with
        the counters, the climb and the trimmed notes. */
    method HandleSubmit() returns (data: Submission)
      requires Valid()
      ensures data.matchNumber == game.matchNumber
      ensures data.teamNumber == MatchList.TeamForUser(game, user)
      ensures data.scouterUsername == user.username
      ensures data.l1Count == l1Count && data.l2Count == l2Count
      ensures data.l3Count == l3Count && data.l4Count == l4Count
      ensures data.climbStatus == climbStatus && data.notes == SubmittedNotes(notes)
    {
      var teams := if user.assignedAlliance == Red then game.redTeams else game.blueTeams;
      data := Submission(game.matchNumber, teams[user.assignedPosition - 1], user.username,
                         l1Count, l2Count, l3Count, l4Count, climbStatus, SubmittedNotes(notes));
    }
  }

  /** `Math.max(0, x)`. */
  function Max0(x: int): (r: int)
    ensures r >= 0 && r >= x && (r == 0 || r == x)
  {
    if x > 0 then x else 0
  }
}
