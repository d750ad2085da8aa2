/** The match list (`src/components/MatchList.tsx`): which team of each match the signed-in
    scouter watches, which team chip is highlighted, and which matches are marked completed. */
module MatchList {
  import opened Types
  import Application

  /** `getTeamForUser`: the team at the user's position on the user's alliance. */
  function TeamForUser(m: Match, u: User): (t: int)
    ensures t in TeamsOf(m, u.assignedAlliance)
  {
    TeamsOf(m, u.assignedAlliance)[u.assignedPosition - 1]
  }

  /** Whether the chip at index `idx` of alliance `chip` is drawn highlighted. */
  predicate Highlighted(u: User, chip: Alliance, idx: int) {
    u.assignedAlliance == chip && idx == u.assignedPosition - 1
  }

  /** Exactly one of the six team chips of a match is highlighted, and it shows the team the
      user scouts. */
  lemma HighlightedChipIsTeamForUser(m: Match, u: User, chip: Alliance, idx: int)
    requires 0 <= idx < 3
    ensures Highlighted(u, chip, idx) ==>
              forall c: Alliance, k :: Highlighted(u, c, k) ==> c == chip && k == idx
    ensures Highlighted(u, chip, idx) ==> TeamsOf(m, chip)[idx] == TeamForUser(m, u)
    ensures exists c: Alliance, k :: 0 <= k < 3 && Highlighted(u, c, k)
  {
    assert Highlighted(u, u.assignedAlliance, u.assignedPosition - 1);
  }

  /** What a match card shows: its number, the team to scout and the completed mark. */
  datatype MatchCard = MatchCard(matchNumber: int, teamToScout: int, completed: bool)

  /** `matches.map(...)`: one card per match, in list order; a match is completed when its
      number is among the scouted match numbers. */
  function MatchCards(matches: seq<Match>, u: User, scoutedMatches: seq<int>): (r: seq<MatchCard>)
    ensures |r| == |matches|
    ensures forall i :: 0 <= i < |r| ==>
      r[i].matchNumber == matches[i].matchNumber && r[i].teamToScout == TeamForUser(matches[i], u)
      && (r[i].completed <==> matches[i].matchNumber in scoutedMatches)
  {
    seq(|matches|, i requires 0 <= i < |matches| =>
      MatchCard(matches[i].matchNumber, TeamForUser(matches[i], u), matches[i].matchNumber in scoutedMatches))
  }

  /** With the application's scouted-match list, a card is completed exactly when some stored
      entry, synced or not and by any scouter, has the card's match number. */
  lemma CardCompletedIffScouted(matches: seq<Match>, u: User, data: seq<ScoutingData>, i: int)
    requires 0 <= i < |matches|
    ensures MatchCards(matches, u, Application.ScoutedMatches(data))[i].completed
      <==> exists j :: 0 <= j < |data| && data[j].matchNumber == matches[i].matchNumber
  {
  }
}
