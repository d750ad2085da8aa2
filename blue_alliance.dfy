/** The Blue Alliance conversions (`src/utils/blueAlliance.ts`) over records already fetched:
    event search, the qualification-match list, and the rank carried by a team's event status.
    A fetch that fails, answers with an error status or throws is `None`. */
module BlueAlliance {
  import opened Wrappers
  import opened Types
  import opened Text
  import Seqs
  import Sorting

  /** An event record as the events endpoint returns it (the fields the client reads). */
  datatype RawEvent = RawEvent(key: string, name: string, eventCode: string, year: int,
                               startDate: string, endDate: string)

  /** The search term occurs, ignoring case, in the event's name or its event code. */
  predicate MatchesTerm(e: RawEvent, term: string) {
    Contains(ToLower(e.name), ToLower(term)) || Contains(ToLower(e.eventCode), ToLower(term))
  }

  function ToCompetition(e: RawEvent): (c: Competition)
    ensures c.key == e.key && c.name == e.name && c.eventCode == e.eventCode
    ensures c.year == e.year && c.startDate == e.startDate && c.endDate == e.endDate
  {
    Competition(e.key, e.name, e.eventCode, e.year, e.startDate, e.endDate)
  }

  /** The events kept by the search, in their original order. */
  function KeptEvents(events: seq<RawEvent>, term: string): (r: seq<RawEvent>)
    ensures forall i :: 0 <= i < |r| ==> r[i] in events && MatchesTerm(r[i], term)
    ensures forall i :: 0 <= i < |events| && MatchesTerm(events[i], term) ==> events[i] in r
    ensures forall x {:trigger multiset(r)[x]} :: multiset(r)[x] == if MatchesTerm(x, term) then multiset(events)[x] else 0
    ensures Seqs.IsSubsequence(r, events)
  {
    Seqs.FilterIsSubsequence(events, (e: RawEvent) => MatchesTerm(e, term));
    Seqs.FilterMultiset(events, (e: RawEvent) => MatchesTerm(e, term));
    Seqs.Filter(events, (e: RawEvent) => MatchesTerm(e, term))
  }

  /** `searchEvents`: the kept events projected to competitions; nothing when the fetch failed. */
  function SearchEvents(fetched: Option<seq<RawEvent>>, term: string): (r: seq<Competition>)
    ensures fetched.None? ==> r == []
    ensures fetched.Some? ==> |r| == |KeptEvents(fetched.value, term)|
    ensures fetched.Some? ==> forall i :: 0 <= i < |r| ==> r[i] == ToCompetition(KeptEvents(fetched.value, term)[i])
  {
    match fetched
    case None => []
    case Some(events) =>
      var kept := KeptEvents(events, term);
      seq(|kept|, i requires 0 <= i < |kept| => ToCompetition(kept[i]))
  }

  lemma LowerCharIdempotent(c: char)
    ensures LowerChar(LowerChar(c)) == LowerChar(c)
  {
  }

  /** Lower-casing twice is lower-casing once. */
  lemma ToLowerIdempotent(s: string)
    ensures ToLower(ToLower(s)) == ToLower(s)
  {
    forall i | 0 <= i < |s| ensures ToLower(ToLower(s))[i] == ToLower(s)[i] {
      LowerCharIdempotent(s[i]);
    }
  }

  /** The search ignores the case of the term. */
  lemma SearchIgnoresTermCase(fetched: Option<seq<RawEvent>>, term: string)
    ensures SearchEvents(fetched, ToLower(term)) == SearchEvents(fetched, term)
  {
    ToLowerIdempotent(term);
    if fetched.Some? {
      assert KeptEvents(fetched.value, ToLower(term)) == KeptEvents(fetched.value, term) by {
        Seqs.FilterCongruent(fetched.value, (e: RawEvent) => MatchesTerm(e, ToLower(term)),
                             (e: RawEvent) => MatchesTerm(e, term));
      }
    }
  }

  /** An empty search term keeps every event. */
  lemma SearchEmptyTermKeepsAll(events: seq<RawEvent>)
    ensures KeptEvents(events, "") == events
  {
    forall i | 0 <= i < |events| ensures MatchesTerm(events[i], "") {
      ContainsEmpty(ToLower(events[i].name));
    }
    Seqs.FilterKeepsAll(events, (e: RawEvent) => MatchesTerm(e, ""));
  }

  /** `parseInt(key.replace('frc', ''))`; `None` stands for `NaN`. */
  function TeamNumberOfKey(key: string): Option<int> {
    ParseInt(ReplaceFirst(key, "frc", ""))
  }

  /** A team key built from a team number gives the number back. */
  lemma TeamKeyRoundTrip(n: int)
    ensures TeamNumberOfKey("frc" + IntToString(n)) == Some(n)
  {
    var key := "frc" + IntToString(n);
    assert "frc" <= key;
    assert ReplaceFirst(key, "frc", "") == IntToString(n);
    ParseIntRoundTrip(n);
  }

  /** Three team keys, each of which parses. */
  predicate WellFormedAlliance(a: AllianceEntry) {
    |a.teamKeys| == 3 && forall i :: 0 <= i < 3 ==> TeamNumberOfKey(a.teamKeys[i]).Some?
  }

  function TeamNumbers(a: AllianceEntry): (t: Trio)
    requires WellFormedAlliance(a)
    ensures forall i :: 0 <= i < 3 ==> TeamNumberOfKey(a.teamKeys[i]) == Some(t[i])
  {
    seq(3, i requires 0 <= i < 3 => TeamNumberOfKey(a.teamKeys[i]).value)
  }

  predicate IsQual(m: BlueAllianceMatch) {
    m.compLevel == "qm"
  }

  predicate WellFormedMatch(m: BlueAllianceMatch) {
    WellFormedAlliance(m.red) && WellFormedAlliance(m.blue)
  }

  /** Every qualification match names three parseable team keys per alliance. */
  predicate WellFormedQuals(raw: seq<BlueAllianceMatch>) {
    forall i :: 0 <= i < |raw| && IsQual(raw[i]) ==> WellFormedMatch(raw[i])
  }

  /** `a.match_number - b.match_number`. */
  function ByMatchNumber(a: BlueAllianceMatch, b: BlueAllianceMatch): int {
    a.matchNumber - b.matchNumber
  }

  lemma ByMatchNumberIsTotalPreorder()
    ensures Sorting.TotalPreorder(ByMatchNumber)
  {
  }

  /** One qualification match in the client's form, tagged with the event. */
  function ToMatch(m: BlueAllianceMatch, eventKey: string): (r: Match)
    requires WellFormedMatch(m)
    ensures r.matchNumber == m.matchNumber && r.eventKey == Some(eventKey) && r.blueAllianceKey == Some(m.key)
    ensures r.redTeams == TeamNumbers(m.red) && r.blueTeams == TeamNumbers(m.blue)
    ensures r.completed == Some(m.winningAlliance != "")
  {
    Match(m.matchNumber, TeamNumbers(m.red), TeamNumbers(m.blue), Some(m.winningAlliance != ""),
          Some(eventKey), Some(m.key))
  }

  /** The qualification matches, in the order fetched. */
  function QualMatches(raw: seq<BlueAllianceMatch>): (r: seq<BlueAllianceMatch>)
    ensures forall i :: 0 <= i < |r| ==> r[i] in raw && IsQual(r[i])
    ensures forall i :: 0 <= i < |raw| && IsQual(raw[i]) ==> raw[i] in r
    ensures forall x {:trigger multiset(r)[x]} :: multiset(r)[x] == if IsQual(x) then multiset(raw)[x] else 0
  {
    Seqs.FilterMultiset(raw, IsQual);
    Seqs.Filter(raw, IsQual)
  }

  /** The qualification matches sorted by match number. */
  function SortedQuals(raw: seq<BlueAllianceMatch>): (r: seq<BlueAllianceMatch>)
    ensures multiset(r) == multiset(QualMatches(raw)) && |r| == |QualMatches(raw)|
    ensures forall i, j :: 0 <= i < j < |r| ==> r[i].matchNumber <= r[j].matchNumber
  {
    var q := QualMatches(raw);
    ByMatchNumberIsTotalPreorder();
    Sorting.SortBySorted(q, ByMatchNumber);
    Sorting.SortByLength(q, ByMatchNumber);
    Sorting.SortBy(q, ByMatchNumber)
  }

  /** The sorted list holds exactly fetched qualification matches. */
  lemma SortedQualsFromRaw(raw: seq<BlueAllianceMatch>)
    ensures forall i :: 0 <= i < |SortedQuals(raw)| ==> SortedQuals(raw)[i] in raw && IsQual(SortedQuals(raw)[i])
    ensures forall k :: 0 <= k < |raw| && IsQual(raw[k]) ==> raw[k] in SortedQuals(raw)
  {
    var q, s := QualMatches(raw), SortedQuals(raw);
    forall i | 0 <= i < |s| ensures s[i] in raw && IsQual(s[i]) {
      assert s[i] in multiset(q);
    }
    forall k | 0 <= k < |raw| && IsQual(raw[k]) ensures raw[k] in s {
      assert raw[k] in multiset(q);
    }
  }

  /** The sorted qualification matches all name parseable team keys. */
  lemma SortedQualsWellFormed(raw: seq<BlueAllianceMatch>)
    requires WellFormedQuals(raw)
    ensures forall i :: 0 <= i < |SortedQuals(raw)| ==> WellFormedMatch(SortedQuals(raw)[i])
  {
    SortedQualsFromRaw(raw);
    var s := SortedQuals(raw);
    forall i | 0 <= i < |s| ensures WellFormedMatch(s[i]) {
      var k :| 0 <= k < |raw| && raw[k] == s[i];
    }
  }

  /** `.map(...)`: each match converted, in order. */
  function ToMatches(ms: seq<BlueAllianceMatch>, eventKey: string): (r: seq<Match>)
    requires forall i :: 0 <= i < |ms| ==> WellFormedMatch(ms[i])
    ensures |r| == |ms| && forall i :: 0 <= i < |ms| ==> r[i] == ToMatch(ms[i], eventKey)
  {
    seq(|ms|, i requires 0 <= i < |ms| => ToMatch(ms[i], eventKey))
  }

  /** `getEventMatches`: the qualification matches in ascending match-number order, converted;
      nothing when the fetch failed. */
  function EventMatches(fetched: Option<seq<BlueAllianceMatch>>, eventKey: string): (r: seq<Match>)
    requires fetched.Some? ==> WellFormedQuals(fetched.value)
    ensures fetched.None? ==> r == []
    ensures fetched.Some? ==> |r| == |QualMatches(fetched.value)|
    ensures forall i, j :: 0 <= i < j < |r| ==> r[i].matchNumber <= r[j].matchNumber
    ensures forall i :: 0 <= i < |r| ==> r[i].eventKey == Some(eventKey)
  {
    match fetched
    case None => []
    case Some(raw) =>
      SortedQualsWellFormed(raw);
      ToMatches(SortedQuals(raw), eventKey)
  }

  /** Every converted match comes from a fetched qualification match, and every fetched
      qualification match is converted. */
  lemma EventMatchesFromQuals(raw: seq<BlueAllianceMatch>, eventKey: string)
    requires WellFormedQuals(raw)
    ensures forall i :: 0 <= i < |EventMatches(Some(raw), eventKey)| ==>
      exists k :: 0 <= k < |raw| && IsQual(raw[k]) && EventMatches(Some(raw), eventKey)[i] == ToMatch(raw[k], eventKey)
    ensures forall k :: 0 <= k < |raw| && IsQual(raw[k]) ==> ToMatch(raw[k], eventKey) in EventMatches(Some(raw), eventKey)
  {
    SortedQualsFromRaw(raw);
    SortedQualsWellFormed(raw);
    var s, r := SortedQuals(raw), EventMatches(Some(raw), eventKey);
    assert r == ToMatches(s, eventKey);
    forall i | 0 <= i < |r|
      ensures exists k :: 0 <= k < |raw| && IsQual(raw[k]) && r[i] == ToMatch(raw[k], eventKey)
    {
      var k :| 0 <= k < |raw| && raw[k] == s[i];
      assert r[i] == ToMatch(raw[k], eventKey);
    }
    forall k | 0 <= k < |raw| && IsQual(raw[k]) ensures ToMatch(raw[k], eventKey) in r {
      var j :| 0 <= j < |s| && s[j] == raw[k];
      assert r[j] == ToMatch(raw[k], eventKey);
    }
  }

  /** A team's record at an event. */
  datatype Record = Record(wins: int, losses: int, ties: int)

  /** The status endpoint's answer: `qual.ranking.rank` and `qual.ranking.record`, `None` where
      the path is missing. */
  datatype RawStatus = RawStatus(qualRank: Option<int>, qualRecord: Option<Record>)

  datatype TeamEventStats = TeamEventStats(rank: Option<int>, record: Option<Record>)

  /** `x || null` on a number: a missing value and a rank of 0 both become null. */
  function OrNull(x: Option<int>): (r: Option<int>)
    ensures r.None? <==> x.None? || x == Some(0)
    ensures r.Some? ==> r == x && r.value != 0
  {
    if x == Some(0) then None else x
  }

  /** Applying `|| null` again changes nothing. */
  lemma OrNullIdempotent(x: Option<int>)
    ensures OrNull(OrNull(x)) == OrNull(x)
  {
  }

  /** `getTeamEventStats`: `null` when the fetch failed; otherwise the rank with `|| null` and the
      record as found. */
  function TeamEventStatsOf(response: Option<RawStatus>): (r: Option<TeamEventStats>)
    ensures response.None? <==> r.None?
    ensures r.Some? ==> r.value.rank == OrNull(response.value.qualRank) && r.value.record == response.value.qualRecord
  {
    match response
    case None => None
    case Some(s) => Some(TeamEventStats(OrNull(s.qualRank), s.qualRecord))
  }
}
