/** The admin's data analysis (`src/components/admin/DataAnalysis.tsx`): entries of the selected
    event grouped by team into per-team statistics, the climb filter, the sort-column toggle, the
    nulls-last comparator and the "most matches" summary. Averages are exact rationals. */
module DataAnalysis {
  import opened Wrappers
  import opened Types
  import Seqs
  import Sorting
  import BlueAlliance
  import Storage

  predicate InEvent(e: ScoutingData, selectedEvent: Option<string>) {
    e.eventKey == selectedEvent
  }

  /** `loadData`'s filter: with a selected event only its entries, otherwise every entry. */
  function FilterByEvent(all: seq<ScoutingData>, selectedEvent: Option<string>): (r: seq<ScoutingData>)
    ensures !Truthy(selectedEvent) ==> r == all
    ensures Truthy(selectedEvent) ==> forall i :: 0 <= i < |r| ==> r[i] in all && r[i].eventKey == selectedEvent
    ensures Truthy(selectedEvent) ==> forall i :: 0 <= i < |all| && all[i].eventKey == selectedEvent ==> all[i] in r
    ensures Truthy(selectedEvent) ==>
      forall x {:trigger multiset(r)[x]} :: multiset(r)[x] == if x.eventKey == selectedEvent then multiset(all)[x] else 0
    ensures Seqs.IsSubsequence(r, all)
  {
    if !Truthy(selectedEvent) then
      Seqs.IsSubsequenceRefl(all);
      all
    else
      Seqs.FilterIsSubsequence(all, (e: ScoutingData) => InEvent(e, selectedEvent));
      Seqs.FilterMultiset(all, (e: ScoutingData) => InEvent(e, selectedEvent));
      Seqs.Filter(all, (e: ScoutingData) => InEvent(e, selectedEvent))
  }

  /** The team numbers of `data` without repetition, in order of first appearance: the key order
      of the grouping map. */
  function Teams(data: seq<ScoutingData>): (r: seq<int>)
    ensures forall i, j :: 0 <= i < j < |r| ==> r[i] != r[j]
    ensures forall t :: t in r <==> exists k :: 0 <= k < |data| && data[k].teamNumber == t
  {
    if data == [] then []
    else
      var init := data[..|data| - 1];
      var t := data[|data| - 1].teamNumber;
      var d := Teams(init);
      assert forall k :: 0 <= k < |init| ==> data[k] == init[k];
      if t in d then d else d + [t]
  }

  /** The entries of `team`, in entry order: what the grouping map collects under that key. */
  function EntriesOf(data: seq<ScoutingData>, team: int): (r: seq<ScoutingData>)
    ensures |r| <= |data|
    ensures forall i :: 0 <= i < |r| ==> r[i].teamNumber == team && r[i] in data
  {
    if data == [] then []
    else
      var e := data[|data| - 1];
      EntriesOf(data[..|data| - 1], team) + (if e.teamNumber == team then [e] else [])
  }

  lemma TeamsSnoc(s: seq<ScoutingData>, x: ScoutingData)
    ensures Teams(s + [x]) == if x.teamNumber in Teams(s) then Teams(s) else Teams(s) + [x.teamNumber]
  {
    assert (s + [x])[..|s|] == s;
  }

  lemma EntriesOfSnoc(s: seq<ScoutingData>, x: ScoutingData, team: int)
    ensures EntriesOf(s + [x], team) == EntriesOf(s, team) + (if x.teamNumber == team then [x] else [])
  {
    assert (s + [x])[..|s|] == s;
  }

  /** A team of `data` has at least one entry. */
  lemma {:induction false} EntriesOfTeamNonEmpty(data: seq<ScoutingData>, team: int)
    requires team in Teams(data)
    ensures |EntriesOf(data, team)| >= 1
  {
    var init := data[..|data| - 1];
    if data[|data| - 1].teamNumber != team {
      assert team in Teams(init) by {
        var k :| 0 <= k < |data| && data[k].teamNumber == team;
        assert init[k] == data[k];
      }
      EntriesOfTeamNonEmpty(init, team);
    }
  }

  /** A team that is not among the teams of `data` has no entries. */
  lemma {:induction false} EntriesOfAbsent(data: seq<ScoutingData>, team: int)
    requires team !in Teams(data)
    ensures EntriesOf(data, team) == []
  {
    if data != [] {
      var init, last := data[..|data| - 1], data[|data| - 1];
      assert last.teamNumber in Teams(data);
      assert team !in Teams(init) by {
        forall t | t in Teams(init) ensures t in Teams(data) {
          var k :| 0 <= k < |init| && init[k].teamNumber == t;
          assert data[k] == init[k];
        }
      }
      EntriesOfAbsent(init, team);
    }
  }

  /** `entries.reduce((sum, e) => sum + e.lNCount, 0)`. */
  function Total(entries: seq<ScoutingData>, level: Level): nat {
    if entries == [] then 0
    else Total(entries[..|entries| - 1], level) + ScoredAt(entries[|entries| - 1], level)
  }

  /** `entries.filter(e => e.climbStatus === c).length`. */
  function ClimbCount(entries: seq<ScoutingData>, c: ClimbStatus): nat {
    if entries == [] then 0
    else ClimbCount(entries[..|entries| - 1], c) + (if entries[|entries| - 1].climbStatus == c then 1 else 0)
  }

  /** Every entry has exactly one of the three climb outcomes. */
  lemma {:induction false} ClimbCountsSum(entries: seq<ScoutingData>)
    ensures ClimbCount(entries, NoClimb) + ClimbCount(entries, LowClimb) + ClimbCount(entries, DeepClimb) == |entries|
  {
    if entries != [] {
      ClimbCountsSum(entries[..|entries| - 1]);
    }
  }

  /** One row of the statistics table, with integer totals; averages are derived from them. */
  datatype TeamStats = TeamStats(
    teamNumber: int,
    matchCount: nat,
    totalL1: nat,
    totalL2: nat,
    totalL3: nat,
    totalL4: nat,
    noClimb: nat,
    lowClimb: nat,
    deepClimb: nat,
    rank: Option<int>)

  function TotalOf(row: TeamStats, level: Level): nat {
    match level
    case L1 => row.totalL1
    case L2 => row.totalL2
    case L3 => row.totalL3
    case L4 => row.totalL4
  }

  function ClimbOf(row: TeamStats, c: ClimbStatus): nat {
    match c
    case NoClimb => row.noClimb
    case LowClimb => row.lowClimb
    case DeepClimb => row.deepClimb
  }

  /** The rank shown for a team: only with a selected event, `teamStats?.rank || null` of the
      status lookup. */
  function RankOf(selectedEvent: Option<string>, lookup: int -> Option<BlueAlliance.TeamEventStats>, team: int): (r: Option<int>)
    ensures !Truthy(selectedEvent) ==> r.None?
    ensures r.Some? ==> r.value != 0 && lookup(team).Some? && lookup(team).value.rank == r
    ensures (Truthy(selectedEvent) && lookup(team).Some? && lookup(team).value.rank.Some?
             && lookup(team).value.rank.value != 0) ==> r == lookup(team).value.rank
  {
    if !Truthy(selectedEvent) then None
    else
      match lookup(team)
      case None => None
      case Some(s) => BlueAlliance.OrNull(s.rank)
  }

  /** The row for one team's entries: counts, totals and the climb histogram. */
  function StatsRow(entries: seq<ScoutingData>, team: int, rank: Option<int>): (r: TeamStats)
    ensures r.teamNumber == team && r.matchCount == |entries| && r.rank == rank
    ensures forall level :: TotalOf(r, level) == Total(entries, level)
    ensures forall c :: ClimbOf(r, c) == ClimbCount(entries, c)
    ensures r.noClimb + r.lowClimb + r.deepClimb == r.matchCount
  {
    ClimbCountsSum(entries);
    TeamStats(team, |entries|, Total(entries, L1), Total(entries, L2), Total(entries, L3), Total(entries, L4),
              ClimbCount(entries, NoClimb), ClimbCount(entries, LowClimb), ClimbCount(entries, DeepClimb), rank)
  }

  /** The statistics table: one row per team, in order of first appearance. */
  function TeamStatsOf(data: seq<ScoutingData>, selectedEvent: Option<string>,
                       lookup: int -> Option<BlueAlliance.TeamEventStats>): (r: seq<TeamStats>)
    ensures |r| == |Teams(data)|
    ensures forall i :: 0 <= i < |r| ==>
      r[i] == StatsRow(EntriesOf(data, Teams(data)[i]), Teams(data)[i], RankOf(selectedEvent, lookup, Teams(data)[i]))
  {
    var teams := Teams(data);
    seq(|teams|, i requires 0 <= i < |teams| =>
      StatsRow(EntriesOf(data, teams[i]), teams[i], RankOf(selectedEvent, lookup, teams[i])))
  }

  /** `teamMap` and its key order `order` group exactly the entries of `prefix` by team. */
  ghost predicate Grouped(prefix: seq<ScoutingData>, teamMap: map<int, seq<ScoutingData>>, order: seq<int>) {
    && order == Teams(prefix)
    && (forall t :: t in teamMap <==> t in order)
    && (forall t :: t in teamMap ==> teamMap[t] == EntriesOf(prefix, t))
  }

  /** Pushing an entry onto the list of a team already in the map keeps the grouping. */
  lemma GroupStepExisting(prefix: seq<ScoutingData>, e: ScoutingData, teamMap: map<int, seq<ScoutingData>>, order: seq<int>)
    requires Grouped(prefix, teamMap, order) && e.teamNumber in teamMap
    ensures Grouped(prefix + [e], teamMap[e.teamNumber := teamMap[e.teamNumber] + [e]], order)
  {
    var t0 := e.teamNumber;
    var m := teamMap[t0 := teamMap[t0] + [e]];
    TeamsSnoc(prefix, e);
    forall t | t in m ensures m[t] == EntriesOf(prefix + [e], t) {
      EntriesOfSnoc(prefix, e, t);
    }
  }

  /** Creating the list of a team at its first entry and pushing the entry keeps the grouping. */
  lemma GroupStepNew(prefix: seq<ScoutingData>, e: ScoutingData, teamMap: map<int, seq<ScoutingData>>, order: seq<int>)
    requires Grouped(prefix, teamMap, order) && e.teamNumber !in teamMap
    ensures Grouped(prefix + [e], teamMap[e.teamNumber := [e]], order + [e.teamNumber])
  {
    var t0 := e.teamNumber;
    var m := teamMap[t0 := [e]];
    TeamsSnoc(prefix, e);
    EntriesOfAbsent(prefix, t0);
    forall t | t in m ensures m[t] == EntriesOf(prefix + [e], t) {
      EntriesOfSnoc(prefix, e, t);
    }
  }

  /** The grouping step of `calculateTeamStats`: each entry is pushed onto its team's list, a
      team's list being created at its first entry. */
  method GroupByTeam(data: seq<ScoutingData>) returns (teamMap: map<int, seq<ScoutingData>>, order: seq<int>)
    ensures order == Teams(data)
    ensures forall t :: t in teamMap <==> t in order
    ensures forall t :: t in teamMap ==> teamMap[t] == EntriesOf(data, t)
  {
    teamMap, order := map[], [];
    var i := 0;
    while i < |data|
      invariant 0 <= i <= |data|
      invariant Grouped(data[..i], teamMap, order)
    {
      var e := data[i];
      assert data[..i + 1] == data[..i] + [e];
      if e.teamNumber !in teamMap {
        GroupStepNew(data[..i], e, teamMap, order);
        teamMap := teamMap[e.teamNumber := []];
        order := order + [e.teamNumber];
        assert teamMap[e.teamNumber] + [e] == [e];
      } else {
        GroupStepExisting(data[..i], e, teamMap, order);
      }
      teamMap := teamMap[e.teamNumber := teamMap[e.teamNumber] + [e]];
      i := i + 1;
    }
    assert data[..i] == data;
  }

  /** `calculateTeamStats`: the grouping map is filled entry by entry, then one row is pushed per
      key in insertion order. */
  method CalculateTeamStats(data: seq<ScoutingData>, selectedEvent: Option<string>,
                            lookup: int -> Option<BlueAlliance.TeamEventStats>) returns (stats: seq<TeamStats>)
    ensures stats == TeamStatsOf(data, selectedEvent, lookup)
  {
    var teamMap, order := GroupByTeam(data);
    stats := [];
    var k := 0;
    while k < |order|
      invariant 0 <= k <= |order| && |stats| == k
      invariant forall j :: 0 <= j < k ==>
        stats[j] == StatsRow(EntriesOf(data, order[j]), order[j], RankOf(selectedEvent, lookup, order[j]))
    {
      var team := order[k];
      var entries := teamMap[team];
      var rank: Option<int> := None;
      if Truthy(selectedEvent) {
        var status := lookup(team);
        rank := if status.Some? then BlueAlliance.OrNull(status.value.rank) else None;
      }
      stats := stats + [StatsRow(entries, team, rank)];
      k := k + 1;
    }
  }

  /** What a column sums up: the number of entries, or the total of one level. */
  datatype Measure = Matches | Scored(level: Level)

  function EntryMeasure(e: ScoutingData, m: Measure): nat {
    match m
    case Matches => 1
    case Scored(level) => ScoredAt(e, level)
  }

  function Measured(entries: seq<ScoutingData>, m: Measure): nat {
    match m
    case Matches => |entries|
    case Scored(level) => Total(entries, level)
  }

  function RowMeasure(row: TeamStats, m: Measure): nat {
    match m
    case Matches => row.matchCount
    case Scored(level) => TotalOf(row, level)
  }

  /** The column sum over a list of rows. */
  function SumRows(rows: seq<TeamStats>, m: Measure): nat {
    if rows == [] then 0 else RowMeasure(rows[0], m) + SumRows(rows[1..], m)
  }

  /** The measure of each listed team's entries, summed. */
  function SumOverTeams(data: seq<ScoutingData>, teams: seq<int>, m: Measure): nat {
    if teams == [] then 0 else Measured(EntriesOf(data, teams[0]), m) + SumOverTeams(data, teams[1..], m)
  }

  lemma MeasuredAppend(a: seq<ScoutingData>, x: ScoutingData, m: Measure)
    ensures Measured(a + [x], m) == Measured(a, m) + EntryMeasure(x, m)
  {
    assert (a + [x])[..|a|] == a;
  }

  lemma {:induction false} SumOverTeamsSplit(data: seq<ScoutingData>, a: seq<int>, b: seq<int>, m: Measure)
    ensures SumOverTeams(data, a + b, m) == SumOverTeams(data, a, m) + SumOverTeams(data, b, m)
  {
    if a == [] {
      assert a + b == b;
    } else {
      assert (a + b)[0] == a[0] && (a + b)[1..] == a[1..] + b;
      SumOverTeamsSplit(data, a[1..], b, m);
    }
  }

  /** One more entry adds its measure to its own team's term, and to no other. */
  lemma {:induction false} SumOverTeamsAppend(s: seq<ScoutingData>, x: ScoutingData, teams: seq<int>, m: Measure)
    requires forall i, j :: 0 <= i < j < |teams| ==> teams[i] != teams[j]
    ensures SumOverTeams(s + [x], teams, m)
      == SumOverTeams(s, teams, m) + (if x.teamNumber in teams then EntryMeasure(x, m) else 0)
  {
    if teams != [] {
      var t, rest := teams[0], teams[1..];
      assert x.teamNumber in teams <==> x.teamNumber == t || x.teamNumber in rest by {
        assert teams == [t] + rest;
      }
      assert forall i, j :: 0 <= i < j < |rest| ==> rest[i] != rest[j] by {
        forall i, j | 0 <= i < j < |rest| ensures rest[i] != rest[j] {
          assert rest[i] == teams[i + 1] && rest[j] == teams[j + 1];
        }
      }
      EntriesOfSnoc(s, x, t);
      SumOverTeamsAppend(s, x, rest, m);
      assert SumOverTeams(s + [x], teams, m) == Measured(EntriesOf(s + [x], t), m) + SumOverTeams(s + [x], rest, m);
      assert SumOverTeams(s, teams, m) == Measured(EntriesOf(s, t), m) + SumOverTeams(s, rest, m);
      if x.teamNumber != t {
        assert EntriesOf(s + [x], t) == EntriesOf(s, t) + [] == EntriesOf(s, t);
      } else {
        MeasuredAppend(EntriesOf(s, t), x, m);
        assert x.teamNumber !in rest by {
          forall j | 0 <= j < |rest| ensures rest[j] != t {
            assert rest[j] == teams[j + 1];
          }
        }
      }
    }
  }

  /** Grouping is a partition: summing a measure over the teams' entries gives its sum over all
      entries. */
  lemma {:induction false} TeamsPartition(data: seq<ScoutingData>, m: Measure)
    ensures SumOverTeams(data, Teams(data), m) == Measured(data, m)
  {
    if data != [] {
      var s, x := data[..|data| - 1], data[|data| - 1];
      assert data == s + [x];
      TeamsPartition(s, m);
      MeasuredAppend(s, x, m);
      var d := Teams(s);
      SumOverTeamsAppend(s, x, d, m);
      TeamsSnoc(s, x);
      if x.teamNumber !in d {
        SumOverTeamsSplit(data, d, [x.teamNumber], m);
        NewTeamTerm(s, x, m);
      }
    }
  }

  /** The term of a team whose first entry is the last one is that entry's measure. */
  lemma NewTeamTerm(s: seq<ScoutingData>, x: ScoutingData, m: Measure)
    requires x.teamNumber !in Teams(s)
    ensures SumOverTeams(s + [x], [x.teamNumber], m) == EntryMeasure(x, m)
  {
    EntriesOfAbsent(s, x.teamNumber);
    EntriesOfSnoc(s, x, x.teamNumber);
    assert EntriesOf(s + [x], x.teamNumber) == [x];
    MeasuredAppend([], x, m);
    assert [] + [x] == [x];
  }

  lemma {:induction false} SumRowsMatchesTeams(data: seq<ScoutingData>, rows: seq<TeamStats>, teams: seq<int>, m: Measure)
    requires |rows| == |teams|
    requires forall i :: 0 <= i < |rows| ==> RowMeasure(rows[i], m) == Measured(EntriesOf(data, teams[i]), m)
    ensures SumRows(rows, m) == SumOverTeams(data, teams, m)
  {
    if rows != [] {
      SumRowsMatchesTeams(data, rows[1..], teams[1..], m);
    }
  }

  /** The table's match counts add up to the number of analysed entries, and each level's
      totals add up to that level's total over all entries. */
  lemma TeamStatsPartition(data: seq<ScoutingData>, selectedEvent: Option<string>,
                           lookup: int -> Option<BlueAlliance.TeamEventStats>, m: Measure)
    ensures SumRows(TeamStatsOf(data, selectedEvent, lookup), m) == Measured(data, m)
  {
    var rows, teams := TeamStatsOf(data, selectedEvent, lookup), Teams(data);
    SumRowsMatchesTeams(data, rows, teams, m);
    TeamsPartition(data, m);
  }

  /** Every row of the table counts at least one match; the rows' teams are distinct and are
      exactly the teams of the analysed entries. */
  lemma TeamStatsRows(data: seq<ScoutingData>, selectedEvent: Option<string>,
                      lookup: int -> Option<BlueAlliance.TeamEventStats>)
    ensures forall i :: 0 <= i < |TeamStatsOf(data, selectedEvent, lookup)| ==>
      TeamStatsOf(data, selectedEvent, lookup)[i].matchCount >= 1
    ensures forall i, j :: 0 <= i < j < |TeamStatsOf(data, selectedEvent, lookup)| ==>
      TeamStatsOf(data, selectedEvent, lookup)[i].teamNumber != TeamStatsOf(data, selectedEvent, lookup)[j].teamNumber
    ensures forall k :: 0 <= k < |data| ==>
      exists i :: 0 <= i < |TeamStatsOf(data, selectedEvent, lookup)| && TeamStatsOf(data, selectedEvent, lookup)[i].teamNumber == data[k].teamNumber
    ensures forall i :: 0 <= i < |TeamStatsOf(data, selectedEvent, lookup)| ==>
      exists k :: 0 <= k < |data| && data[k].teamNumber == TeamStatsOf(data, selectedEvent, lookup)[i].teamNumber
  {
    var rows, teams := TeamStatsOf(data, selectedEvent, lookup), Teams(data);
    forall i | 0 <= i < |rows| ensures rows[i].matchCount >= 1 {
      EntriesOfTeamNonEmpty(data, teams[i]);
    }
    forall k | 0 <= k < |data| ensures exists i :: 0 <= i < |rows| && rows[i].teamNumber == data[k].teamNumber {
      assert data[k].teamNumber in teams;
      var i :| 0 <= i < |teams| && teams[i] == data[k].teamNumber;
      assert rows[i].teamNumber == data[k].teamNumber;
    }
    forall i | 0 <= i < |rows| ensures exists k :: 0 <= k < |data| && data[k].teamNumber == rows[i].teamNumber {
      assert teams[i] in teams;
    }
  }

  // ---------------------------------------------------------------- sorting and filtering

  datatype SortField = ByTeam | ByRank | ByMatches | ByAverage(level: Level) | ByTotalScore
  datatype SortOrder = Asc | Desc
  datatype SortState = SortState(field: SortField, order: SortOrder)

  /** `handleSort`: the current column flips its order; another column is chosen descending. */
  function NextSort(s: SortState, field: SortField): (r: SortState)
    ensures r.field == field
    ensures field == s.field ==> r.order != s.order
    ensures field != s.field ==> r.order == Desc
  {
    if s.field == field then SortState(field, if s.order == Asc then Desc else Asc)
    else SortState(field, Desc)
  }

  /** Clicking the current column twice restores the order. */
  lemma NextSortInvolution(s: SortState)
    ensures NextSort(NextSort(s, s.field), s.field) == s
  {
  }

  /** `total / matchCount`, exactly. */
  function Average(total: nat, count: nat): real {
    if count == 0 then 0.0 else total as real / count as real
  }

  /** The value of a column; only the rank can be null. */
  function FieldValue(row: TeamStats, field: SortField): (v: Option<real>)
    ensures v.None? <==> field == ByRank && row.rank.None?
  {
    match field
    case ByTeam => Some(row.teamNumber as real)
    case ByRank => if row.rank.Some? then Some(row.rank.value as real) else None
    case ByMatches => Some(row.matchCount as real)
    case ByAverage(level) => Some(Average(TotalOf(row, level), row.matchCount))
    case ByTotalScore => Some(Average(row.totalL1 + row.totalL2 + row.totalL3 + row.totalL4, row.matchCount))
  }

  /** The sort comparator: nulls after every value in both orders, values ascending or, for
      `desc`, descending. */
  function Compare(a: Option<real>, b: Option<real>, order: SortOrder): (r: int)
    ensures a.None? && b.Some? ==> r > 0
    ensures a.Some? && b.None? ==> r < 0
    ensures a.Some? && b.Some? && order == Asc ==> (r <= 0 <==> a.value <= b.value)
    ensures a.Some? && b.Some? && order == Desc ==> (r <= 0 <==> a.value >= b.value)
  {
    if a.None? && b.None? then 0
    else if a.None? then 1
    else if b.None? then -1
    else
      var comparison := if a.value < b.value then -1 else if a.value > b.value then 1 else 0;
      if order == Asc then comparison else -comparison
  }

  function RowOrder(field: SortField, order: SortOrder): (TeamStats, TeamStats) -> int {
    (x: TeamStats, y: TeamStats) => Compare(FieldValue(x, field), FieldValue(y, field), order)
  }

  /** The comparator is a total preorder, so the sorted table is well defined. */
  lemma RowOrderIsTotalPreorder(field: SortField, order: SortOrder)
    ensures Sorting.TotalPreorder(RowOrder(field, order))
  {
    var cmp := RowOrder(field, order);
    forall a, b, c | cmp(a, b) <= 0 && cmp(b, c) <= 0 ensures cmp(a, c) <= 0 {
      var va, vb, vc := FieldValue(a, field), FieldValue(b, field), FieldValue(c, field);
      assert Compare(va, vb, order) <= 0 && Compare(vb, vc, order) <= 0;
    }
  }

  /** `filterClimb`: `'all'` or one climb outcome. */
  datatype ClimbFilter = AllTeams | OnlyClimb(status: ClimbStatus)

  predicate PassesClimb(row: TeamStats, f: ClimbFilter) {
    f.AllTeams? || ClimbOf(row, f.status) > 0
  }

  /** The climb filter: every row for `'all'`, otherwise the rows with a positive count for that
      outcome, in table order. */
  function FilterClimb(rows: seq<TeamStats>, f: ClimbFilter): (r: seq<TeamStats>)
    ensures f.AllTeams? ==> r == rows
    ensures forall i :: 0 <= i < |r| ==> r[i] in rows && PassesClimb(r[i], f)
    ensures forall i :: 0 <= i < |rows| && PassesClimb(rows[i], f) ==> rows[i] in r
    ensures forall x {:trigger multiset(r)[x]} :: multiset(r)[x] == if PassesClimb(x, f) then multiset(rows)[x] else 0
    ensures Seqs.IsSubsequence(r, rows)
  {
    Seqs.FilterIsSubsequence(rows, (row: TeamStats) => PassesClimb(row, f));
    Seqs.FilterMultiset(rows, (row: TeamStats) => PassesClimb(row, f));
    if f.AllTeams? then
      Seqs.FilterKeepsAll(rows, (row: TeamStats) => PassesClimb(row, f));
      Seqs.Filter(rows, (row: TeamStats) => PassesClimb(row, f))
    else
      Seqs.Filter(rows, (row: TeamStats) => PassesClimb(row, f))
  }

  /** `filteredAndSortedStats`. */
  function Displayed(rows: seq<TeamStats>, f: ClimbFilter, s: SortState): (r: seq<TeamStats>)
    ensures multiset(r) == multiset(FilterClimb(rows, f))
  {
    Sorting.SortBy(FilterClimb(rows, f), RowOrder(s.field, s.order))
  }

  /** The displayed table holds the filtered rows, rows with a null value come last, and the
      other rows are in the chosen order. */
  lemma DisplayedOrdered(rows: seq<TeamStats>, f: ClimbFilter, s: SortState)
    ensures |Displayed(rows, f, s)| == |FilterClimb(rows, f)|
    ensures forall i, j :: 0 <= i < j < |Displayed(rows, f, s)| && FieldValue(Displayed(rows, f, s)[j], s.field).Some? ==>
      FieldValue(Displayed(rows, f, s)[i], s.field).Some?
    ensures forall i, j :: (0 <= i < j < |Displayed(rows, f, s)| && s.order == Asc
                            && FieldValue(Displayed(rows, f, s)[i], s.field).Some?
                            && FieldValue(Displayed(rows, f, s)[j], s.field).Some?) ==>
      FieldValue(Displayed(rows, f, s)[i], s.field).value <= FieldValue(Displayed(rows, f, s)[j], s.field).value
    ensures forall i, j :: (0 <= i < j < |Displayed(rows, f, s)| && s.order == Desc
                            && FieldValue(Displayed(rows, f, s)[i], s.field).Some?
                            && FieldValue(Displayed(rows, f, s)[j], s.field).Some?) ==>
      FieldValue(Displayed(rows, f, s)[i], s.field).value >= FieldValue(Displayed(rows, f, s)[j], s.field).value
  {
    var cmp := RowOrder(s.field, s.order);
    RowOrderIsTotalPreorder(s.field, s.order);
    Sorting.SortBySorted(FilterClimb(rows, f), cmp);
    Sorting.SortByLength(FilterClimb(rows, f), cmp);
    var r := Displayed(rows, f, s);
    forall i, j | 0 <= i < j < |r| ensures Compare(FieldValue(r[i], s.field), FieldValue(r[j], s.field), s.order) <= 0 {
      assert cmp(r[i], r[j]) <= 0;
    }
  }

  // ---------------------------------------------------------------- summary cards

  /** `Math.max(...rows.map(t => t.matchCount))`. */
  function MaxMatchCount(rows: seq<TeamStats>): (m: nat)
    requires |rows| > 0
    ensures forall i :: 0 <= i < |rows| ==> rows[i].matchCount <= m
    ensures exists i :: 0 <= i < |rows| && rows[i].matchCount == m
  {
    if |rows| == 1 then rows[0].matchCount
    else
      var rest := MaxMatchCount(rows[1..]);
      if rows[0].matchCount >= rest then rows[0].matchCount else rest
  }

  /** `rows.find(t => t.matchCount === m)` as an index. */
  function FirstWithCount(rows: seq<TeamStats>, m: nat): (i: nat)
    requires exists k :: 0 <= k < |rows| && rows[k].matchCount == m
    ensures i < |rows| && rows[i].matchCount == m
    ensures forall j :: 0 <= j < i ==> rows[j].matchCount != m
  {
    if rows[0].matchCount == m then 0
    else
      assert exists k :: 0 <= k < |rows[1..]| && rows[1..][k].matchCount == m by {
        var k :| 0 <= k < |rows| && rows[k].matchCount == m;
        assert rows[1..][k - 1] == rows[k];
      }
      FirstWithCount(rows[1..], m) + 1
  }

  datatype MostMatchesCard = MostMatchesCard(matches: nat, team: int)

  /** The "Most Matches" card, shown only when the displayed table is not empty: the largest
      match count and the first displayed team that reaches it. */
  function MostMatches(rows: seq<TeamStats>): (r: MostMatchesCard)
    requires |rows| > 0
    ensures forall i :: 0 <= i < |rows| ==> rows[i].matchCount <= r.matches
    ensures exists i :: (0 <= i < |rows| && rows[i].teamNumber == r.team && rows[i].matchCount == r.matches
                         && forall j :: 0 <= j < i ==> rows[j].matchCount < r.matches)
  {
    var m := MaxMatchCount(rows);
    var i := FirstWithCount(rows, m);
    MostMatchesCard(m, rows[i].teamNumber)
  }

  // ---------------------------------------------------------------- the view

  class AnalysisView {
    var scoutingData: seq<ScoutingData>
    var teamStats: seq<TeamStats>
    var sortBy: SortField
    var sortOrder: SortOrder
    var filterClimb: ClimbFilter

    /** Sorted by total score, descending, all teams, nothing loaded. */
    constructor ()
      ensures scoutingData == [] && teamStats == []
      ensures sortBy == ByTotalScore && sortOrder == Desc && filterClimb == AllTeams
    {
      scoutingData, teamStats := [], [];
      sortBy, sortOrder, filterClimb := ByTotalScore, Desc, AllTeams;
    }

    /** `loadData`: reads the stored entries, keeps the selected event's, and rebuilds the table.
        `lookup` answers the per-team status request. */
    method LoadData(store: Storage.Store, selectedEvent: Option<string>,
                    lookup: int -> Option<BlueAlliance.TeamEventStats>)
      modifies this
      ensures scoutingData == FilterByEvent(store.GetScoutingData(), selectedEvent)
      ensures teamStats == TeamStatsOf(scoutingData, selectedEvent, lookup)
      ensures sortBy == old(sortBy) && sortOrder == old(sortOrder) && filterClimb == old(filterClimb)
    {
      var allData := store.GetScoutingData();
      scoutingData := FilterByEvent(allData, selectedEvent);
      teamStats := CalculateTeamStats(scoutingData, selectedEvent, lookup);
    }

    /** `handleSort`. */
    method HandleSort(field: SortField)
      modifies this
      ensures SortState(sortBy, sortOrder) == NextSort(SortState(old(sortBy), old(sortOrder)), field)
      ensures scoutingData == old(scoutingData) && teamStats == old(teamStats) && filterClimb == old(filterClimb)
    {
      if sortBy == field {
        sortOrder := if sortOrder == Asc then Desc else Asc;
      } else {
        sortBy := field;
        sortOrder := Desc;
      }
    }

    method SetClimbFilter(f: ClimbFilter)
      modifies this
      ensures filterClimb == f
      ensures scoutingData == old(scoutingData) && teamStats == old(teamStats)
      ensures sortBy == old(sortBy) && sortOrder == old(sortOrder)
    {
      filterClimb := f;
    }

    /** The table as displayed. */
    function Shown(): seq<TeamStats>
      reads this
    {
      Displayed(teamStats, filterClimb, SortState(sortBy, sortOrder))
    }
  }
}
