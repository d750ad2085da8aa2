/** The records and enumerations shared by every part of the client (`src/types/index.ts`). */
module Types {
  import opened Wrappers

  datatype Alliance = Red | Blue

  /** The alliance as the source spells it (`'red' | 'blue'`). */
  function AllianceName(a: Alliance): string {
    match a
    case Red => "red"
    case Blue => "blue"
  }

  /** A seat within an alliance: 1, 2 or 3. */
  type Position = p: int | 1 <= p <= 3 witness 1

  /** The three team numbers of one alliance in one match. */
  type Trio = s: seq<int> | |s| == 3 witness [0, 0, 0]

  datatype ScouterStatus = Remote | InPerson | NotScouting

  datatype ClimbStatus = NoClimb | LowClimb | DeepClimb

  datatype SyncStatus = Idle | Syncing | Success | Error

  datatype User = User(
    username: string,
    assignedTeam: int,
    assignedAlliance: Alliance,
    assignedPosition: Position)

  /** A roster row the administrator maintains. */
  datatype AdminScouter = AdminScouter(
    id: string,
    name: string,
    assignedAlliance: Alliance,
    assignedPosition: Position,
    status: ScouterStatus)

  datatype Competition = Competition(
    key: string,
    name: string,
    eventCode: string,
    year: int,
    startDate: string,
    endDate: string)

  /** One alliance of a match as The Blue Alliance reports it. */
  datatype AllianceEntry = AllianceEntry(teamKeys: seq<string>, score: int)

  datatype BlueAllianceMatch = BlueAllianceMatch(
    key: string,
    compLevel: string,
    setNumber: int,
    matchNumber: int,
    red: AllianceEntry,
    blue: AllianceEntry,
    winningAlliance: string)

  datatype Match = Match(
    matchNumber: int,
    redTeams: Trio,
    blueTeams: Trio,
    completed: Option<bool>,
    eventKey: Option<string>,
    blueAllianceKey: Option<string>)

  /** One scout's observation of one team in one match. */
  datatype ScoutingData = ScoutingData(
    id: string,
    matchNumber: int,
    teamNumber: int,
    scouterUsername: string,
    timestamp: int,
    l1Count: nat,
    l2Count: nat,
    l3Count: nat,
    l4Count: nat,
    climbStatus: ClimbStatus,
    notes: Option<string>,
    synced: bool,
    eventKey: Option<string>)

  /** The four reef levels a scouter counts. */
  datatype Level = L1 | L2 | L3 | L4

  /** The counter of `e` for `level`. */
  function ScoredAt(e: ScoutingData, level: Level): nat {
    match level
    case L1 => e.l1Count
    case L2 => e.l2Count
    case L3 => e.l3Count
    case L4 => e.l4Count
  }

  /** What the scouting form hands to the application:
      `Omit<ScoutingData, 'id' | 'timestamp' | 'synced'>` without the event key. */
  datatype Submission = Submission(
    matchNumber: int,
    teamNumber: int,
    scouterUsername: string,
    l1Count: nat,
    l2Count: nat,
    l3Count: nat,
    l4Count: nat,
    climbStatus: ClimbStatus,
    notes: Option<string>)

  /** The teams of alliance `a` in match `m`. */
  function TeamsOf(m: Match, a: Alliance): Trio {
    match a
    case Red => m.redTeams
    case Blue => m.blueTeams
  }

  /** JavaScript truthiness of an optional string: absent and `""` are both falsy. */
  predicate Truthy(s: Option<string>) {
    s.Some? && s.value != ""
  }
}
