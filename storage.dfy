/** The browser-local persistent store (`src/utils/storage.ts`): five independently keyed slots,
    each holding one JSON value. Serialisation is taken to round-trip, so a slot holds the value
    itself; an absent key is `None`. */
module Storage {
  import opened Wrappers
  import opened Types
  import Seqs

  /** The five storage keys. */
  datatype Key = UserKey | MatchesKey | ScoutingDataKey | AdminScoutersKey | SelectedEventKey

  function KeyName(k: Key): string {
    match k
    case UserKey => "frc_scouting_user"
    case MatchesKey => "frc_scouting_matches"
    case ScoutingDataKey => "frc_scouting_data"
    case AdminScoutersKey => "frc_scouting_admin_scouters"
    case SelectedEventKey => "frc_scouting_selected_event"
  }

  /** The keys are pairwise distinct, so a write to one slot cannot reach another. */
  lemma KeyNamesDistinct(a: Key, b: Key)
    ensures KeyName(a) == KeyName(b) ==> a == b
  {
  }

  /** `Object.values(STORAGE_KEYS)`, in declaration order. */
  const AllKeys: seq<Key> := [UserKey, MatchesKey, ScoutingDataKey, AdminScoutersKey, SelectedEventKey]

  /** `Partial<ScoutingData>`: an absent property is `None`; for the optional properties a present
      `undefined` is `Some(None)`. */
  datatype EntryPatch = EntryPatch(
    id: Option<string>,
    matchNumber: Option<int>,
    teamNumber: Option<int>,
    scouterUsername: Option<string>,
    timestamp: Option<int>,
    l1Count: Option<nat>,
    l2Count: Option<nat>,
    l3Count: Option<nat>,
    l4Count: Option<nat>,
    climbStatus: Option<ClimbStatus>,
    notes: Option<Option<string>>,
    synced: Option<bool>,
    eventKey: Option<Option<string>>)

  const EmptyPatch := EntryPatch(None, None, None, None, None, None, None, None, None, None, None, None, None)

  /** `{ ...entry, ...updates }`: every property present in the patch overrides the entry's. */
  function Merge(e: ScoutingData, p: EntryPatch): ScoutingData {
    ScoutingData(
      p.id.GetOr(e.id), p.matchNumber.GetOr(e.matchNumber), p.teamNumber.GetOr(e.teamNumber),
      p.scouterUsername.GetOr(e.scouterUsername), p.timestamp.GetOr(e.timestamp),
      p.l1Count.GetOr(e.l1Count), p.l2Count.GetOr(e.l2Count), p.l3Count.GetOr(e.l3Count),
      p.l4Count.GetOr(e.l4Count), p.climbStatus.GetOr(e.climbStatus), p.notes.GetOr(e.notes),
      p.synced.GetOr(e.synced), p.eventKey.GetOr(e.eventKey))
  }

  /** Merging the empty patch changes nothing, and merging the same patch twice is merging it once. */
  lemma MergeLaws(e: ScoutingData, p: EntryPatch)
    ensures Merge(e, EmptyPatch) == e
    ensures Merge(Merge(e, p), p) == Merge(e, p)
  {
  }

  /** The list `updateScoutingEntry` writes: same length and order, the patch merged into exactly
      the entries carrying `id`. */
  function UpdateEntries(entries: seq<ScoutingData>, id: string, patch: EntryPatch): (r: seq<ScoutingData>)
    ensures |r| == |entries|
    ensures forall i :: 0 <= i < |r| && entries[i].id != id ==> r[i] == entries[i]
    ensures forall i :: 0 <= i < |r| && entries[i].id == id ==> r[i] == Merge(entries[i], patch)
  {
    seq(|entries|, i requires 0 <= i < |entries| =>
      if entries[i].id == id then Merge(entries[i], patch) else entries[i])
  }

  /** An identity no entry carries is a silent no-op. */
  lemma UpdateUnknownIdIsNoop(entries: seq<ScoutingData>, id: string, patch: EntryPatch)
    requires forall i :: 0 <= i < |entries| ==> entries[i].id != id
    ensures UpdateEntries(entries, id, patch) == entries
  {
  }

  /** Re-applying the same update changes nothing more. */
  lemma UpdateIdempotent(entries: seq<ScoutingData>, id: string, patch: EntryPatch)
    requires patch.id.None? || patch.id == Some(id)
    ensures UpdateEntries(UpdateEntries(entries, id, patch), id, patch) == UpdateEntries(entries, id, patch)
  {
    var once := UpdateEntries(entries, id, patch);
    forall i | 0 <= i < |entries| && entries[i].id == id ensures once[i].id == id && Merge(once[i], patch) == once[i] {
      MergeLaws(entries[i], patch);
    }
  }

  predicate NotSynced(e: ScoutingData) {
    !e.synced
  }

  /** `entries.filter(e => !e.synced)`. */
  function Unsynced(entries: seq<ScoutingData>): (r: seq<ScoutingData>)
    ensures forall i :: 0 <= i < |r| ==> r[i] in entries && !r[i].synced
    ensures forall i :: 0 <= i < |entries| && !entries[i].synced ==> entries[i] in r
    ensures forall x {:trigger multiset(r)[x]} :: multiset(r)[x] == if x.synced then 0 else multiset(entries)[x]
    ensures Seqs.IsSubsequence(r, entries)
  {
    Seqs.FilterIsSubsequence(entries, NotSynced);
    Seqs.FilterMultiset(entries, NotSynced);
    Seqs.Filter(entries, NotSynced)
  }

  /** Appending one entry adds it to the unsynced list exactly when it is unsynced. */
  lemma UnsyncedAppend(entries: seq<ScoutingData>, e: ScoutingData)
    ensures Unsynced(entries + [e]) == Unsynced(entries) + (if e.synced then [] else [e])
  {
    Seqs.FilterAppend(entries, [e], NotSynced);
    assert Seqs.Filter([e], NotSynced) == (if e.synced then [] else [e]) + Seqs.Filter([], NotSynced);
  }

  class Store {
    var user: Option<User>
    var matches: Option<seq<Match>>
    var scoutingData: Option<seq<ScoutingData>>
    var adminScouters: Option<seq<AdminScouter>>
    var selectedEvent: Option<string>

    /** A store over empty browser storage. */
    constructor ()
      ensures forall k :: !Present(k)
    {
      user, matches, scoutingData, adminScouters, selectedEvent := None, None, None, None, None;
    }

    /** Only the scouting-entry slot differs from the previous state. */
    twostate predicate OnlyEntriesChanged()
      reads this
    {
      user == old(user) && matches == old(matches)
      && adminScouters == old(adminScouters) && selectedEvent == old(selectedEvent)
    }

    /** Whether the slot for `k` holds a value. */
    predicate Present(k: Key)
      reads this
    {
      match k
      case UserKey => user.Some?
      case MatchesKey => matches.Some?
      case ScoutingDataKey => scoutingData.Some?
      case AdminScoutersKey => adminScouters.Some?
      case SelectedEventKey => selectedEvent.Some?
    }

    /** Each getter returns its slot, or its default (`null` or `[]`) when the slot is absent. */
    function GetUser(): (r: Option<User>)
      reads this
      ensures !Present(UserKey) ==> r == None
    {
      user
    }

    function GetMatches(): (r: seq<Match>)
      reads this
      ensures !Present(MatchesKey) ==> r == []
    {
      matches.GetOr([])
    }

    function GetScoutingData(): (r: seq<ScoutingData>)
      reads this
      ensures !Present(ScoutingDataKey) ==> r == []
    {
      scoutingData.GetOr([])
    }

    function GetAdminScouters(): (r: seq<AdminScouter>)
      reads this
      ensures !Present(AdminScoutersKey) ==> r == []
    {
      adminScouters.GetOr([])
    }

    function GetSelectedEvent(): (r: Option<string>)
      reads this
      ensures !Present(SelectedEventKey) ==> r == None
    {
      selectedEvent
    }

    /** `getUnsyncedData`: exactly the stored entries not yet synced, in stored order. */
    function GetUnsyncedData(): (r: seq<ScoutingData>)
      reads this
      ensures forall i :: 0 <= i < |r| ==> r[i] in GetScoutingData() && !r[i].synced
      ensures forall e :: e in GetScoutingData() && !e.synced ==> e in r
      ensures forall x {:trigger multiset(r)[x]} :: multiset(r)[x] == if x.synced then 0 else multiset(GetScoutingData())[x]
      ensures Seqs.IsSubsequence(r, GetScoutingData())
    {
      Unsynced(GetScoutingData())
    }

    method SaveUser(u: User)
      modifies this
      ensures GetUser() == Some(u)
      ensures matches == old(matches) && scoutingData == old(scoutingData)
      ensures adminScouters == old(adminScouters) && selectedEvent == old(selectedEvent)
    {
      user := Some(u);
    }

    method SaveMatches(ms: seq<Match>)
      modifies this
      ensures GetMatches() == ms && Present(MatchesKey)
      ensures user == old(user) && scoutingData == old(scoutingData)
      ensures adminScouters == old(adminScouters) && selectedEvent == old(selectedEvent)
    {
      matches := Some(ms);
    }

    method SaveScoutingData(data: seq<ScoutingData>)
      modifies this
      ensures GetScoutingData() == data && Present(ScoutingDataKey)
      ensures user == old(user) && matches == old(matches)
      ensures adminScouters == old(adminScouters) && selectedEvent == old(selectedEvent)
    {
      scoutingData := Some(data);
    }

    method SaveAdminScouters(scouters: seq<AdminScouter>)
      modifies this
      ensures GetAdminScouters() == scouters && Present(AdminScoutersKey)
      ensures user == old(user) && matches == old(matches)
      ensures scoutingData == old(scoutingData) && selectedEvent == old(selectedEvent)
    {
      adminScouters := Some(scouters);
    }

    method SaveSelectedEvent(eventKey: string)
      modifies this
      ensures GetSelectedEvent() == Some(eventKey)
      ensures user == old(user) && matches == old(matches)
      ensures scoutingData == old(scoutingData) && adminScouters == old(adminScouters)
    {
      selectedEvent := Some(eventKey);
    }

    /** `addScoutingEntry`: appends without deduplication and returns the stored list. */
    method AddScoutingEntry(entry: ScoutingData) returns (updated: seq<ScoutingData>)
      modifies this
      ensures updated == old(GetScoutingData()) + [entry]
      ensures GetScoutingData() == updated
      ensures user == old(user) && matches == old(matches)
      ensures adminScouters == old(adminScouters) && selectedEvent == old(selectedEvent)
    {
      var existing := GetScoutingData();
      updated := existing + [entry];
      SaveScoutingData(updated);
    }

    /** `updateScoutingEntry`: merges `patch` into every entry with identity `id`. */
    method UpdateScoutingEntry(id: string, patch: EntryPatch) returns (updated: seq<ScoutingData>)
      modifies this
      ensures updated == UpdateEntries(old(GetScoutingData()), id, patch)
      ensures GetScoutingData() == updated
      ensures user == old(user) && matches == old(matches)
      ensures adminScouters == old(adminScouters) && selectedEvent == old(selectedEvent)
    {
      var existing := GetScoutingData();
      updated := UpdateEntries(existing, id, patch);
      SaveScoutingData(updated);
    }

    /** `localStorage.removeItem(key)`. */
    method RemoveItem(k: Key)
      modifies this
      ensures !Present(k)
      ensures k != UserKey ==> user == old(user)
      ensures k != MatchesKey ==> matches == old(matches)
      ensures k != ScoutingDataKey ==> scoutingData == old(scoutingData)
      ensures k != AdminScoutersKey ==> adminScouters == old(adminScouters)
      ensures k != SelectedEventKey ==> selectedEvent == old(selectedEvent)
    {
      match k
      case UserKey => user := None;
      case MatchesKey => matches := None;
      case ScoutingDataKey => scoutingData := None;
      case AdminScoutersKey => adminScouters := None;
      case SelectedEventKey => selectedEvent := None;
    }

    /** `clearAll`: removes the five keys one after another; every getter then gives its default. */
    method ClearAll()
      modifies this
      ensures forall k :: !Present(k)
      ensures GetUser() == None && GetMatches() == [] && GetScoutingData() == []
      ensures GetAdminScouters() == [] && GetSelectedEvent() == None
    {
      for i := 0 to |AllKeys|
        invariant forall j :: 0 <= j < i ==> !Present(AllKeys[j])
      {
        RemoveItem(AllKeys[i]);
      }
      forall k ensures !Present(k) {
        match k
        case UserKey => assert AllKeys[0] == k;
        case MatchesKey => assert AllKeys[1] == k;
        case ScoutingDataKey => assert AllKeys[2] == k;
        case AdminScoutersKey => assert AllKeys[3] == k;
        case SelectedEventKey => assert AllKeys[4] == k;
      }
    }
  }
}
