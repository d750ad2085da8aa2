/** The application shell (`src/App.tsx`): the in-memory `AppState`, the handlers that update it
    and the store together, the sync coordinator, and the small lookups it hands to the views.
    Timers are explicit methods, `Date.now()` and `navigator.onLine` are parameters and the remote
    push is a function parameter standing for `sheets.syncData` (true iff the POST was answered
    with a success status). */
module Application {
  import opened Wrappers
  import opened Types
  import opened Text
  import opened Storage

  const AdminUsername: string := "admin6560"

  /** `getMockMatches()`: the fixture shown when no match list is stored. */
  const MockMatches: seq<Match> := [
    Match(1, [1234, 5678, 9012], [3456, 7890, 1357], None, None, None),
    Match(2, [2468, 1357, 9753], [8642, 1234, 5678], None, None, None),
    Match(3, [7890, 3456, 2468], [9012, 9753, 8642], None, None, None)]

  /** `${matchNumber}-${teamNumber}-${Date.now()}`. */
  function EntryId(matchNumber: int, teamNumber: int, now: int): string {
    IntToString(matchNumber) + "-" + IntToString(teamNumber) + "-" + IntToString(now)
  }

  lemma {:induction false} SplitAtFirstDash(a: string, b: string, c: string, d: string)
    requires forall i :: 0 <= i < |a| ==> IsDigit(a[i])
    requires forall i :: 0 <= i < |c| ==> IsDigit(c[i])
    requires a + "-" + b == c + "-" + d
    ensures a == c && b == d
  {
    var x := a + "-" + b;
    assert forall i :: 0 <= i < |a| ==> x[i] == a[i];
    assert forall i :: 0 <= i < |c| ==> x[i] == c[i];
    assert x[|a|] == '-' && x[|c|] == '-';
    assert |a| == |c|;
    assert a == x[..|a|] == c;
    assert b == x[|a| + 1..] == d;
  }

  /** Two entry identities coincide only for the same match, team and millisecond. */
  lemma EntryIdInjective(m1: nat, t1: nat, n1: nat, m2: nat, t2: nat, n2: nat)
    requires EntryId(m1, t1, n1) == EntryId(m2, t2, n2)
    ensures m1 == m2 && t1 == t2 && n1 == n2
  {
    var a1, b1, c1 := IntToString(m1), IntToString(t1), IntToString(n1);
    var a2, b2, c2 := IntToString(m2), IntToString(t2), IntToString(n2);
    assert EntryId(m1, t1, n1) == a1 + "-" + (b1 + "-" + c1);
    assert EntryId(m2, t2, n2) == a2 + "-" + (b2 + "-" + c2);
    SplitAtFirstDash(a1, b1 + "-" + c1, a2, b2 + "-" + c2);
    SplitAtFirstDash(b1, c1, b2, c2);
    IntToStringInjective(m1, m2);
    IntToStringInjective(t1, t2);
    IntToStringInjective(n1, n2);
  }

  /** The entry `handleScoutingSubmit` builds: two `Date.now()` reads (one for the identity, one for
      the timestamp), unsynced, tagged with the selected event unless none (or `""`) is selected. */
  function NewEntry(data: Submission, idClock: int, clock: int, selectedEvent: Option<string>): (e: ScoutingData)
    ensures e.id == EntryId(data.matchNumber, data.teamNumber, idClock) && e.timestamp == clock
    ensures e.matchNumber == data.matchNumber && e.teamNumber == data.teamNumber
    ensures e.scouterUsername == data.scouterUsername
    ensures e.l1Count == data.l1Count && e.l2Count == data.l2Count
    ensures e.l3Count == data.l3Count && e.l4Count == data.l4Count
    ensures e.climbStatus == data.climbStatus && e.notes == data.notes
    ensures !e.synced
    ensures e.eventKey == (if Truthy(selectedEvent) then selectedEvent else None)
  {
    ScoutingData(
      EntryId(data.matchNumber, data.teamNumber, idClock),
      data.matchNumber, data.teamNumber, data.scouterUsername, clock,
      data.l1Count, data.l2Count, data.l3Count, data.l4Count, data.climbStatus, data.notes,
      false,
      if Truthy(selectedEvent) then selectedEvent else None)
  }

  /** `unsyncedCount`. */
  function UnsyncedCount(data: seq<ScoutingData>): nat {
    |Unsynced(data)|
  }

  /** A new (unsynced) entry raises the unsynced count by exactly one. */
  lemma UnsyncedCountAfterAdd(data: seq<ScoutingData>, e: ScoutingData)
    requires !e.synced
    ensures UnsyncedCount(data + [e]) == UnsyncedCount(data) + 1
  {
    UnsyncedAppend(data, e);
  }

  /** `scoutedMatches`: the match number of every entry, in entry order. */
  function ScoutedMatches(data: seq<ScoutingData>): (r: seq<int>)
    ensures |r| == |data|
    ensures forall m :: m in r <==> exists i :: 0 <= i < |data| && data[i].matchNumber == m
  {
    var r := seq(|data|, i requires 0 <= i < |data| => data[i].matchNumber);
    assert forall i :: 0 <= i < |data| ==> r[i] == data[i].matchNumber;
    r
  }

  /** Roster lookup by name, ignoring (ASCII) case. */
  predicate NameMatches(s: AdminScouter, username: string) {
    ToLower(s.name) == ToLower(username)
  }

  /** `adminScouters.find(...)` as an index: the first roster row whose name matches. */
  function FindByName(roster: seq<AdminScouter>, username: string): (r: Option<nat>)
    ensures r.Some? ==> r.value < |roster| && NameMatches(roster[r.value], username)
    ensures r.Some? ==> forall j :: 0 <= j < r.value ==> !NameMatches(roster[j], username)
    ensures r.None? ==> forall j :: 0 <= j < |roster| ==> !NameMatches(roster[j], username)
  {
    if roster == [] then None
    else if NameMatches(roster[0], username) then Some(0)
    else
      match FindByName(roster[1..], username)
      case None => None
      case Some(k) => Some(k + 1)
  }

  /** `getUserAssignment`: a user for `username` placed where the first matching roster row says,
      with team 0 (decided per match); `None` when no row matches. */
  function UserAssignment(roster: seq<AdminScouter>, username: string): (r: Option<User>)
    ensures r.None? <==> forall j :: 0 <= j < |roster| ==> !NameMatches(roster[j], username)
    ensures r.Some? ==> (exists i :: 0 <= i < |roster| && NameMatches(roster[i], username)
                                      && (forall j :: 0 <= j < i ==> !NameMatches(roster[j], username))
                                      && r.value == User(username, 0, roster[i].assignedAlliance, roster[i].assignedPosition))
  {
    match FindByName(roster, username)
    case None => None
    case Some(i) => Some(User(username, 0, roster[i].assignedAlliance, roster[i].assignedPosition))
  }

  /** The list the sync success path writes, as the source computes it: every entry of the list
      it is given, marked synced. */
  function MarkAllSynced(s: seq<ScoutingData>): (r: seq<ScoutingData>)
    ensures |r| == |s|
    ensures forall i :: 0 <= i < |s| ==> r[i] == s[i].(synced := true)
  {
    seq(|s|, i requires 0 <= i < |s| => if s[i].synced then s[i] else s[i].(synced := true))
  }

  /** After a successful sync of a list, nothing in it is unsynced. */
  lemma MarkAllSyncedLeavesNothingUnsynced(s: seq<ScoutingData>)
    ensures Unsynced(MarkAllSynced(s)) == []
  {
    var m := MarkAllSynced(s);
    assert forall x :: x in m ==> x.synced;
    assert |Unsynced(m)| == 0;
  }

  /** Identities of a batch. */
  function Ids(s: seq<ScoutingData>): set<string> {
    set i | 0 <= i < |s| :: s[i].id
  }

  /** Reconciliation by identity: the entries whose identity was in the pushed batch are marked
      synced; every other entry is left as it is. */
  function MarkSent(s: seq<ScoutingData>, sent: set<string>): (r: seq<ScoutingData>)
    ensures |r| == |s|
    ensures forall i :: 0 <= i < |s| && s[i].id in sent ==> r[i] == s[i].(synced := true)
    ensures forall i :: 0 <= i < |s| && s[i].id !in sent ==> r[i] == s[i]
  {
    seq(|s|, i requires 0 <= i < |s| => if s[i].id in sent then s[i].(synced := true) else s[i])
  }

  /** Finding, as written: when the sync scheduled by a submission runs, it writes the list it
      captured before the submission. The store held that list plus the new entry; afterwards it
      holds one entry fewer, and no entry with the new entry's identity. */
  lemma StaleSnapshotDropsNewEntry(before: seq<ScoutingData>, e: ScoutingData)
    ensures |MarkAllSynced(before)| == |before + [e]| - 1
    ensures e.id !in Ids(before) ==> forall x :: x in MarkAllSynced(before) ==> x.id != e.id
  {
    if e.id !in Ids(before) {
      forall x | x in MarkAllSynced(before) ensures x.id != e.id {
        var i :| 0 <= i < |before| && MarkAllSynced(before)[i] == x;
        assert before[i].id in Ids(before);
      }
    }
  }

  /** Corrected reconciliation never loses an entry and only ever sets the synced flag. */
  lemma MarkSentKeepsEntries(s: seq<ScoutingData>, sent: set<string>)
    ensures |MarkSent(s, sent)| == |s|
    ensures forall i :: 0 <= i < |s| ==> MarkSent(s, sent)[i].(synced := s[i].synced) == s[i]
    ensures forall i :: 0 <= i < |s| && s[i].synced ==> MarkSent(s, sent)[i].synced
  {
  }

  /** When the list it is given is the stored one, the source's write and the corrected one agree. */
  lemma MarkSentOfUnsyncedIsMarkAll(s: seq<ScoutingData>)
    ensures MarkSent(s, Ids(Unsynced(s))) == MarkAllSynced(s)
  {
    var u := Unsynced(s);
    forall i | 0 <= i < |s| ensures MarkSent(s, Ids(u))[i] == MarkAllSynced(s)[i] {
      if !s[i].synced {
        var k :| 0 <= k < |u| && u[k] == s[i];
        assert u[k].id in Ids(u);
      }
    }
  }

  /** Corrected reconciliation after a submission: the store keeps every entry, the new one
      included and last, each changed at most in its synced flag, and nothing is left unsynced. */
  lemma ReconcileAfterSubmit(before: seq<ScoutingData>, e: ScoutingData)
    ensures MarkSent(before + [e], Ids(Unsynced(before + [e]))) == MarkAllSynced(before + [e])
    ensures |MarkSent(before + [e], Ids(Unsynced(before + [e])))| == |before| + 1
    ensures forall i :: 0 <= i < |before| ==>
              MarkSent(before + [e], Ids(Unsynced(before + [e])))[i] == before[i].(synced := true)
    ensures MarkSent(before + [e], Ids(Unsynced(before + [e])))[|before|] == e.(synced := true)
    ensures Unsynced(MarkSent(before + [e], Ids(Unsynced(before + [e])))) == []
  {
    MarkSentOfUnsyncedIsMarkAll(before + [e]);
    MarkAllSyncedLeavesNothingUnsynced(before + [e]);
  }

  /** Corrected reconciliation when an entry arrives while the push is in flight: the entry was
      not in the batch, so it stays unsynced for the next sync. */
  lemma ReconcileSparesLateEntry(before: seq<ScoutingData>, e: ScoutingData)
    requires !e.synced && e.id !in Ids(Unsynced(before))
    ensures Unsynced(MarkSent(before + [e], Ids(Unsynced(before)))) == [e]
  {
    var sent := Ids(Unsynced(before));
    var r := MarkSent(before + [e], sent);
    assert r == MarkSent(before, sent) + [e];
    MarkSentOfUnsyncedIsMarkAll(before);
    MarkAllSyncedLeavesNothingUnsynced(before);
    UnsyncedAppend(MarkSent(before, sent), e);
  }

  class App {
    const store: Store
    var user: Option<User>
    var matches: seq<Match>
    var scoutingData: seq<ScoutingData>
    var currentMatch: Option<Match>
    var isOnline: bool
    var syncStatus: SyncStatus
    var isAdmin: bool
    var adminScouters: seq<AdminScouter>
    var selectedEvent: Option<string>
    /** 3-second idle-reset timers scheduled and not yet fired. */
    var pendingIdleResets: nat

    constructor (store: Store, online: bool)
      ensures this.store == store
      ensures user == None && matches == [] && scoutingData == [] && currentMatch == None
      ensures isOnline == online && syncStatus == Idle && !isAdmin
      ensures adminScouters == [] && selectedEvent == None && pendingIdleResets == 0
    {
      this.store := store;
      user, matches, scoutingData, currentMatch := None, [], [], None;
      isOnline, syncStatus, isAdmin := online, Idle, false;
      adminScouters, selectedEvent, pendingIdleResets := [], None, 0;
    }

    /** The in-memory entry list is the stored one. */
    predicate Mirrors()
      reads this, store
    {
      scoutingData == store.GetScoutingData()
    }

    /** Mount-time load: every slot is read; an empty stored match list is replaced by the
        fixture, which is then saved. */
    method Mount()
      modifies this, store
      ensures user == old(store.GetUser()) && scoutingData == old(store.GetScoutingData())
      ensures adminScouters == old(store.GetAdminScouters()) && selectedEvent == old(store.GetSelectedEvent())
      ensures matches == (if |old(store.GetMatches())| > 0 then old(store.GetMatches()) else MockMatches)
      ensures store.GetMatches() == matches && Mirrors()
      ensures store.user == old(store.user) && store.scoutingData == old(store.scoutingData)
      ensures store.adminScouters == old(store.adminScouters) && store.selectedEvent == old(store.selectedEvent)
      ensures currentMatch == old(currentMatch) && isOnline == old(isOnline) && syncStatus == old(syncStatus)
      ensures isAdmin == old(isAdmin) && pendingIdleResets == old(pendingIdleResets)
    {
      var savedMatches := store.GetMatches();
      user := store.GetUser();
      matches := if |savedMatches| > 0 then savedMatches else MockMatches;
      scoutingData := store.GetScoutingData();
      adminScouters := store.GetAdminScouters();
      selectedEvent := store.GetSelectedEvent();
      if |savedMatches| == 0 {
        store.SaveMatches(MockMatches);
      }
    }

    /** `handleLogin`: the admin flag is an exact comparison with the admin name. */
    method HandleLogin(u: User)
      modifies this, store
      ensures user == Some(u) && store.GetUser() == Some(u)
      ensures isAdmin <==> u.username == AdminUsername
      ensures store.matches == old(store.matches) && store.scoutingData == old(store.scoutingData)
      ensures store.adminScouters == old(store.adminScouters) && store.selectedEvent == old(store.selectedEvent)
      ensures matches == old(matches) && scoutingData == old(scoutingData) && currentMatch == old(currentMatch)
      ensures isOnline == old(isOnline) && syncStatus == old(syncStatus) && adminScouters == old(adminScouters)
      ensures selectedEvent == old(selectedEvent) && pendingIdleResets == old(pendingIdleResets)
    {
      isAdmin := u.username == AdminUsername;
      store.SaveUser(u);
      user := Some(u);
    }

    /** `handleLogout`: the store is cleared and the state reset; `online` is `navigator.onLine`.
        Idle-reset timers already scheduled are not cancelled. */
    method HandleLogout(online: bool)
      modifies this, store
      ensures store.GetUser() == None && store.GetMatches() == [] && store.GetScoutingData() == []
      ensures store.GetAdminScouters() == [] && store.GetSelectedEvent() == None
      ensures user == None && matches == MockMatches && scoutingData == [] && currentMatch == None
      ensures isOnline == online && syncStatus == Idle && !isAdmin && adminScouters == []
      ensures selectedEvent == None && pendingIdleResets == old(pendingIdleResets)
    {
      store.ClearAll();
      user, matches, scoutingData, currentMatch := None, MockMatches, [], None;
      isOnline, syncStatus, isAdmin := online, Idle, false;
      adminScouters, selectedEvent := [], None;
    }

    /** `handleUpdateScouters`: the roster is saved and mirrored in memory. */
    method HandleUpdateScouters(scouters: seq<AdminScouter>)
      modifies this, store
      ensures adminScouters == scouters && store.GetAdminScouters() == scouters
      ensures store.user == old(store.user) && store.matches == old(store.matches)
      ensures store.scoutingData == old(store.scoutingData) && store.selectedEvent == old(store.selectedEvent)
      ensures user == old(user) && matches == old(matches) && scoutingData == old(scoutingData)
      ensures currentMatch == old(currentMatch) && isOnline == old(isOnline) && syncStatus == old(syncStatus)
      ensures isAdmin == old(isAdmin) && selectedEvent == old(selectedEvent)
      ensures pendingIdleResets == old(pendingIdleResets)
    {
      store.SaveAdminScouters(scouters);
      adminScouters := scouters;
    }

    /** `handleEventSelect`. */
    method HandleEventSelect(eventKey: string)
      modifies this, store
      ensures selectedEvent == Some(eventKey) && store.GetSelectedEvent() == Some(eventKey)
      ensures store.user == old(store.user) && store.matches == old(store.matches)
      ensures store.scoutingData == old(store.scoutingData) && store.adminScouters == old(store.adminScouters)
      ensures user == old(user) && matches == old(matches) && scoutingData == old(scoutingData)
      ensures currentMatch == old(currentMatch) && isOnline == old(isOnline) && syncStatus == old(syncStatus)
      ensures isAdmin == old(isAdmin) && adminScouters == old(adminScouters)
      ensures pendingIdleResets == old(pendingIdleResets)
    {
      store.SaveSelectedEvent(eventKey);
      selectedEvent := Some(eventKey);
    }

    /** `handleSelectMatch` and `handleBackToMatches`. */
    method HandleSelectMatch(m: Option<Match>)
      modifies this
      ensures currentMatch == m
      ensures user == old(user) && matches == old(matches) && scoutingData == old(scoutingData)
      ensures isOnline == old(isOnline) && syncStatus == old(syncStatus) && isAdmin == old(isAdmin)
      ensures adminScouters == old(adminScouters) && selectedEvent == old(selectedEvent)
      ensures pendingIdleResets == old(pendingIdleResets)
    {
      currentMatch := m;
    }

    /** `syncData`, as written. `snapshot` is the `appState.scoutingData` of the render whose closure
        runs; the batch comes from the store. Offline: nothing happens. Nothing unsynced: success
        without a push and without a reset timer. Otherwise the batch is pushed once; success
        writes `snapshot` with every entry marked synced, failure changes no entry; either way one
        idle reset is scheduled. */
    method SyncData(snapshot: seq<ScoutingData>, push: seq<ScoutingData> -> bool) returns (pushed: Option<seq<ScoutingData>>)
      modifies this, store
      ensures !old(isOnline) ==> pushed == None && unchanged(this) && unchanged(store)
      ensures old(isOnline) && old(store.GetUnsyncedData()) == [] ==>
        pushed == None && syncStatus == Success && unchanged(store)
        && scoutingData == old(scoutingData) && pendingIdleResets == old(pendingIdleResets)
      ensures old(isOnline) && old(store.GetUnsyncedData()) != [] ==>
        pushed == Some(old(store.GetUnsyncedData())) && pendingIdleResets == old(pendingIdleResets) + 1
      ensures pushed.Some? && push(pushed.value) ==>
        syncStatus == Success && scoutingData == MarkAllSynced(snapshot)
        && store.GetScoutingData() == MarkAllSynced(snapshot) && store.OnlyEntriesChanged()
      ensures pushed.Some? && !push(pushed.value) ==>
        syncStatus == Error && unchanged(store) && scoutingData == old(scoutingData)
      ensures user == old(user) && matches == old(matches) && currentMatch == old(currentMatch)
      ensures isOnline == old(isOnline) && isAdmin == old(isAdmin)
      ensures adminScouters == old(adminScouters) && selectedEvent == old(selectedEvent)
    {
      pushed := None;
      if !isOnline {
        return;
      }
      var unsynced := store.GetUnsyncedData();
      if |unsynced| == 0 {
        syncStatus := Success;
        return;
      }
      syncStatus := Syncing;
      pushed := Some(unsynced);
      if push(unsynced) {
        var updated := MarkAllSynced(snapshot);
        store.SaveScoutingData(updated);
        scoutingData := updated;
        syncStatus := Success;
      } else {
        syncStatus := Error;
      }
      pendingIdleResets := pendingIdleResets + 1;
    }

    /** `syncData` corrected: the identities of the batch are captured before the push, and on
        success the entries of the list stored at that moment with those identities are marked
        synced. */
    method SyncDataReconciled(push: seq<ScoutingData> -> bool) returns (pushed: Option<seq<ScoutingData>>)
      modifies this, store
      ensures !old(isOnline) ==> pushed == None && unchanged(this) && unchanged(store)
      ensures old(isOnline) && old(store.GetUnsyncedData()) == [] ==>
        pushed == None && syncStatus == Success && unchanged(store)
        && scoutingData == old(scoutingData) && pendingIdleResets == old(pendingIdleResets)
      ensures old(isOnline) && old(store.GetUnsyncedData()) != [] ==>
        pushed == Some(old(store.GetUnsyncedData())) && pendingIdleResets == old(pendingIdleResets) + 1
      ensures pushed.Some? && push(pushed.value) ==>
        syncStatus == Success && scoutingData == store.GetScoutingData()
        && store.GetScoutingData() == MarkSent(old(store.GetScoutingData()), Ids(pushed.value))
        && store.OnlyEntriesChanged()
      ensures pushed.Some? && !push(pushed.value) ==>
        syncStatus == Error && unchanged(store) && scoutingData == old(scoutingData)
      ensures user == old(user) && matches == old(matches) && currentMatch == old(currentMatch)
      ensures isOnline == old(isOnline) && isAdmin == old(isAdmin)
      ensures adminScouters == old(adminScouters) && selectedEvent == old(selectedEvent)
    {
      pushed := None;
      if !isOnline {
        return;
      }
      var unsynced := store.GetUnsyncedData();
      if |unsynced| == 0 {
        syncStatus := Success;
        return;
      }
      syncStatus := Syncing;
      pushed := Some(unsynced);
      var sent := Ids(unsynced);
      if push(unsynced) {
        var current := store.GetScoutingData();
        var updated := MarkSent(current, sent);
        store.SaveScoutingData(updated);
        scoutingData := updated;
        syncStatus := Success;
      } else {
        syncStatus := Error;
      }
      pendingIdleResets := pendingIdleResets + 1;
    }

    /** One scheduled 3-second timer fires: the status returns to idle, whatever it is now. */
    method IdleResetFires()
      modifies this
      ensures old(pendingIdleResets) > 0 ==> syncStatus == Idle && pendingIdleResets == old(pendingIdleResets) - 1
      ensures old(pendingIdleResets) == 0 ==> syncStatus == old(syncStatus) && pendingIdleResets == 0
      ensures user == old(user) && matches == old(matches) && scoutingData == old(scoutingData)
      ensures currentMatch == old(currentMatch) && isOnline == old(isOnline) && isAdmin == old(isAdmin)
      ensures adminScouters == old(adminScouters) && selectedEvent == old(selectedEvent)
    {
      if pendingIdleResets > 0 {
        syncStatus := Idle;
        pendingIdleResets := pendingIdleResets - 1;
      }
    }

    /** `handleScoutingSubmit`: builds the entry, appends it through the store, leaves the form and
        reports whether the 500 ms auto-sync is scheduled (only when online). */
    method HandleScoutingSubmit(data: Submission, idClock: int, clock: int) returns (autoSync: bool)
      modifies this, store
      ensures store.GetScoutingData() == old(store.GetScoutingData()) + [NewEntry(data, idClock, clock, old(selectedEvent))]
      ensures scoutingData == store.GetScoutingData() && store.OnlyEntriesChanged()
      ensures currentMatch == None && autoSync == isOnline
      ensures user == old(user) && matches == old(matches) && isOnline == old(isOnline)
      ensures syncStatus == old(syncStatus) && isAdmin == old(isAdmin) && adminScouters == old(adminScouters)
      ensures selectedEvent == old(selectedEvent) && pendingIdleResets == old(pendingIdleResets)
    {
      var entry := NewEntry(data, idClock, clock, selectedEvent);
      var updated := store.AddScoutingEntry(entry);
      scoutingData := updated;
      currentMatch := None;
      autoSync := isOnline;
    }

    /** A submission followed by the auto-sync it schedules, as written: the scheduled call runs
        the `syncData` closure of the render before the submission, whose entry list lacks the new
        entry. When the push succeeds the store ends with the old entries only. */
    method SubmitThenAutoSyncAsWritten(data: Submission, idClock: int, clock: int, push: seq<ScoutingData> -> bool)
      returns (pushed: Option<seq<ScoutingData>>)
      requires Mirrors()
      modifies this, store
      ensures old(isOnline) ==> pushed == Some(old(store.GetUnsyncedData()) + [NewEntry(data, idClock, clock, old(selectedEvent))])
      ensures old(isOnline) && push(pushed.value) ==>
        store.GetScoutingData() == MarkAllSynced(old(store.GetScoutingData()))
        && |store.GetScoutingData()| == |old(store.GetScoutingData())|
      ensures !old(isOnline) ==>
        pushed == None && store.GetScoutingData() == old(store.GetScoutingData()) + [NewEntry(data, idClock, clock, old(selectedEvent))]
    {
      var snapshot := scoutingData;
      var entry := NewEntry(data, idClock, clock, selectedEvent);
      UnsyncedAppend(store.GetScoutingData(), entry);
      var autoSync := HandleScoutingSubmit(data, idClock, clock);
      pushed := None;
      if autoSync {
        pushed := SyncData(snapshot, push);
      }
    }

    /** A submission followed by the corrected auto-sync: the store always gains exactly the new
        entry, and after a successful push nothing stored is unsynced. Offline, the status is left
        as it was. */
    method SubmitThenAutoSync(data: Submission, idClock: int, clock: int, push: seq<ScoutingData> -> bool)
      returns (pushed: Option<seq<ScoutingData>>)
      modifies this, store
      ensures |store.GetScoutingData()| == |old(store.GetScoutingData())| + 1
      ensures old(isOnline) ==> pushed == Some(old(store.GetUnsyncedData()) + [NewEntry(data, idClock, clock, old(selectedEvent))])
      ensures old(isOnline) && push(pushed.value) ==> syncStatus == Success && store.GetUnsyncedData() == []
      ensures old(isOnline) && push(pushed.value) ==>
        store.GetScoutingData() == MarkAllSynced(old(store.GetScoutingData()) + [NewEntry(data, idClock, clock, old(selectedEvent))])
      ensures old(isOnline) && push(pushed.value) ==>
        store.GetScoutingData()[|old(store.GetScoutingData())|] == NewEntry(data, idClock, clock, old(selectedEvent)).(synced := true)
      ensures old(isOnline) && !push(pushed.value) ==>
        syncStatus == Error && store.GetScoutingData() == old(store.GetScoutingData()) + [NewEntry(data, idClock, clock, old(selectedEvent))]
      ensures !old(isOnline) ==>
        pushed == None && syncStatus == old(syncStatus) && UnsyncedCount(store.GetScoutingData()) == UnsyncedCount(old(store.GetScoutingData())) + 1
    {
      var before := store.GetScoutingData();
      var entry := NewEntry(data, idClock, clock, selectedEvent);
      UnsyncedAppend(before, entry);
      var autoSync := HandleScoutingSubmit(data, idClock, clock);
      pushed := None;
      if autoSync {
        pushed := SyncDataReconciled(push);
        if push(pushed.value) {
          ReconcileAfterSubmit(before, entry);
        }
      }
    }
  }
}
