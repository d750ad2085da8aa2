/** Roster management for the admin (`src/components/admin/ScouterManagement.tsx`): adding a
    scouter from the add form, editing one field at a time, deleting by identity, and the labels
    the roster table shows. Every roster change goes through the application's
    `HandleUpdateScouters`, which saves it. */
module ScouterManagement {
  import opened Wrappers
  import opened Types
  import opened Text
  import Seqs
  import Application

  /** The wire names of the statuses. */
  function StatusName(s: ScouterStatus): string {
    match s
    case Remote => "remote"
    case InPerson => "in-person"
    case NotScouting => "not-scouting"
  }

  /** `status.replace('-', ' ').replace(/\b\w/g, upper)`: the first hyphen becomes a space and
      every word starts with a capital. */
  function StatusLabel(s: ScouterStatus): string {
    TitleCase(ReplaceFirst(StatusName(s), "-", " "))
  }

  /** The labels the roster table shows: "Remote", "In Person" and "Not Scouting". */
  lemma StatusLabelRemote()
    ensures StatusLabel(Remote) == "Remote"
  {
    var n := "remote";
    assert ReplaceFirst(n, "-", " ") == n by {
      assert n[0] != '-';
      assert ReplaceFirst(n[6..], "-", " ") == n[6..];
      assert n[5..][0] != '-';
      assert ReplaceFirst(n[5..], "-", " ") == n[5..];
      assert n[4..][0] != '-';
      assert ReplaceFirst(n[4..], "-", " ") == n[4..];
      assert n[3..][0] != '-';
      assert ReplaceFirst(n[3..], "-", " ") == n[3..];
      assert n[2..][0] != '-';
      assert ReplaceFirst(n[2..], "-", " ") == n[2..];
      assert n[1..][0] != '-';
      assert ReplaceFirst(n[1..], "-", " ") == n[1..];
    }
    forall i | 0 <= i < |n| ensures TitleCase(n)[i] == "Remote"[i] {
    }
  }

  lemma StatusLabelInPerson()
    ensures StatusLabel(InPerson) == "In Person"
  {
    var n := "in-person";
    var spaced := "in person";
    assert ReplaceFirst(n, "-", " ") == spaced by {
      assert "-" <= n[2..];
      assert ReplaceFirst(n[2..], "-", " ") == " " + n[3..];
      assert !("-" <= n[1..]) && !("-" <= n);
    }
    forall i | 0 <= i < |spaced| ensures TitleCase(spaced)[i] == "In Person"[i] {
    }
  }

  lemma StatusLabelNotScouting()
    ensures StatusLabel(NotScouting) == "Not Scouting"
  {
    NotScoutingSpaced();
    NotScoutingTitled();
  }

  lemma NotScoutingTitled()
    ensures TitleCase("not scouting") == "Not Scouting"
  {
    var s := "not scouting";
    var t := TitleCase(s);
    assert t[0] == 'N' && t[1] == 'o' && t[2] == 't' && t[3] == ' ';
    assert t[4] == 'S' && t[5] == 'c' && t[6] == 'o' && t[7] == 'u';
    assert t[8] == 't' && t[9] == 'i' && t[10] == 'n' && t[11] == 'g';
  }

  lemma NotScoutingSpaced()
    ensures ReplaceFirst("not-scouting", "-", " ") == "not scouting"
  {
    var n := "not-scouting";
    assert "-" <= n[3..];
    assert ReplaceFirst(n[3..], "-", " ") == " " + n[4..];
    assert !("-" <= n[2..]) && !("-" <= n[1..]) && !("-" <= n);
  }

  /** `getAssignmentText`: the capitalised alliance and the position, e.g. "Red 2". */
  function AssignmentText(a: Alliance, position: int): string {
    Capitalize(AllianceName(a)) + " " + IntToString(position)
  }

  /** The label is the alliance with a capital initial, a space and the position. */
  lemma AssignmentTextShape(a: Alliance, position: int)
    ensures AssignmentText(a, position) == (if a == Red then "Red " else "Blue ") + IntToString(position)
  {
    assert Capitalize("red") == "Red" by {
      assert UpperChar('r') == 'R';
    }
    assert Capitalize("blue") == "Blue" by {
      assert UpperChar('b') == 'B';
    }
  }

  /** The assignment label tells the placement apart. */
  lemma AssignmentTextInjective(a1: Alliance, p1: int, a2: Alliance, p2: int)
    requires AssignmentText(a1, p1) == AssignmentText(a2, p2)
    ensures a1 == a2 && p1 == p2
  {
    var t := AssignmentText(a1, p1);
    assert t[0] == UpperChar(AllianceName(a1)[0]) == UpperChar(AllianceName(a2)[0]);
    assert a1 == a2;
    var k := |AllianceName(a1)| + 1;
    assert IntToString(p1) == t[k..] == IntToString(p2);
    IntToStringInjective(p1, p2);
  }

  /** `getStatusColor`. */
  function StatusColor(s: ScouterStatus): (r: string)
    ensures s == InPerson ==> r == "bg-green-100 text-green-800"
    ensures s == Remote ==> r == "bg-blue-100 text-blue-800"
    ensures s == NotScouting ==> r == "bg-gray-100 text-gray-800"
  {
    match s
    case InPerson => "bg-green-100 text-green-800"
    case Remote => "bg-blue-100 text-blue-800"
    case NotScouting => "bg-gray-100 text-gray-800"
  }

  /** `Partial<AdminScouter>` as the edit controls send it: one or more of alliance, position and
      status. */
  datatype ScouterPatch = ScouterPatch(
    assignedAlliance: Option<Alliance>,
    assignedPosition: Option<Position>,
    status: Option<ScouterStatus>)

  /** `{ ...scouter, ...updates }`. */
  function MergeScouter(s: AdminScouter, p: ScouterPatch): (r: AdminScouter)
    ensures r.id == s.id && r.name == s.name
    ensures r.assignedAlliance == p.assignedAlliance.GetOr(s.assignedAlliance)
    ensures r.assignedPosition == p.assignedPosition.GetOr(s.assignedPosition)
    ensures r.status == p.status.GetOr(s.status)
  {
    s.(assignedAlliance := p.assignedAlliance.GetOr(s.assignedAlliance),
       assignedPosition := p.assignedPosition.GetOr(s.assignedPosition),
       status := p.status.GetOr(s.status))
  }

  /** The roster after `handleUpdateScouter`: every row with the identity is patched, order and
      length are kept, every other row is untouched. */
  function UpdateScouters(roster: seq<AdminScouter>, id: string, p: ScouterPatch): (r: seq<AdminScouter>)
    ensures |r| == |roster|
    ensures forall i :: 0 <= i < |roster| ==> r[i].id == roster[i].id && r[i].name == roster[i].name
    ensures forall i :: 0 <= i < |roster| && roster[i].id == id ==> r[i] == MergeScouter(roster[i], p)
    ensures forall i :: 0 <= i < |roster| && roster[i].id != id ==> r[i] == roster[i]
  {
    seq(|roster|, i requires 0 <= i < |roster| =>
      if roster[i].id == id then MergeScouter(roster[i], p) else roster[i])
  }

  /** Editing an identity that is not on the roster changes nothing. */
  lemma UpdateScoutersUnknownId(roster: seq<AdminScouter>, id: string, p: ScouterPatch)
    requires forall i :: 0 <= i < |roster| ==> roster[i].id != id
    ensures UpdateScouters(roster, id, p) == roster
  {
  }

  /** Applying the same edit twice is applying it once. */
  lemma UpdateScoutersIdempotent(roster: seq<AdminScouter>, id: string, p: ScouterPatch)
    ensures UpdateScouters(UpdateScouters(roster, id, p), id, p) == UpdateScouters(roster, id, p)
  {
  }

  predicate HasId(s: AdminScouter, id: string) {
    s.id == id
  }

  /** The roster after `handleDeleteScouter`: the rows without the identity, in their order. */
  function DeleteScouter(roster: seq<AdminScouter>, id: string): (r: seq<AdminScouter>)
    ensures forall i :: 0 <= i < |r| ==> r[i].id != id && r[i] in roster
    ensures forall i :: 0 <= i < |roster| && roster[i].id != id ==> roster[i] in r
    ensures forall x {:trigger multiset(r)[x]} :: multiset(r)[x] == if x.id == id then 0 else multiset(roster)[x]
    ensures Seqs.IsSubsequence(r, roster)
  {
    Seqs.FilterIsSubsequence(roster, (s: AdminScouter) => !HasId(s, id));
    Seqs.FilterMultiset(roster, (s: AdminScouter) => !HasId(s, id));
    Seqs.Filter(roster, (s: AdminScouter) => !HasId(s, id))
  }

  /** Deleting an identity that is not on the roster changes nothing. */
  lemma DeleteScouterUnknownId(roster: seq<AdminScouter>, id: string)
    requires forall i :: 0 <= i < |roster| ==> roster[i].id != id
    ensures DeleteScouter(roster, id) == roster
  {
    Seqs.FilterKeepsAll(roster, (s: AdminScouter) => !HasId(s, id));
  }

  /** Deleting twice is deleting once. */
  lemma DeleteScouterIdempotent(roster: seq<AdminScouter>, id: string)
    ensures DeleteScouter(DeleteScouter(roster, id), id) == DeleteScouter(roster, id)
  {
    DeleteScouterUnknownId(DeleteScouter(roster, id), id);
  }

  /** The row `handleAddScouter` appends: identity from the clock, trimmed name. */
  function NewScouter(name: string, alliance: Alliance, position: Position, status: ScouterStatus,
                      now: nat): (s: AdminScouter)
    ensures s.id == NatToString(now) && s.name == Trim(name)
    ensures s.assignedAlliance == alliance && s.assignedPosition == position && s.status == status
  {
    AdminScouter(NatToString(now), Trim(name), alliance, position, status)
  }

  class RosterEditor {
    const app: Application.App
    var editingId: Option<string>
    var showAddForm: bool
    var deleteConfirm: Option<string>
    var newName: string
    var newAlliance: Alliance
    var newPosition: Position
    var newStatus: ScouterStatus

    /** Nothing is being edited or deleted; the add form is hidden and holds its defaults. */
    predicate AddFormReset()
      reads this
    {
      newName == "" && newAlliance == Red && newPosition == 1 && newStatus == InPerson
    }

    /** Of the app and its store, at most the roster has changed since the call began. */
    twostate predicate OnlyRosterChanged()
      reads this, app, app.store
    {
      && app.store.user == old(app.store.user) && app.store.matches == old(app.store.matches)
      && app.store.scoutingData == old(app.store.scoutingData)
      && app.store.selectedEvent == old(app.store.selectedEvent)
      && app.user == old(app.user) && app.matches == old(app.matches)
      && app.scoutingData == old(app.scoutingData) && app.currentMatch == old(app.currentMatch)
      && app.isOnline == old(app.isOnline) && app.syncStatus == old(app.syncStatus)
      && app.isAdmin == old(app.isAdmin) && app.selectedEvent == old(app.selectedEvent)
      && app.pendingIdleResets == old(app.pendingIdleResets)
    }

    /** The add form's fields are as they were when the call began. */
    twostate predicate AddFormUnchanged()
      reads this
    {
      newName == old(newName) && newAlliance == old(newAlliance)
      && newPosition == old(newPosition) && newStatus == old(newStatus)
    }

    constructor (app: Application.App)
      ensures this.app == app && editingId == None && !showAddForm && deleteConfirm == None
      ensures AddFormReset()
    {
      this.app := app;
      editingId, showAddForm, deleteConfirm := None, false, None;
      newName, newAlliance, newPosition, newStatus := "", Red, 1, InPerson;
    }

    /** `handleAddScouter`: a blank name does nothing; otherwise the new row is appended and
        saved, the add form is reset and hidden. `now` is `Date.now()`. */
    method HandleAddScouter(now: nat)
      modifies this, app, app.store
      ensures AllWhitespace(old(newName)) ==> unchanged(this) && unchanged(app) && unchanged(app.store)
      ensures !AllWhitespace(old(newName)) ==>
        app.adminScouters == old(app.adminScouters)
          + [NewScouter(old(newName), old(newAlliance), old(newPosition), old(newStatus), now)]
      ensures !AllWhitespace(old(newName)) ==>
        app.store.GetAdminScouters() == app.adminScouters && AddFormReset() && !showAddForm
      ensures editingId == old(editingId) && deleteConfirm == old(deleteConfirm)
      ensures OnlyRosterChanged()
    {
      var name := Trim(newName);
      assert name == [] <==> AllWhitespace(newName) by {
        TrimEmptyIff(newName);
      }
      if name == [] {
        return;
      }
      AppendAndReset(NewScouter(newName, newAlliance, newPosition, newStatus, now));
    }

    /** The non-blank path of `handleAddScouter`. */
    method AppendAndReset(added: AdminScouter)
      modifies this, app, app.store
      ensures app.adminScouters == old(app.adminScouters) + [added]
      ensures app.store.GetAdminScouters() == app.adminScouters && AddFormReset() && !showAddForm
      ensures editingId == old(editingId) && deleteConfirm == old(deleteConfirm)
      ensures OnlyRosterChanged()
    {
      app.HandleUpdateScouters(app.adminScouters + [added]);
      newName, newAlliance, newPosition, newStatus := "", Red, 1, InPerson;
      showAddForm := false;
    }

    /** `handleUpdateScouter`: the patched roster is saved and editing ends. */
    method HandleUpdateScouter(id: string, p: ScouterPatch)
      modifies this, app, app.store
      ensures app.adminScouters == UpdateScouters(old(app.adminScouters), id, p)
      ensures app.store.GetAdminScouters() == app.adminScouters
      ensures editingId == None && deleteConfirm == old(deleteConfirm) && showAddForm == old(showAddForm)
      ensures AddFormUnchanged()
      ensures OnlyRosterChanged()
    {
      app.HandleUpdateScouters(UpdateScouters(app.adminScouters, id, p));
      editingId := None;
    }

    /** `handleDeleteScouter`: the filtered roster is saved and the confirmation closes. */
    method HandleDeleteScouter(id: string)
      modifies this, app, app.store
      ensures app.adminScouters == DeleteScouter(old(app.adminScouters), id)
      ensures app.store.GetAdminScouters() == app.adminScouters
      ensures deleteConfirm == None && editingId == old(editingId) && showAddForm == old(showAddForm)
      ensures AddFormUnchanged()
      ensures OnlyRosterChanged()
    {
      app.HandleUpdateScouters(DeleteScouter(app.adminScouters, id));
      deleteConfirm := None;
    }
  }
}
