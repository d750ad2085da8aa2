/** The header (`src/components/Header.tsx`): the sync indicator's label and colour, and the
    sync button's disabled state. */
module Header {
  import opened Types
  import opened Text

  /** `getSyncStatusText`: fixed labels while syncing and after a sync; when idle, the number of
      unsynced entries, or "All synced" when there are none. */
  function SyncStatusText(status: SyncStatus, unsyncedCount: nat): (r: string)
    ensures status == Idle && unsyncedCount > 0 ==> r == NatToString(unsyncedCount) + " unsynced"
    ensures status == Idle && unsyncedCount == 0 ==> r == "All synced"
    ensures status == Syncing ==> r == "Syncing..."
    ensures status == Success ==> r == "Synced"
    ensures status == Error ==> r == "Sync Error"
  {
    match status
    case Syncing => "Syncing..."
    case Success => "Synced"
    case Error => "Sync Error"
    case Idle => if unsyncedCount > 0 then NatToString(unsyncedCount) + " unsynced" else "All synced"
  }

  /** `getSyncStatusColor`. */
  function SyncStatusColor(status: SyncStatus): (r: string)
    ensures status == Syncing ==> r == "text-yellow-600"
    ensures status == Success ==> r == "text-green-600"
    ensures status == Error ==> r == "text-red-600"
    ensures status == Idle ==> r == "text-gray-600"
  {
    match status
    case Syncing => "text-yellow-600"
    case Success => "text-green-600"
    case Error => "text-red-600"
    case Idle => "text-gray-600"
  }

  /** The sync button is disabled only while a sync is in flight. */
  predicate SyncButtonDisabled(status: SyncStatus) {
    status == Syncing
  }

  lemma {:induction false} UnsyncedLabelPrefix(n: nat, s: string)
    requires NatToString(n) + " unsynced" == s
    ensures forall i :: 0 <= i < |NatToString(n)| ==> IsDigit(s[i])
    ensures s[|NatToString(n)|] == ' ' && |s| == |NatToString(n)| + 9
  {
  }

  /** The label identifies the status, and while idle it identifies the unsynced count: two
      different counts never show the same label. */
  lemma SyncStatusTextInjective(s1: SyncStatus, n1: nat, s2: SyncStatus, n2: nat)
    requires SyncStatusText(s1, n1) == SyncStatusText(s2, n2)
    ensures s1 == s2
    ensures s1 == Idle ==> n1 == n2
  {
    var t := SyncStatusText(s1, n1);
    if s1 == Idle && n1 > 0 {
      UnsyncedLabelPrefix(n1, t);
    }
    if s2 == Idle && n2 > 0 {
      UnsyncedLabelPrefix(n2, t);
    }
    if s1 == Idle && s2 == Idle && n1 > 0 && n2 > 0 {
      var a, b := NatToString(n1), NatToString(n2);
      assert |a| == |b|;
      assert a == t[..|a|] == b;
      NatToStringInjective(n1, n2);
    }
  }

  /** The button is disabled exactly while the indicator reads "Syncing...". */
  lemma DisabledIffSyncingLabel(status: SyncStatus, unsyncedCount: nat)
    ensures SyncButtonDisabled(status) <==> SyncStatusText(status, unsyncedCount) == "Syncing..."
  {
    if status == Idle && unsyncedCount > 0 {
      var t := SyncStatusText(status, unsyncedCount);
      UnsyncedLabelPrefix(unsyncedCount, t);
      assert IsDigit(t[0]);
    }
  }

  /** Each status has its own colour. */
  lemma SyncStatusColorInjective(s1: SyncStatus, s2: SyncStatus)
    requires SyncStatusColor(s1) == SyncStatusColor(s2)
    ensures s1 == s2
    ensures SyncStatusColor(s1) == "text-gray-600" <==> s1 == Idle
  {
    assert SyncStatusColor(s1)[5] == SyncStatusColor(s2)[5];
  }
}
