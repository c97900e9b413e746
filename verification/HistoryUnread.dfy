// The counts and the selection of a viewer's history: ids stay unique, at most
// 256 entries are held, the entries unread since the last opening are exactly
// the newest `unreadCount`, and the selected entry is always held.
module HistoryUnread {
  import opened Options
  import opened Notifications
  import opened ToastQueue
  import opened HistoryView

  predicate AreUnique(entries: seq<NotificationEntry>) {
    forall i, j :: 0 <= i < j < |entries| ==> entries[i].notificationId != entries[j].notificationId
  }

  predicate IsHeld(entries: seq<NotificationEntry>, id: NotificationId) {
    exists i :: 0 <= i < |entries| && entries[i].notificationId == id
  }

  // The count reads as flags on the entries: the newest `unreadCount` are the
  // ones in `unreadIds`.
  predicate IsUnreadSuffix(entries: seq<NotificationEntry>, unreadCount: nat, unreadIds: set<NotificationId>) {
    && unreadCount <= |entries|
    && forall i :: 0 <= i < |entries| ==> (i + unreadCount >= |entries| <==> entries[i].notificationId in unreadIds)
  }

  predicate IsSelectionHeld(view: HistoryView) {
    && (SelectedId(view).Some? ==> IsHeld(view.entries, SelectedId(view).value))
    && (IsOpen(view) && SelectedId(view).None? ==> view.entries == [])
  }

  predicate IsSound(view: HistoryView, unreadIds: set<NotificationId>) {
    && AreUnique(view.entries)
    && |view.entries| <= MAX_MERGED_NOTIFICATION_COUNT
    && IsUnreadSuffix(view.entries, view.unreadCount, unreadIds)
    && (IsOpen(view) ==> view.unreadCount == 0)
    && IsSelectionHeld(view)
  }

  // The ids that arrived while the center was not open, since it last opened.
  function UnreadAfter(view: HistoryView, unreadIds: set<NotificationId>, change: HistoryChange): set<NotificationId> {
    match change
    case Arrive(entry, _) =>
      if IsOpen(view) then unreadIds - {entry.notificationId} else unreadIds + {entry.notificationId}
    case Open => {}
    case Report(_) => unreadIds
    case Dismiss(_) => unreadIds
    case ClearAll => unreadIds
    case Close(_) => unreadIds
    case RemoveCenter => unreadIds
    case Step(_) => unreadIds
    case Select(_) => unreadIds
    case TickClocks(_, _, _, _) => unreadIds
    case WithdrawToast(_) => unreadIds
  }

  function UnreadOverRun(view: HistoryView, changes: seq<HistoryChange>): set<NotificationId> {
    if changes == [] then {}
    else
      var init := changes[..|changes| - 1];
      UnreadAfter(RunChanges(view, init), UnreadOverRun(view, init), changes[|changes| - 1])
  }

  lemma WithoutStaysUnique(entries: seq<NotificationEntry>, index: nat)
    requires AreUnique(entries) && index < |entries|
    ensures AreUnique(Without(entries, index)) && !IsHeld(Without(entries, index), entries[index].notificationId)
  {
    var left := Without(entries, index);
    assert forall i :: 0 <= i < |left| ==> left[i] == entries[if i < index then i else i + 1];
  }

  lemma WithoutHoldsOthers(entries: seq<NotificationEntry>, index: nat, id: NotificationId)
    requires index < |entries| && IsHeld(entries, id) && entries[index].notificationId != id
    ensures IsHeld(Without(entries, index), id)
  {
    var i :| 0 <= i < |entries| && entries[i].notificationId == id;
    assert Without(entries, index)[if i < index then i else i - 1] == entries[i];
  }

  lemma WithoutKeepsSuffix(entries: seq<NotificationEntry>, unreadCount: nat, unreadIds: set<NotificationId>, index: nat)
    requires IsUnreadSuffix(entries, unreadCount, unreadIds) && index < |entries|
    ensures IsUnreadSuffix(Without(entries, index),
              if index + unreadCount >= |entries| then unreadCount - 1 else unreadCount, unreadIds)
  {
    var left := Without(entries, index);
    assert forall i :: 0 <= i < |left| ==> left[i] == entries[if i < index then i else i + 1];
  }

  lemma RemoveAtKeepsSelection(view: HistoryView, index: nat)
    requires AreUnique(view.entries) && index < |view.entries| && IsSelectionHeld(view)
    ensures IsSelectionHeld(RemoveAt(view, index))
  {
    var selected, left := SelectedId(view), Without(view.entries, index);
    if selected == Some(view.entries[index].notificationId) {
      if index > 0 { assert left[index - 1].notificationId == NextSelected(left, index).value; }
    } else if selected.Some? {
      WithoutHoldsOthers(view.entries, index, selected.value);
    }
  }

  lemma RemoveAtStaysSound(view: HistoryView, index: nat, unreadIds: set<NotificationId>)
    requires IsSound(view, unreadIds) && index < |view.entries|
    ensures IsSound(RemoveAt(view, index), unreadIds)
  {
    assert AreUnique(Without(view.entries, index)) by { WithoutStaysUnique(view.entries, index); }
    assert IsSelectionHeld(RemoveAt(view, index)) by { RemoveAtKeepsSelection(view, index); }
    WithoutKeepsSuffix(view.entries, view.unreadCount, unreadIds, index);
  }

  lemma {:induction false} RemoveDuplicatesStaysSound(view: HistoryView, index: nat, arrived: NotificationEntry, unreadIds: set<NotificationId>)
    requires IsSound(view, unreadIds) && index <= |view.entries|
    ensures IsSound(RemoveDuplicates(view, index, arrived).0, unreadIds)
    decreases |view.entries| - index
  {
    if index < |view.entries| {
      if IsOwnDuplicate(view.entries[index], arrived) {
        RemoveAtStaysSound(view, index, unreadIds);
        RemoveDuplicatesStaysSound(RemoveAt(view, index), index, arrived, unreadIds);
      } else {
        RemoveDuplicatesStaysSound(view, index + 1, arrived, unreadIds);
      }
    }
  }

  lemma ReplaceStaysSound(view: HistoryView, arrived: NotificationEntry, unreadIds: set<NotificationId>)
    requires IsSound(view, unreadIds)
    ensures IsSound(ReplaceDuplicates(view, arrived), unreadIds)
    ensures forall entry :: entry in ReplaceDuplicates(view, arrived).entries ==> entry in view.entries
    ensures IsOpen(ReplaceDuplicates(view, arrived)) == IsOpen(view)
  {
    assert IsSound(RemoveDuplicates(view, 0, arrived).0, unreadIds) by { RemoveDuplicatesStaysSound(view, 0, arrived, unreadIds); }
    DuplicatesAreNamed(view, 0, arrived);
    assert forall entry :: entry in RemoveDuplicates(view, 0, arrived).0.entries ==> entry in view.entries by {
      DuplicatesGo(view, 0, arrived);
      KeepOthersHolds(view.entries, arrived);
      assert view.entries[..0] == [] && view.entries[0..] == view.entries;
    }
  }

  lemma MakeRoomStaysSound(view: HistoryView, unreadIds: set<NotificationId>)
    requires IsSound(view, unreadIds)
    ensures IsSound(MakeRoom(view), unreadIds)
    ensures |MakeRoom(view).entries| < MAX_MERGED_NOTIFICATION_COUNT
    ensures forall entry :: entry in MakeRoom(view).entries ==> entry in view.entries
    ensures IsOpen(MakeRoom(view)) == IsOpen(view)
  {
    if |view.entries| == MAX_MERGED_NOTIFICATION_COUNT {
      RemoveAtStaysSound(view, 0, unreadIds);
    }
  }

  lemma StillNotHeld(fewer: seq<NotificationEntry>, entries: seq<NotificationEntry>, id: NotificationId)
    requires !IsHeld(entries, id) && forall entry :: entry in fewer ==> entry in entries
    ensures !IsHeld(fewer, id)
  {
    forall i | 0 <= i < |fewer| ensures fewer[i].notificationId != id {
      assert fewer[i] in entries;
    }
  }

  // Making room for an arrival keeps everything, and no entry under its id.
  lemma RoomStaysSound(view: HistoryView, arrived: NotificationEntry, unreadIds: set<NotificationId>)
    requires IsSound(view, unreadIds) && !IsHeld(view.entries, arrived.notificationId)
    ensures var room := MakeRoom(ReplaceDuplicates(view, arrived));
            && IsSound(room, unreadIds)
            && |room.entries| < MAX_MERGED_NOTIFICATION_COUNT
            && !IsHeld(room.entries, arrived.notificationId)
            && IsOpen(room) == IsOpen(view)
  {
    var left := ReplaceDuplicates(view, arrived);
    ReplaceStaysSound(view, arrived, unreadIds);
    MakeRoomStaysSound(left, unreadIds);
    StillNotHeld(MakeRoom(left).entries, view.entries, arrived.notificationId);
  }

  lemma NewestStaysSound(view: HistoryView, arrived: NotificationEntry, shouldPreview: bool, unreadIds: set<NotificationId>)
    requires IsSound(view, unreadIds) && |view.entries| < MAX_MERGED_NOTIFICATION_COUNT
    requires !IsHeld(view.entries, arrived.notificationId)
    ensures IsSound(AddNewest(view, arrived, shouldPreview), UnreadAfter(view, unreadIds, Arrive(arrived, shouldPreview)))
  {
    var added := AddNewest(view, arrived, shouldPreview);
    assert added.entries[|view.entries|] == arrived;
    assert forall i :: 0 <= i < |view.entries| ==> added.entries[i] == view.entries[i];
  }

  lemma RemoveHeldStaysSound(view: HistoryView, id: NotificationId, unreadIds: set<NotificationId>)
    requires IsSound(view, unreadIds)
    ensures IsSound(RemoveHeld(view, id), unreadIds) && !IsHeld(RemoveHeld(view, id).entries, id)
    ensures IsOpen(RemoveHeld(view, id)) == IsOpen(view)
  {
    var index := FindIndex(view.entries, id);
    if index.Some? {
      RemoveAtStaysSound(view, index.value, unreadIds);
      WithoutStaysUnique(view.entries, index.value);
    } else {
      FindsNone(view.entries, id);
    }
  }

  lemma ArrivalStaysSound(view: HistoryView, arrived: NotificationEntry, shouldShowToasts: bool, unreadIds: set<NotificationId>)
    requires IsSound(view, unreadIds)
    ensures IsSound(TakeArrival(view, arrived, shouldShowToasts), UnreadAfter(view, unreadIds, Arrive(arrived, shouldShowToasts)))
  {
    var removed := RemoveHeld(view, arrived.notificationId);
    RemoveHeldStaysSound(view, arrived.notificationId, unreadIds);
    RoomStaysSound(removed, arrived, unreadIds);
    var room := MakeRoom(ReplaceDuplicates(removed, arrived));
    NewestStaysSound(room, arrived, shouldShowToasts, unreadIds);
    var pushed := AddNewest(room, arrived, shouldShowToasts);
    assert pushed.entries[|room.entries|] == arrived;
  }

  lemma ChangeStaysSound(view: HistoryView, unreadIds: set<NotificationId>, change: HistoryChange)
    requires IsSound(view, unreadIds)
    ensures IsSound(ApplyHistoryChange(view, change), UnreadAfter(view, unreadIds, change))
  {
    match change
    case Arrive(entry, shouldShowToasts) => ArrivalStaysSound(view, entry, shouldShowToasts, unreadIds);
    case Dismiss(id) =>
      var index := FindIndex(view.entries, id);
      if index.Some? { RemoveAtStaysSound(view, index.value, unreadIds); }
    case Open =>
      if view.entries != [] { assert view.entries[|view.entries| - 1].notificationId == NewestId(view.entries).value; }
    case Report(_) =>
    case ClearAll =>
    case Close(_) =>
    case RemoveCenter =>
    case Step(isNewer) =>
    case Select(id) =>
    case TickClocks(_, _, _, _) =>
    case WithdrawToast(_) =>
  }

  // Whatever happens to an empty history, its unread count counts exactly the
  // entries it holds that arrived with the center not open, since it opened.
  lemma {:induction false} UnreadCountIsExact(isSessionLocal: bool, changes: seq<HistoryChange>)
    ensures var start := EMPTY_VIEW.(isSessionLocal := isSessionLocal);
            IsSound(RunChanges(start, changes), UnreadOverRun(start, changes))
    decreases |changes|
  {
    if changes != [] {
      var start, init := EMPTY_VIEW.(isSessionLocal := isSessionLocal), changes[..|changes| - 1];
      UnreadCountIsExact(isSessionLocal, init);
      ChangeStaysSound(RunChanges(start, init), UnreadOverRun(start, init), changes[|changes| - 1]);
    }
  }
}
