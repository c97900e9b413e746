// What one viewer holds and shows of its notifications: the merged entries,
// the counts beside them, the center's selection, and the toasts
// (crates/koshi-client/src/notification_history.rs). Every operation of the
// history comes down to the changes below.
module HistoryView {
  import opened Options
  import opened Notifications
  import opened ToastQueue
  import opened Runs

  const MAX_MERGED_NOTIFICATION_COUNT: nat := 256
  const MAX_U64: nat := 0xffff_ffff_ffff_ffff

  datatype CenterState = CenterState(selectedId: Option<NotificationId>, isClosing: bool)

  datatype HistoryView = HistoryView(
    entries: seq<NotificationEntry>,
    droppedCount: nat,
    unreadCount: nat,
    isSessionLocal: bool,
    center: Option<CenterState>,
    toasts: Toasts)

  datatype HistoryChange =
    | Arrive(entry: NotificationEntry, shouldShowToasts: bool)
    | Report(count: nat)
    | Dismiss(id: NotificationId)
    | ClearAll
    | Open
    | Close(shouldReduceMotion: bool)
    | RemoveCenter
    | Step(isNewer: bool)
    | Select(id: NotificationId)
    | TickClocks(currentTime: nat, timing: ToastTiming, isPaused: bool, isSlideOver: bool)
    | WithdrawToast(toastNumber: nat)

  const EMPTY_VIEW := HistoryView([], 0, 0, false, None, EMPTY_TOASTS)

  predicate IsOpen(view: HistoryView) {
    view.center.Some? && !view.center.value.isClosing
  }

  function SelectedId(view: HistoryView): Option<NotificationId> {
    if view.center.Some? then view.center.value.selectedId else None
  }

  function FindIndex(entries: seq<NotificationEntry>, id: NotificationId): (index: Option<nat>)
    ensures index.Some? ==> index.value < |entries| && entries[index.value].notificationId == id
  {
    if entries == [] then None
    else if entries[0].notificationId == id then Some(0)
    else match FindIndex(entries[1..], id) case Some(index) => Some(index + 1) case None => None
  }

  lemma {:induction false} FindsNone(entries: seq<NotificationEntry>, id: NotificationId)
    requires FindIndex(entries, id).None?
    ensures forall entry :: entry in entries ==> entry.notificationId != id
  {
    if entries != [] {
      FindsNone(entries[1..], id);
      assert forall entry :: entry in entries ==> entry == entries[0] || entry in entries[1..];
    }
  }

  function WithSelected(view: HistoryView, selected: Option<NotificationId>): HistoryView {
    if view.center.Some? then view.(center := Some(view.center.value.(selectedId := selected))) else view
  }

  function Without<T>(items: seq<T>, index: nat): seq<T>
    requires index < |items|
  {
    items[..index] + items[index + 1..]
  }

  // The selection that a removed selected entry leaves: the next older entry,
  // else the next newer one.
  function NextSelected(left: seq<NotificationEntry>, removedIndex: nat): Option<NotificationId>
    requires removedIndex <= |left|
  {
    if removedIndex > 0 then Some(left[removedIndex - 1].notificationId)
    else if left != [] then Some(left[0].notificationId)
    else None
  }

  function RemoveAt(view: HistoryView, index: nat): HistoryView
    requires index < |view.entries|
  {
    var left := Without(view.entries, index);
    var removed := view.(entries := left,
      unreadCount := if index + view.unreadCount >= |view.entries| then view.unreadCount - 1 else view.unreadCount);
    if SelectedId(view) == Some(view.entries[index].notificationId) then WithSelected(removed, NextSelected(left, index)) else removed
  }

  predicate IsCoreNotice(entry: NotificationEntry, severity: NotificationSeverity, text: string) {
    entry.source == Core && entry.severity == severity && entry.text == text
  }

  predicate IsOwnDuplicate(entry: NotificationEntry, arrived: NotificationEntry) {
    entry.notificationId.owner.ClientOwner? && IsCoreNotice(entry, arrived.severity, arrived.text)
  }

  // The pass over the entries from `index` on that removes the viewer's own
  // duplicates of `arrived`, with the ids it removed.
  function RemoveDuplicates(view: HistoryView, index: nat, arrived: NotificationEntry): (HistoryView, seq<NotificationId>)
    requires index <= |view.entries|
    decreases |view.entries| - index
  {
    if index == |view.entries| then (view, [])
    else if IsOwnDuplicate(view.entries[index], arrived) then
      var (left, ids) := RemoveDuplicates(RemoveAt(view, index), index, arrived);
      (left, [view.entries[index].notificationId] + ids)
    else RemoveDuplicates(view, index + 1, arrived)
  }

  predicate ReplacesDuplicates(view: HistoryView, arrived: NotificationEntry) {
    view.isSessionLocal && arrived.notificationId.owner.SessionOwner? && arrived.source == Core
  }

  function ReplaceDuplicates(view: HistoryView, arrived: NotificationEntry): HistoryView {
    if ReplacesDuplicates(view, arrived) then
      var (left, ids) := RemoveDuplicates(view, 0, arrived);
      if ids != [] then left.(toasts := RepointPreviews(left.toasts, ids, arrived)) else left
    else view
  }

  // The count is a 64-bit one: eviction adds 1 with no check.
  function EvictOldest(view: HistoryView): HistoryView {
    if view.entries == [] then view
    else
      RemoveAt(view, 0).(
        droppedCount := (view.droppedCount + 1) % (MAX_U64 + 1),
        toasts := RemovePreviews(view.toasts, view.entries[0].notificationId))
  }

  function MakeRoom(view: HistoryView): HistoryView {
    if |view.entries| == MAX_MERGED_NOTIFICATION_COUNT then EvictOldest(view) else view
  }

  function AddNewest(view: HistoryView, arrived: NotificationEntry, shouldPreview: bool): HistoryView {
    view.(
      entries := view.entries + [arrived],
      unreadCount := if IsOpen(view) then view.unreadCount else view.unreadCount + 1,
      center := if IsOpen(view) && view.center.value.selectedId.None?
        then Some(view.center.value.(selectedId := Some(arrived.notificationId))) else view.center,
      toasts := if shouldPreview && !IsOpen(view)
        then QueuePreview(view.toasts, arrived) else UpdatePreviews(view.toasts, arrived).0)
  }

  function PushNewest(view: HistoryView, arrived: NotificationEntry, shouldPreview: bool): HistoryView {
    AddNewest(MakeRoom(ReplaceDuplicates(view, arrived)), arrived, shouldPreview)
  }

  function RemoveHeld(view: HistoryView, id: NotificationId): HistoryView {
    match FindIndex(view.entries, id)
    case Some(index) => RemoveAt(view, index)
    case None => view
  }

  function TakeArrival(view: HistoryView, arrived: NotificationEntry, shouldShowToasts: bool): HistoryView {
    var pushed := PushNewest(RemoveHeld(view, arrived.notificationId), arrived, shouldShowToasts);
    if SelectedId(view) == Some(arrived.notificationId) then WithSelected(pushed, SelectedId(view)) else pushed
  }

  function AddDropped(view: HistoryView, count: nat): HistoryView {
    if count == 0 then view else view.(droppedCount := Least(view.droppedCount + count, MAX_U64))
  }

  function DismissEntry(view: HistoryView, id: NotificationId): HistoryView {
    match FindIndex(view.entries, id)
    case Some(index) =>
      var removed := RemoveAt(view, index);
      removed.(toasts := RemovePreviews(removed.toasts, id))
    case None => view
  }

  function ClearEntries(view: HistoryView): HistoryView {
    WithSelected(view.(entries := [], droppedCount := 0, unreadCount := 0, toasts := ClearPreviews(view.toasts)), None)
  }

  function NewestId(entries: seq<NotificationEntry>): Option<NotificationId> {
    if entries == [] then None else Some(entries[|entries| - 1].notificationId)
  }

  function OpenCenter(view: HistoryView): HistoryView {
    if IsOpen(view) then view
    else
      view.(center := Some(CenterState(NewestId(view.entries), false)), unreadCount := 0, toasts := ClearPreviews(view.toasts))
  }

  function CloseCenter(view: HistoryView, shouldReduceMotion: bool): HistoryView {
    if !IsOpen(view) then view
    else if shouldReduceMotion then view.(center := None)
    else view.(center := Some(view.center.value.(isClosing := true)))
  }

  // The entry one step newer or older than the selected one, when an open
  // center selects one and there is such an entry.
  function FindAdjacent(view: HistoryView, isNewer: bool): Option<NotificationId> {
    if !IsOpen(view) || view.center.value.selectedId.None? then None
    else
      match FindIndex(view.entries, view.center.value.selectedId.value)
      case None => None
      case Some(index) =>
        if isNewer then if index + 1 < |view.entries| then Some(view.entries[index + 1].notificationId) else None
        else if index > 0 then Some(view.entries[index - 1].notificationId) else None
  }

  function SelectAdjacent(view: HistoryView, isNewer: bool): HistoryView {
    var next := FindAdjacent(view, isNewer);
    if next.Some? then WithSelected(view, next) else view
  }

  function SelectEntry(view: HistoryView, id: NotificationId): HistoryView {
    if IsOpen(view) && FindIndex(view.entries, id).Some? then WithSelected(view, Some(id)) else view
  }

  function AdvanceClocks(view: HistoryView, currentTime: nat, timing: ToastTiming, isPaused: bool, isSlideOver: bool): HistoryView {
    view.(toasts := Advance(view.toasts, currentTime, timing, isPaused).0,
      center := if view.center.Some? && view.center.value.isClosing && isSlideOver then None else view.center)
  }

  function WithdrawNumbered(view: HistoryView, toastNumber: nat): HistoryView {
    if view.toasts.shownToast.Some? && view.toasts.shownToast.value.toastNumber == toastNumber
    then view.(toasts := RequestWithdraw(view.toasts)) else view
  }

  function ApplyHistoryChange(view: HistoryView, change: HistoryChange): HistoryView {
    match change
    case Arrive(entry, shouldShowToasts) => TakeArrival(view, entry, shouldShowToasts)
    case Report(count) => AddDropped(view, count)
    case Dismiss(id) => DismissEntry(view, id)
    case ClearAll => ClearEntries(view)
    case Open => OpenCenter(view)
    case Close(shouldReduceMotion) => CloseCenter(view, shouldReduceMotion)
    case RemoveCenter => view.(center := None)
    case Step(isNewer) => SelectAdjacent(view, isNewer)
    case Select(id) => SelectEntry(view, id)
    case TickClocks(currentTime, timing, isPaused, isSlideOver) => AdvanceClocks(view, currentTime, timing, isPaused, isSlideOver)
    case WithdrawToast(toastNumber) => WithdrawNumbered(view, toastNumber)
  }

  function RunChanges(view: HistoryView, changes: seq<HistoryChange>): HistoryView {
    Run(view, changes, ApplyHistoryChange)
  }

  // ---------------------------------------------------------------------
  // The pass over the duplicates, as a filter
  // ---------------------------------------------------------------------

  function KeepOthers(entries: seq<NotificationEntry>, arrived: NotificationEntry): seq<NotificationEntry> {
    if entries == [] then []
    else
      KeepOthers(entries[..|entries| - 1], arrived)
      + (if IsOwnDuplicate(entries[|entries| - 1], arrived) then [] else [entries[|entries| - 1]])
  }

  lemma {:induction false} KeepOthersHolds(entries: seq<NotificationEntry>, arrived: NotificationEntry)
    ensures forall entry :: entry in KeepOthers(entries, arrived) <==> entry in entries && !IsOwnDuplicate(entry, arrived)
    ensures |KeepOthers(entries, arrived)| <= |entries|
  {
    if entries != [] {
      var init := entries[..|entries| - 1];
      KeepOthersHolds(init, arrived);
      assert entries == init + [entries[|entries| - 1]];
    }
  }

  lemma {:induction false} KeepOthersAppend(first: seq<NotificationEntry>, second: seq<NotificationEntry>, arrived: NotificationEntry)
    ensures KeepOthers(first + second, arrived) == KeepOthers(first, arrived) + KeepOthers(second, arrived)
    decreases |second|
  {
    if second == [] {
      assert first + second == first;
    } else {
      var init := second[..|second| - 1];
      assert (first + second)[..|first + second| - 1] == first + init;
      KeepOthersAppend(first, init, arrived);
    }
  }

  lemma KeepOthersFirst(entry: NotificationEntry, rest: seq<NotificationEntry>, arrived: NotificationEntry)
    ensures KeepOthers([entry] + rest, arrived)
         == (if IsOwnDuplicate(entry, arrived) then [] else [entry]) + KeepOthers(rest, arrived)
  {
    KeepOthersAppend([entry], rest, arrived);
    assert [entry][..0] == [];
    assert KeepOthers([], arrived) == [];
  }

  lemma KeepOthersFrom(entries: seq<NotificationEntry>, index: nat, arrived: NotificationEntry)
    requires index < |entries|
    ensures KeepOthers(entries[index..], arrived)
         == (if IsOwnDuplicate(entries[index], arrived) then [] else [entries[index]]) + KeepOthers(entries[index + 1..], arrived)
  {
    assert entries[index..] == [entries[index]] + entries[index + 1..];
    KeepOthersFirst(entries[index], entries[index + 1..], arrived);
  }

  lemma RemovedAround(view: HistoryView, index: nat)
    requires index < |view.entries|
    ensures var left := RemoveAt(view, index).entries;
            |left| == |view.entries| - 1 && left[..index] == view.entries[..index] && left[index..] == view.entries[index + 1..]
  {
  }

  // The index loop removes every duplicate from `index` on and nothing else.
  lemma {:induction false} DuplicatesGo(view: HistoryView, index: nat, arrived: NotificationEntry)
    requires index <= |view.entries|
    ensures RemoveDuplicates(view, index, arrived).0.entries == view.entries[..index] + KeepOthers(view.entries[index..], arrived)
    decreases |view.entries| - index
  {
    assert KeepOthers([], arrived) == [];
    hide RemoveAt, KeepOthers, IsOwnDuplicate;
    if index == |view.entries| {
      assert view.entries[index..] == [];
      assert view.entries[..index] + [] == view.entries;
    } else {
      KeepOthersFrom(view.entries, index, arrived);
      if IsOwnDuplicate(view.entries[index], arrived) {
        RemovedAround(view, index);
        DuplicatesGo(RemoveAt(view, index), index, arrived);
      } else {
        DuplicatesGo(view, index + 1, arrived);
        assert view.entries[..index + 1] == view.entries[..index] + [view.entries[index]];
      }
    }
  }

  // The loop names each entry it removed, and touches neither toasts, counts
  // of drops, nor whether the center is open.
  lemma {:induction false} DuplicatesAreNamed(view: HistoryView, index: nat, arrived: NotificationEntry)
    requires index <= |view.entries|
    ensures var (left, ids) := RemoveDuplicates(view, index, arrived);
            && |left.entries| + |ids| == |view.entries|
            && left.toasts == view.toasts
            && left.droppedCount == view.droppedCount
            && left.isSessionLocal == view.isSessionLocal
            && IsOpen(left) == IsOpen(view)
    ensures forall i :: index <= i < |view.entries| && IsOwnDuplicate(view.entries[i], arrived) ==>
              view.entries[i].notificationId in RemoveDuplicates(view, index, arrived).1
    decreases |view.entries| - index
  {
    if index < |view.entries| {
      if IsOwnDuplicate(view.entries[index], arrived) {
        var removed := RemoveAt(view, index);
        DuplicatesAreNamed(removed, index, arrived);
        assert forall i :: index < i < |view.entries| ==> view.entries[i] == removed.entries[i - 1];
      } else {
        DuplicatesAreNamed(view, index + 1, arrived);
      }
    }
  }
}
