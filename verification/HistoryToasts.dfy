// The toasts agree with the history: a waiting preview is an exact copy of an
// entry the history holds, a summary counts only held entries, and an open
// center has no toast at all. A history of a local session holds no entry of
// the viewer's own that repeats one of the session's.
module HistoryToasts {
  import opened Notifications
  import opened ToastQueue
  import opened HistoryView
  import opened HistoryUnread

  predicate IsCopyHeld(entries: seq<NotificationEntry>, entry: NotificationEntry, excused: set<NotificationId>) {
    entry in entries || entry.notificationId in excused
  }

  predicate AreCopiesHeld(entries: seq<NotificationEntry>, copies: seq<NotificationEntry>, excused: set<NotificationId>) {
    forall copy :: copy in copies ==> IsCopyHeld(entries, copy, excused)
  }

  predicate AreMembersHeld(entries: seq<NotificationEntry>, members: seq<SummaryMember>, excused: set<NotificationId>) {
    forall member :: member in members ==> IsHeld(entries, member.memberId) || member.memberId in excused
  }

  predicate IsWithdrawing(toast: ShownToast) {
    toast.withdrawRequest.Some? || toast.phase.Withdraw?
  }

  predicate IsShownHeld(entries: seq<NotificationEntry>, toast: ShownToast, excused: set<NotificationId>) {
    match toast.preview
    case EntryPreview(entry) => IsCopyHeld(entries, entry, excused) || IsWithdrawing(toast)
    case SummaryPreview(members) => AreMembersHeld(entries, members, excused)
  }

  // Every preview names a held entry, but for the ids in `excused`.
  predicate DoPreviewsAgree(entries: seq<NotificationEntry>, toasts: Toasts, excused: set<NotificationId>) {
    && AreCopiesHeld(entries, toasts.waitingEntries, excused)
    && (toasts.waitingSummary.Some? ==> AreMembersHeld(entries, toasts.waitingSummary.value, excused))
    && (toasts.shownToast.Some? ==> IsShownHeld(entries, toasts.shownToast.value, excused))
  }

  predicate IsSilent(toasts: Toasts) {
    toasts.shownToast.None? && toasts.waitingEntries == [] && toasts.waitingSummary.None?
  }

  predicate DoToastsAgree(view: HistoryView) {
    DoPreviewsAgree(view.entries, view.toasts, {}) && (IsOpen(view) ==> IsSilent(view.toasts))
  }

  // ---------------------------------------------------------------------
  // One step at a time
  // ---------------------------------------------------------------------

  lemma RemovingExcuses(entries: seq<NotificationEntry>, index: nat, toasts: Toasts, excused: set<NotificationId>)
    requires index < |entries| && DoPreviewsAgree(entries, toasts, excused)
    ensures DoPreviewsAgree(Without(entries, index), toasts, excused + {entries[index].notificationId})
  {
    forall entry | entry in entries && entry.notificationId != entries[index].notificationId ensures entry in Without(entries, index) {
      var i :| 0 <= i < |entries| && entries[i] == entry;
      assert Without(entries, index)[if i < index then i else i - 1] == entry;
    }
    forall id | IsHeld(entries, id) && id != entries[index].notificationId ensures IsHeld(Without(entries, index), id) {
      WithoutHoldsOthers(entries, index, id);
    }
  }

  function SetOf(ids: seq<NotificationId>): set<NotificationId> { set id | id in ids }

  lemma MoreAreExcused(entries: seq<NotificationEntry>, toasts: Toasts, excused: set<NotificationId>, more: set<NotificationId>)
    requires DoPreviewsAgree(entries, toasts, excused) && excused <= more
    ensures DoPreviewsAgree(entries, toasts, more)
  {
  }

  lemma {:induction false} DuplicatesAreExcused(view: HistoryView, index: nat, arrived: NotificationEntry, excused: set<NotificationId>)
    requires index <= |view.entries| && DoPreviewsAgree(view.entries, view.toasts, excused)
    ensures var (left, ids) := RemoveDuplicates(view, index, arrived);
            DoPreviewsAgree(left.entries, left.toasts, excused + SetOf(ids))
    decreases |view.entries| - index
  {
    var (left, ids) := RemoveDuplicates(view, index, arrived);
    if index == |view.entries| {
      assert excused + SetOf([]) == excused;
    } else if IsOwnDuplicate(view.entries[index], arrived) {
      var id := view.entries[index].notificationId;
      RemovingExcuses(view.entries, index, view.toasts, excused);
      DuplicatesAreExcused(RemoveAt(view, index), index, arrived, excused + {id});
      assert excused + {id} + SetOf(ids[1..]) == excused + SetOf(ids) by { assert ids == [id] + ids[1..]; }
    } else {
      DuplicatesAreExcused(view, index + 1, arrived, excused);
    }
  }

  lemma {:induction false} RepointedEntries(entries: seq<NotificationEntry>, replacedIds: seq<NotificationId>, replacing: NotificationEntry, isPreviewed: bool)
    ensures forall entry :: entry in RepointEntries(entries, replacedIds, replacing, isPreviewed).0 ==>
              entry == replacing || (entry in entries && !IsReplaced(entry.notificationId, replacedIds, replacing))
  {
    if entries != [] {
      RepointedEntries(entries[1..], replacedIds, replacing, isPreviewed || IsReplaced(entries[0].notificationId, replacedIds, replacing));
    }
  }

  lemma {:induction false} RepointedMembers(members: seq<SummaryMember>, replacedIds: seq<NotificationId>, replacing: NotificationEntry, isPreviewed: bool)
    ensures forall member :: member in RepointMembers(members, replacedIds, replacing, isPreviewed).0 ==>
              member == MemberOf(replacing) || (member in members && !IsReplaced(member.memberId, replacedIds, replacing))
  {
    if members != [] {
      RepointedMembers(members[1..], replacedIds, replacing, isPreviewed || IsReplaced(members[0].memberId, replacedIds, replacing));
    }
  }

  // Repointing leaves only the arrival itself to be excused.
  lemma RepointingAgrees(entries: seq<NotificationEntry>, toasts: Toasts, replacedIds: seq<NotificationId>, replacing: NotificationEntry,
      excused: set<NotificationId>)
    requires DoPreviewsAgree(entries, toasts, excused) && excused <= SetOf(replacedIds) + {replacing.notificationId}
    ensures DoPreviewsAgree(entries, RepointPreviews(toasts, replacedIds, replacing), {replacing.notificationId})
  {
    var (shown, afterShown) := RepointShown(toasts.shownToast, replacedIds, replacing);
    var (waiting, afterEntries) := RepointEntries(toasts.waitingEntries, replacedIds, replacing, afterShown);
    RepointedEntries(toasts.waitingEntries, replacedIds, replacing, afterShown);
    if toasts.waitingSummary.Some? {
      RepointedMembers(toasts.waitingSummary.value, replacedIds, replacing, afterEntries);
    }
    if toasts.shownToast.Some? && toasts.shownToast.value.preview.SummaryPreview? {
      RepointedMembers(toasts.shownToast.value.preview.members, replacedIds, replacing, false);
    }
  }

  lemma {:induction false} LeftEntries(entries: seq<NotificationEntry>, id: NotificationId)
    ensures forall entry :: entry in EntriesWithout(entries, id) ==> entry in entries && entry.notificationId != id
  {
    if entries != [] { LeftEntries(entries[1..], id); }
  }

  lemma {:induction false} LeftMembers(members: seq<SummaryMember>, id: NotificationId)
    ensures forall member :: member in MembersWithout(members, id) ==> member in members && member.memberId != id
  {
    if members != [] { LeftMembers(members[1..], id); }
  }

  // Removing the previews of an id excuses nothing under that id.
  lemma RemovedPreviewsAgree(entries: seq<NotificationEntry>, toasts: Toasts, id: NotificationId, excused: set<NotificationId>)
    requires DoPreviewsAgree(entries, toasts, excused)
    ensures DoPreviewsAgree(entries, RemovePreviews(toasts, id), excused - {id})
  {
    LeftEntries(toasts.waitingEntries, id);
    if toasts.waitingSummary.Some? { LeftMembers(toasts.waitingSummary.value, id); }
    var waiting := RemoveWaiting(toasts, id);
    assert AreCopiesHeld(entries, waiting.waitingEntries, excused - {id});
    if toasts.shownToast.Some? && toasts.shownToast.value.preview.SummaryPreview? {
      LeftMembers(toasts.shownToast.value.preview.members, id);
    }
  }

  lemma EvictionAgrees(entries: seq<NotificationEntry>, index: nat, toasts: Toasts, excused: set<NotificationId>)
    requires index < |entries| && DoPreviewsAgree(entries, toasts, excused)
    ensures DoPreviewsAgree(Without(entries, index), RemovePreviews(toasts, entries[index].notificationId), excused)
  {
    var id := entries[index].notificationId;
    RemovingExcuses(entries, index, toasts, excused);
    RemovedPreviewsAgree(Without(entries, index), toasts, id, excused + {id});
    MoreAreExcused(Without(entries, index), RemovePreviews(toasts, id), excused + {id} - {id}, excused);
  }

  // Copying the arrival into the previews of its id, and holding it, leaves
  // nothing of it to be excused.
  lemma UpdatingAgrees(entries: seq<NotificationEntry>, toasts: Toasts, arrived: NotificationEntry)
    requires DoPreviewsAgree(entries, toasts, {arrived.notificationId})
    ensures DoPreviewsAgree(entries + [arrived], UpdatePreviews(toasts, arrived).0, {})
  {
    var held := entries + [arrived];
    assert held[|entries|] == arrived;
    assert forall entry :: entry in entries ==> entry in held;
    forall id | IsHeld(entries, id) ensures IsHeld(held, id) {
      var i :| 0 <= i < |entries| && entries[i].notificationId == id;
      assert held[i] == entries[i];
    }
    var updated := UpdatedEntries(toasts.waitingEntries, arrived);
    forall copy | copy in updated ensures IsCopyHeld(held, copy, {}) {
      var i :| 0 <= i < |updated| && updated[i] == copy;
      assert toasts.waitingEntries[i] in toasts.waitingEntries;
    }
  }

  lemma QueueingAgrees(entries: seq<NotificationEntry>, toasts: Toasts, arrived: NotificationEntry)
    requires DoPreviewsAgree(entries, toasts, {arrived.notificationId})
    ensures DoPreviewsAgree(entries + [arrived], QueuePreview(toasts, arrived), {})
  {
    UpdatingAgrees(entries, toasts, arrived);
    assert (entries + [arrived])[|entries|] == arrived;
  }

  // ---------------------------------------------------------------------
  // An arrival
  // ---------------------------------------------------------------------

  // Removing the held entry and the duplicates leaves only the arrival's own
  // previews without a held copy.
  lemma ReplacingAgrees(view: HistoryView, arrived: NotificationEntry)
    requires DoPreviewsAgree(view.entries, view.toasts, {arrived.notificationId})
    ensures var replaced := ReplaceDuplicates(view, arrived);
            DoPreviewsAgree(replaced.entries, replaced.toasts, {arrived.notificationId})
  {
    if ReplacesDuplicates(view, arrived) {
      var (left, ids) := RemoveDuplicates(view, 0, arrived);
      DuplicatesAreExcused(view, 0, arrived, {arrived.notificationId});
      if ids != [] {
        RepointingAgrees(left.entries, left.toasts, ids, arrived, {arrived.notificationId} + SetOf(ids));
      } else {
        assert {arrived.notificationId} + SetOf(ids) == {arrived.notificationId};
      }
    }
  }

  lemma MakingRoomAgrees(view: HistoryView, excused: set<NotificationId>)
    requires DoPreviewsAgree(view.entries, view.toasts, excused)
    ensures DoPreviewsAgree(MakeRoom(view).entries, MakeRoom(view).toasts, excused)
  {
    if view.entries != [] {
      EvictionAgrees(view.entries, 0, view.toasts, excused);
    }
  }

  lemma PushingAgrees(view: HistoryView, arrived: NotificationEntry, shouldPreview: bool)
    requires DoPreviewsAgree(view.entries, view.toasts, {arrived.notificationId})
    ensures var pushed := PushNewest(view, arrived, shouldPreview); DoPreviewsAgree(pushed.entries, pushed.toasts, {})
  {
    ReplacingAgrees(view, arrived);
    var replaced := ReplaceDuplicates(view, arrived);
    MakingRoomAgrees(replaced, {arrived.notificationId});
    var room := MakeRoom(replaced);
    UpdatingAgrees(room.entries, room.toasts, arrived);
    QueueingAgrees(room.entries, room.toasts, arrived);
  }

  lemma ArrivalAgrees(view: HistoryView, arrived: NotificationEntry, shouldShowToasts: bool)
    requires DoPreviewsAgree(view.entries, view.toasts, {})
    ensures var taken := TakeArrival(view, arrived, shouldShowToasts); DoPreviewsAgree(taken.entries, taken.toasts, {})
  {
    var index := FindIndex(view.entries, arrived.notificationId);
    if index.Some? {
      RemovingExcuses(view.entries, index.value, view.toasts, {});
      assert {} + {arrived.notificationId} == {arrived.notificationId};
    } else {
      MoreAreExcused(view.entries, view.toasts, {}, {arrived.notificationId});
    }
    PushingAgrees(RemoveHeld(view, arrived.notificationId), arrived, shouldShowToasts);
  }

  // Whether the center is open, and whether it silences the toasts, is as
  // before.
  predicate IsAsOpen(before: HistoryView, after: HistoryView) {
    IsOpen(after) == IsOpen(before) && (IsOpen(before) && IsSilent(before.toasts) ==> IsSilent(after.toasts))
  }

  lemma RemovingKeepsOpen(view: HistoryView, id: NotificationId)
    ensures IsAsOpen(view, RemoveHeld(view, id))
  {
  }

  lemma ReplacingKeepsOpen(view: HistoryView, arrived: NotificationEntry)
    ensures IsAsOpen(view, ReplaceDuplicates(view, arrived))
  {
    DuplicatesAreNamed(view, 0, arrived);
  }

  lemma RoomKeepsOpen(view: HistoryView)
    ensures IsAsOpen(view, MakeRoom(view))
  {
  }

  lemma NewestKeepsOpen(view: HistoryView, arrived: NotificationEntry, shouldPreview: bool)
    ensures IsAsOpen(view, AddNewest(view, arrived, shouldPreview))
  {
  }

  lemma ArrivalKeepsOpen(view: HistoryView, arrived: NotificationEntry, shouldShowToasts: bool)
    ensures IsAsOpen(view, TakeArrival(view, arrived, shouldShowToasts))
  {
    hide RemoveHeld, ReplaceDuplicates, MakeRoom, AddNewest, IsSilent;
    var removed := RemoveHeld(view, arrived.notificationId);
    var replaced := ReplaceDuplicates(removed, arrived);
    RemovingKeepsOpen(view, arrived.notificationId);
    ReplacingKeepsOpen(removed, arrived);
    RoomKeepsOpen(replaced);
    NewestKeepsOpen(MakeRoom(replaced), arrived, shouldShowToasts);
  }

  // ---------------------------------------------------------------------
  // The clock
  // ---------------------------------------------------------------------

  lemma TurnAgrees(entries: seq<NotificationEntry>, toasts: Toasts, currentTime: nat, timing: ToastTiming)
    requires DoPreviewsAgree(entries, toasts, {})
    ensures DoPreviewsAgree(entries, TurnClock(toasts, currentTime, timing).toasts, {})
    ensures IsSilent(toasts) ==> TurnClock(toasts, currentTime, timing).Halted? && IsSilent(TurnClock(toasts, currentTime, timing).toasts)
  {
  }

  lemma {:induction false} ClockAgrees(entries: seq<NotificationEntry>, toasts: Toasts, currentTime: nat, timing: ToastTiming)
    requires DoPreviewsAgree(entries, toasts, {})
    ensures DoPreviewsAgree(entries, RunClock(toasts, currentTime, timing).0, {})
    ensures IsSilent(toasts) ==> IsSilent(RunClock(toasts, currentTime, timing).0)
    decreases ClockRank(toasts)
  {
    TurnDescends(toasts, currentTime, timing);
    TurnAgrees(entries, toasts, currentTime, timing);
    var turn := TurnClock(toasts, currentTime, timing);
    if turn.Ran? {
      ClockAgrees(entries, turn.toasts, currentTime, timing);
    }
  }

  // ---------------------------------------------------------------------
  // Every run
  // ---------------------------------------------------------------------

  lemma ChangeAgrees(view: HistoryView, change: HistoryChange)
    requires DoToastsAgree(view)
    ensures DoToastsAgree(ApplyHistoryChange(view, change))
  {
    match change
    case Arrive(entry, shouldShowToasts) =>
      ArrivalAgrees(view, entry, shouldShowToasts);
      ArrivalKeepsOpen(view, entry, shouldShowToasts);
    case Dismiss(id) =>
      var index := FindIndex(view.entries, id);
      if index.Some? { EvictionAgrees(view.entries, index.value, view.toasts, {}); }
    case TickClocks(currentTime, timing, isPaused, _) =>
      if !isPaused { ClockAgrees(view.entries, Resume(view.toasts, currentTime), currentTime, timing); }
    case Report(_) =>
    case ClearAll =>
    case Open =>
    case Close(_) =>
    case RemoveCenter =>
    case Step(_) =>
    case Select(_) =>
    case WithdrawToast(_) =>
  }

  lemma {:induction false} ToastsAgreeOverRuns(isSessionLocal: bool, changes: seq<HistoryChange>)
    ensures DoToastsAgree(RunChanges(EMPTY_VIEW.(isSessionLocal := isSessionLocal), changes))
    decreases |changes|
  {
    if changes != [] {
      var init := changes[..|changes| - 1];
      ToastsAgreeOverRuns(isSessionLocal, init);
      ChangeAgrees(RunChanges(EMPTY_VIEW.(isSessionLocal := isSessionLocal), init), changes[|changes| - 1]);
    }
  }

  // ---------------------------------------------------------------------
  // Duplicates of a local session's entries
  // ---------------------------------------------------------------------

  predicate RepeatsSession(own: NotificationEntry, other: NotificationEntry) {
    other.notificationId.owner.SessionOwner? && other.source == Core && IsOwnDuplicate(own, other)
  }

  predicate HoldsNoRepeats(entries: seq<NotificationEntry>) {
    forall own, other :: own in entries && other in entries ==> !RepeatsSession(own, other)
  }

  lemma ReplacedHoldsOthers(view: HistoryView, arrived: NotificationEntry)
    requires view.isSessionLocal
    ensures forall entry :: entry in ReplaceDuplicates(view, arrived).entries ==> entry in view.entries && !RepeatsSession(entry, arrived)
  {
    DuplicatesGo(view, 0, arrived);
    KeepOthersHolds(view.entries, arrived);
    assert view.entries[..0] == [] && view.entries[0..] == view.entries;
  }

  lemma MakeRoomHoldsFewer(view: HistoryView)
    ensures forall entry :: entry in MakeRoom(view).entries ==> entry in view.entries
  {
  }

  lemma NewestHoldsNoRepeats(entries: seq<NotificationEntry>, arrived: NotificationEntry)
    requires HoldsNoRepeats(entries)
    requires forall other :: other in entries ==> !RepeatsSession(arrived, other) && !RepeatsSession(other, arrived)
    ensures HoldsNoRepeats(entries + [arrived])
  {
    assert !RepeatsSession(arrived, arrived);
  }

  // An arrival of a local session's leaves no own entry that repeats it.
  lemma ArrivalHoldsNoRepeats(view: HistoryView, arrived: NotificationEntry, shouldShowToasts: bool)
    requires view.isSessionLocal && HoldsNoRepeats(view.entries)
    requires forall other :: other in view.entries ==> !RepeatsSession(arrived, other)
    ensures HoldsNoRepeats(TakeArrival(view, arrived, shouldShowToasts).entries)
  {
    var removed := RemoveHeld(view, arrived.notificationId);
    assert forall entry :: entry in removed.entries ==> entry in view.entries;
    assert removed.isSessionLocal;
    var replaced := ReplaceDuplicates(removed, arrived);
    ReplacedHoldsOthers(removed, arrived);
    MakeRoomHoldsFewer(replaced);
    NewestHoldsNoRepeats(MakeRoom(replaced).entries, arrived);
  }
}
