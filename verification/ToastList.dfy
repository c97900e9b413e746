// The two-level toast queue read as one flat list of ids: the shown preview's,
// then the waiting entries', then the waiting summary's.
module ToastList {
  import opened Options
  import opened Notifications
  import opened ToastQueue

  // ---------------------------------------------------------------------
  // The flat list
  // ---------------------------------------------------------------------

  predicate AreDistinct(ids: seq<NotificationId>) {
    forall i, j :: 0 <= i < j < |ids| ==> ids[i] != ids[j]
  }

  function AppendAbsent(ids: seq<NotificationId>, id: NotificationId): seq<NotificationId> {
    if id in ids then ids else ids + [id]
  }

  function Without(ids: seq<NotificationId>, id: NotificationId): seq<NotificationId> {
    if ids == [] then [] else (if ids[0] != id then [ids[0]] else []) + Without(ids[1..], id)
  }

  // The first replaced id becomes the replacing one, and later ones go. With
  // `isTaken`, every replaced id goes.
  function RepointIds(ids: seq<NotificationId>, replacedIds: seq<NotificationId>, replacing: NotificationEntry, isTaken: bool)
    : (seq<NotificationId>, bool)
  {
    if ids == [] then ([], isTaken)
    else if !IsReplaced(ids[0], replacedIds, replacing) then
      var (rest, taken) := RepointIds(ids[1..], replacedIds, replacing, isTaken);
      ([ids[0]] + rest, taken)
    else
      var (rest, taken) := RepointIds(ids[1..], replacedIds, replacing, true);
      (if isTaken then rest else [replacing.notificationId] + rest, taken)
  }

  // The two levels in good order: nothing waits unless something shows, at
  // most three entries wait, and no summary is empty.
  predicate IsTidy(toasts: Toasts) {
    AreDistinct(PreviewedIds(toasts)) && IsLevelled(toasts)
  }

  predicate IsLevelled(toasts: Toasts) {
    && |toasts.waitingEntries| <= MAX_WAITING_TOAST_COUNT
    && toasts.waitingSummary != Some([])
    && (HasWaitingPreview(toasts) ==> toasts.shownToast.Some?)
    && (toasts.shownToast.Some? && toasts.shownToast.value.preview.SummaryPreview? ==> toasts.shownToast.value.preview.members != [])
  }

  lemma {:induction false} WithoutAppend(first: seq<NotificationId>, second: seq<NotificationId>, id: NotificationId)
    ensures Without(first + second, id) == Without(first, id) + Without(second, id)
  {
    if first == [] {
      assert first + second == second;
    } else {
      assert (first + second)[1..] == first[1..] + second;
      WithoutAppend(first[1..], second, id);
    }
  }

  lemma {:induction false} RepointAppend(first: seq<NotificationId>, second: seq<NotificationId>,
      replacedIds: seq<NotificationId>, replacing: NotificationEntry, isTaken: bool)
    ensures var (head, taken) := RepointIds(first, replacedIds, replacing, isTaken);
            var (tail, end) := RepointIds(second, replacedIds, replacing, taken);
            RepointIds(first + second, replacedIds, replacing, isTaken) == (head + tail, end)
  {
    if first == [] {
      assert first + second == second;
      assert forall tail: seq<NotificationId> :: [] + tail == tail;
    } else {
      var isTakenThen := isTaken || IsReplaced(first[0], replacedIds, replacing);
      assert (first + second)[1..] == first[1..] + second;
      RepointAppend(first[1..], second, replacedIds, replacing, isTakenThen);
      var head := RepointIds(first[1..], replacedIds, replacing, isTakenThen).0;
      var tail := RepointIds(second, replacedIds, replacing, RepointIds(first, replacedIds, replacing, isTaken).1).0;
      assert [first[0]] + (head + tail) == ([first[0]] + head) + tail;
      assert [replacing.notificationId] + (head + tail) == ([replacing.notificationId] + head) + tail;
    }
  }

  lemma {:induction false} EntriesWithoutIds(entries: seq<NotificationEntry>, id: NotificationId)
    ensures EntryIds(EntriesWithout(entries, id)) == Without(EntryIds(entries), id)
    ensures |EntriesWithout(entries, id)| <= |entries|
  {
    if entries != [] {
      EntriesWithoutIds(entries[1..], id);
      assert EntryIds(entries)[1..] == EntryIds(entries[1..]);
    }
  }

  lemma {:induction false} MembersWithoutIds(members: seq<SummaryMember>, id: NotificationId)
    ensures MemberIds(MembersWithout(members, id)) == Without(MemberIds(members), id)
  {
    if members != [] {
      MembersWithoutIds(members[1..], id);
      assert MemberIds(members)[1..] == MemberIds(members[1..]);
    }
  }

  lemma {:induction false} RepointEntriesIds(entries: seq<NotificationEntry>, replacedIds: seq<NotificationId>,
      replacing: NotificationEntry, isPreviewed: bool)
    ensures var (kept, previewed) := RepointEntries(entries, replacedIds, replacing, isPreviewed);
            (EntryIds(kept), previewed) == RepointIds(EntryIds(entries), replacedIds, replacing, isPreviewed)
            && |kept| <= |entries|
  {
    if entries != [] {
      var isPreviewedThen := isPreviewed || IsReplaced(entries[0].notificationId, replacedIds, replacing);
      RepointEntriesIds(entries[1..], replacedIds, replacing, isPreviewedThen);
      assert EntryIds(entries)[1..] == EntryIds(entries[1..]);
      var rest := RepointEntries(entries[1..], replacedIds, replacing, isPreviewedThen).0;
      assert EntryIds([entries[0]] + rest) == [entries[0].notificationId] + EntryIds(rest);
      assert EntryIds([replacing] + rest) == [replacing.notificationId] + EntryIds(rest);
    }
  }

  lemma {:induction false} RepointMembersIds(members: seq<SummaryMember>, replacedIds: seq<NotificationId>,
      replacing: NotificationEntry, isPreviewed: bool)
    ensures var (kept, previewed) := RepointMembers(members, replacedIds, replacing, isPreviewed);
            (MemberIds(kept), previewed) == RepointIds(MemberIds(members), replacedIds, replacing, isPreviewed)
            && (!isPreviewed && members != [] ==> kept != [])
  {
    if members != [] {
      var isPreviewedThen := isPreviewed || IsReplaced(members[0].memberId, replacedIds, replacing);
      RepointMembersIds(members[1..], replacedIds, replacing, isPreviewedThen);
      assert MemberIds(members)[1..] == MemberIds(members[1..]);
      var rest := RepointMembers(members[1..], replacedIds, replacing, isPreviewedThen).0;
      assert MemberIds([members[0]] + rest) == [members[0].memberId] + MemberIds(rest);
      assert MemberIds([MemberOf(replacing)] + rest) == [replacing.notificationId] + MemberIds(rest);
    }
  }

  lemma {:induction false} WithoutStaysDistinct(ids: seq<NotificationId>, id: NotificationId)
    requires AreDistinct(ids)
    ensures AreDistinct(Without(ids, id)) && id !in Without(ids, id)
    ensures forall other :: other in Without(ids, id) ==> other in ids
  {
    if ids != [] {
      WithoutStaysDistinct(ids[1..], id);
      assert forall other :: other in ids[1..] ==> other in ids && other != ids[0];
      var rest := Without(ids[1..], id);
      assert ids[0] !in rest;
      assert [] + rest == rest;
    }
  }

  // Renaming keeps the list distinct, and leaves at most one id of those named.
  lemma {:induction false} RepointStaysDistinct(ids: seq<NotificationId>, replacedIds: seq<NotificationId>,
      replacing: NotificationEntry, isTaken: bool)
    requires AreDistinct(ids)
    ensures var (kept, taken) := RepointIds(ids, replacedIds, replacing, isTaken);
            && AreDistinct(kept)
            && (forall id :: id in kept ==> id == replacing.notificationId || (id in ids && !IsReplaced(id, replacedIds, replacing)))
            && (isTaken ==> replacing.notificationId !in kept)
  {
    if ids != [] {
      RepointStaysDistinct(ids[1..], replacedIds, replacing,
        isTaken || IsReplaced(ids[0], replacedIds, replacing));
      assert forall id :: id in ids[1..] ==> id in ids && id != ids[0];
    }
  }

  // ---------------------------------------------------------------------
  // Each operation on the flat list
  // ---------------------------------------------------------------------

  lemma UpdateKeepsIds(toasts: Toasts, changed: NotificationEntry)
    ensures PreviewedIds(UpdatePreviews(toasts, changed).0) == PreviewedIds(toasts)
    ensures IsTidy(toasts) ==> IsTidy(UpdatePreviews(toasts, changed).0)
  {
    var updated := UpdatePreviews(toasts, changed).0;
    assert EntryIds(updated.waitingEntries) == EntryIds(toasts.waitingEntries);
    assert ShownIds(updated) == ShownIds(toasts);
  }

  lemma AppendStaysDistinct(ids: seq<NotificationId>, id: NotificationId)
    requires AreDistinct(ids)
    ensures AreDistinct(AppendAbsent(ids, id))
  {
  }

  // Queueing appends the arrived id unless a preview already names it.
  lemma QueueAppendsAbsent(toasts: Toasts, arrived: NotificationEntry)
    requires IsTidy(toasts)
    ensures PreviewedIds(QueuePreview(toasts, arrived)) == AppendAbsent(PreviewedIds(toasts), arrived.notificationId)
    ensures IsTidy(QueuePreview(toasts, arrived))
  {
    var updated, queued := UpdatePreviews(toasts, arrived).0, QueuePreview(toasts, arrived);
    UpdateKeepsIds(toasts, arrived);
    AppendStaysDistinct(PreviewedIds(toasts), arrived.notificationId);
    if arrived.notificationId !in PreviewedIds(toasts) {
      if updated.waitingSummary.Some? {
        assert SummaryIds(queued) == SummaryIds(updated) + [arrived.notificationId];
      } else if updated.shownToast.None? {
        assert PreviewedIds(updated) == [];
        assert PreviewedIds(queued) == [arrived.notificationId];
      } else if |updated.waitingEntries| < MAX_WAITING_TOAST_COUNT {
        assert EntryIds(queued.waitingEntries) == EntryIds(updated.waitingEntries) + [arrived.notificationId];
      } else {
        assert SummaryIds(queued) == [arrived.notificationId];
      }
    }
  }

  predicate IsSuffix(ids: seq<NotificationId>, of: seq<NotificationId>) {
    |ids| <= |of| && ids == of[|of| - |ids|..]
  }

  lemma SuffixStaysDistinct(ids: seq<NotificationId>, of: seq<NotificationId>)
    requires AreDistinct(of) && IsSuffix(ids, of)
    ensures AreDistinct(ids)
  {
  }

  // Showing the next preview drops what the shown one named, and no more.
  lemma NextDropsShown(toasts: Toasts)
    requires toasts.shownToast.Some? && toasts.waitingSummary != Some([])
    requires |toasts.waitingEntries| <= MAX_WAITING_TOAST_COUNT && AreDistinct(PreviewedIds(toasts))
    ensures PreviewedIds(ShowNextPreview(toasts)) == PreviewedIds(toasts)[|ShownIds(toasts)|..]
    ensures IsTidy(ShowNextPreview(toasts))
  {
    var next := ShowNextPreview(toasts);
    if toasts.waitingEntries != [] {
      assert EntryIds(toasts.waitingEntries) == ShownIds(next) + EntryIds(next.waitingEntries);
    }
    assert PreviewedIds(next) == EntryIds(toasts.waitingEntries) + SummaryIds(toasts);
    SuffixStaysDistinct(PreviewedIds(next), PreviewedIds(toasts));
  }

  lemma TurnDropsPrefix(toasts: Toasts, currentTime: nat, timing: ToastTiming)
    requires IsTidy(toasts)
    ensures var turn := TurnClock(toasts, currentTime, timing);
            && IsTidy(turn.toasts)
            && PreviewedIds(turn.toasts) == (if turn.Ran? && turn.isPreviewChanged
                                            then PreviewedIds(toasts)[|ShownIds(toasts)|..] else PreviewedIds(toasts))
  {
    hide ComputePhaseEndedAt, ComputeHiddenPerMille, AreDistinct;
    var turn := TurnClock(toasts, currentTime, timing);
    var seen := toasts.(waitingPreviewSeenAt := SeenAt(toasts, currentTime));
    assert PreviewedIds(seen) == PreviewedIds(toasts);
    if turn.Ran? && turn.isPreviewChanged {
      NextDropsShown(seen);
    } else {
      assert ShownIds(turn.toasts) == ShownIds(toasts);
    }
  }

  // Advancing the clock drops a prefix of the list.
  lemma {:induction false} AdvanceDropsPrefix(toasts: Toasts, currentTime: nat, timing: ToastTiming, isPaused: bool)
    requires IsTidy(toasts)
    ensures var (after, changed) := Advance(toasts, currentTime, timing, isPaused);
            && IsTidy(after)
            && IsSuffix(PreviewedIds(after), PreviewedIds(toasts))
            && (!changed ==> PreviewedIds(after) == PreviewedIds(toasts))
  {
    if isPaused {
      assert PreviewedIds(Advance(toasts, currentTime, timing, isPaused).0) == PreviewedIds(toasts);
    } else {
      assert PreviewedIds(Resume(toasts, currentTime)) == PreviewedIds(toasts);
      ClockDropsPrefix(Resume(toasts, currentTime), currentTime, timing);
    }
  }

  lemma {:induction false} ClockDropsPrefix(toasts: Toasts, currentTime: nat, timing: ToastTiming)
    requires IsTidy(toasts)
    ensures var (after, changed) := RunClock(toasts, currentTime, timing);
            && IsTidy(after)
            && IsSuffix(PreviewedIds(after), PreviewedIds(toasts))
            && (!changed ==> PreviewedIds(after) == PreviewedIds(toasts))
    decreases ClockRank(toasts)
  {
    hide TurnClock, IsTidy, ShownIds;
    TurnDropsPrefix(toasts, currentTime, timing);
    TurnDescends(toasts, currentTime, timing);
    var turn := TurnClock(toasts, currentTime, timing);
    if turn.Ran? {
      ClockDropsPrefix(turn.toasts, currentTime, timing);
    }
  }

  predicate ShowsEntry(toasts: Toasts, id: NotificationId) {
    match toasts.shownToast
    case Some(toast) => toast.preview.EntryPreview? && toast.preview.entry.notificationId == id
    case None => false
  }

  lemma {:induction false} AbsentStays(ids: seq<NotificationId>, id: NotificationId)
    requires id !in ids
    ensures Without(ids, id) == ids
  {
    if ids != [] {
      AbsentStays(ids[1..], id);
    }
  }

  lemma RemoveWaitingDeletes(toasts: Toasts, id: NotificationId)
    ensures var waiting := RemoveWaiting(toasts, id);
            && EntryIds(waiting.waitingEntries) + SummaryIds(waiting)
               == Without(EntryIds(toasts.waitingEntries) + SummaryIds(toasts), id)
            && waiting.waitingSummary != Some([])
            && |waiting.waitingEntries| <= |toasts.waitingEntries|
            && (HasWaitingPreview(waiting) ==> HasWaitingPreview(toasts))
  {
    EntriesWithoutIds(toasts.waitingEntries, id);
    if toasts.waitingSummary.Some? { MembersWithoutIds(toasts.waitingSummary.value, id); }
    WithoutAppend(EntryIds(toasts.waitingEntries), SummaryIds(toasts), id);
  }

  function WaitingIds(toasts: Toasts): seq<NotificationId> {
    EntryIds(toasts.waitingEntries) + SummaryIds(toasts)
  }

  // A removed id that the shown preview is not an entry of leaves the list.
  // The summary that is left counting nothing gives way.
  lemma RemoveIds(toasts: Toasts, id: NotificationId)
    requires !ShowsEntry(toasts, id)
    ensures PreviewedIds(RemovePreviews(toasts, id)) == Without(ShownIds(toasts), id) + Without(WaitingIds(toasts), id)
  {
    hide EntriesWithout, MembersWithout, Without;
    RemoveWaitingDeletes(toasts, id);
    var waiting := RemoveWaiting(toasts, id);
    if toasts.shownToast.Some? && toasts.shownToast.value.preview.SummaryPreview? {
      var toast := toasts.shownToast.value;
      MembersWithoutIds(toast.preview.members, id);
      var members := MembersWithout(toast.preview.members, id);
      if members == [] {
        NextShowsWaiting(waiting.(shownToast := Some(toast.(preview := SummaryPreview(members)))));
      }
    } else {
      AbsentStays(ShownIds(toasts), id);
      assert ShownIds(waiting) == ShownIds(toasts);
    }
  }

  lemma NextShowsWaiting(toasts: Toasts)
    requires toasts.shownToast.Some?
    ensures PreviewedIds(ShowNextPreview(toasts)) == WaitingIds(toasts)
  {
    var next := ShowNextPreview(toasts);
    if toasts.waitingEntries != [] {
      assert EntryIds(toasts.waitingEntries) == ShownIds(next) + EntryIds(next.waitingEntries);
    }
  }

  lemma RemoveStaysLevelled(toasts: Toasts, id: NotificationId)
    requires IsLevelled(toasts)
    ensures IsLevelled(RemovePreviews(toasts, id))
  {
    RemoveWaitingDeletes(toasts, id);
  }

  lemma ShownIsNotWaiting(toasts: Toasts, id: NotificationId)
    requires ShowsEntry(toasts, id) && AreDistinct(PreviewedIds(toasts))
    ensures id !in WaitingIds(toasts)
  {
    var ids := PreviewedIds(toasts);
    assert ids[0] == id && ids[1..] == WaitingIds(toasts);
    assert forall i :: 1 <= i < |ids| ==> ids[i] != id;
  }

  lemma RemoveShown(toasts: Toasts, id: NotificationId)
    requires ShowsEntry(toasts, id) && id !in WaitingIds(toasts)
    ensures PreviewedIds(RemovePreviews(toasts, id)) == PreviewedIds(toasts)
    ensures RemovePreviews(toasts, id).shownToast.value.withdrawRequest == Some(Fast)
  {
    hide EntriesWithout, MembersWithout, Without;
    AbsentStays(WaitingIds(toasts), id);
    RemoveWaitingDeletes(toasts, id);
    assert PreviewedIds(toasts) == [id] + WaitingIds(toasts);
    assert PreviewedIds(RemovePreviews(toasts, id)) == [id] + WaitingIds(toasts);
  }

  // Removing deletes the id, but for a shown entry, which only withdraws.
  lemma RemoveDeletes(toasts: Toasts, id: NotificationId)
    requires IsTidy(toasts)
    ensures IsTidy(RemovePreviews(toasts, id))
    ensures ShowsEntry(toasts, id) ==>
              && PreviewedIds(RemovePreviews(toasts, id)) == PreviewedIds(toasts)
              && RemovePreviews(toasts, id).shownToast.value.withdrawRequest == Some(Fast)
    ensures !ShowsEntry(toasts, id) ==> PreviewedIds(RemovePreviews(toasts, id)) == Without(PreviewedIds(toasts), id)
  {
    assert IsLevelled(RemovePreviews(toasts, id)) by { RemoveStaysLevelled(toasts, id); }
    if ShowsEntry(toasts, id) {
      ShownIsNotWaiting(toasts, id);
      RemoveShown(toasts, id);
    } else {
      RemoveOther(toasts, id);
      WithoutStaysDistinct(PreviewedIds(toasts), id);
    }
  }

  lemma RemoveOther(toasts: Toasts, id: NotificationId)
    requires !ShowsEntry(toasts, id)
    ensures PreviewedIds(RemovePreviews(toasts, id)) == Without(PreviewedIds(toasts), id)
  {
    assert PreviewedIds(toasts) == ShownIds(toasts) + WaitingIds(toasts);
    RemoveIds(toasts, id);
    WithoutAppend(ShownIds(toasts), WaitingIds(toasts), id);
  }

  // Repointing renames the first id it names and deletes the rest.
  lemma RepointRenamesFirst(toasts: Toasts, replacedIds: seq<NotificationId>, replacing: NotificationEntry)
    requires IsTidy(toasts)
    ensures var repointed := RepointPreviews(toasts, replacedIds, replacing);
            && IsTidy(repointed)
            && PreviewedIds(repointed) == RepointIds(PreviewedIds(toasts), replacedIds, replacing, false).0
  {
    var repointed := RepointPreviews(toasts, replacedIds, replacing);
    var (shown, afterShown) := RepointShown(toasts.shownToast, replacedIds, replacing);
    var (entries, afterEntries) := RepointEntries(toasts.waitingEntries, replacedIds, replacing, afterShown);
    RepointShownIds(toasts, replacedIds, replacing);
    RepointEntriesIds(toasts.waitingEntries, replacedIds, replacing, afterShown);
    if toasts.waitingSummary.Some? {
      RepointMembersIds(toasts.waitingSummary.value, replacedIds, replacing, afterEntries);
    }
    RepointAppend(ShownIds(toasts), EntryIds(toasts.waitingEntries), replacedIds, replacing, false);
    RepointAppend(ShownIds(toasts) + EntryIds(toasts.waitingEntries), SummaryIds(toasts), replacedIds, replacing, false);
    RepointStaysDistinct(PreviewedIds(toasts), replacedIds, replacing, false);
  }

  lemma RepointShownIds(toasts: Toasts, replacedIds: seq<NotificationId>, replacing: NotificationEntry)
    ensures var (shown, previewed) := RepointShown(toasts.shownToast, replacedIds, replacing);
            && (ShownIds(toasts.(shownToast := shown)), previewed) == RepointIds(ShownIds(toasts), replacedIds, replacing, false)
            && (shown.Some? <==> toasts.shownToast.Some?)
            && (shown.Some? && shown.value.preview.SummaryPreview? ==>
                 toasts.shownToast.value.preview.SummaryPreview?
                 && (toasts.shownToast.value.preview.members != [] ==> shown.value.preview.members != []))
  {
    if toasts.shownToast.Some? {
      match toasts.shownToast.value.preview
      case EntryPreview(entry) =>
        assert [entry.notificationId][1..] == [];
        assert RepointIds([], replacedIds, replacing, false) == ([], false);
        assert RepointIds([], replacedIds, replacing, true) == ([], true);
        assert [replacing.notificationId] + [] == [replacing.notificationId];
        assert [entry.notificationId] + [] == [entry.notificationId];
      case SummaryPreview(members) => RepointMembersIds(members, replacedIds, replacing, false);
    }
  }

  // ---------------------------------------------------------------------
  // Every run
  // ---------------------------------------------------------------------

  lemma ChangeStaysTidy(toasts: Toasts, change: ToastChange)
    requires IsTidy(toasts)
    ensures IsTidy(ApplyChange(toasts, change))
  {
    match change
    case Preview(entry) => QueueAppendsAbsent(toasts, entry);
    case Repeat(entry) => UpdateKeepsIds(toasts, entry);
    case Replace(replacedIds, entry) => RepointRenamesFirst(toasts, replacedIds, entry);
    case Drop(id) => RemoveDeletes(toasts, id);
    case Withdrawal => assert PreviewedIds(RequestWithdraw(toasts)) == PreviewedIds(toasts);
    case Clear => assert PreviewedIds(ClearPreviews(toasts)) == [];
  }

  // From an empty queue, every run leaves distinct ids, at most three waiting
  // entries, no empty summary, and nothing waiting behind nothing.
  lemma {:induction false} RunsStayTidy(steps: seq<ToastStep>)
    ensures IsTidy(RunSteps(EMPTY_TOASTS, steps))
  {
    if steps == [] {
      assert PreviewedIds(EMPTY_TOASTS) == [];
    } else {
      var before := RunSteps(EMPTY_TOASTS, steps[..|steps| - 1]);
      RunsStayTidy(steps[..|steps| - 1]);
      match steps[|steps| - 1]
      case Change(change) => ChangeStaysTidy(before, change);
      case Tick(currentTime, timing, isPaused) => AdvanceDropsPrefix(before, currentTime, timing, isPaused);
    }
  }
}
