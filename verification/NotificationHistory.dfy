// The history as its methods update it, in place and in index loops
// (crates/koshi-client/src/notification_history.rs), each method proved
// against its function in HistoryView and HistoryMerge.
module NotificationHistory {
  import opened Options
  import opened Notifications
  import opened ToastQueue
  import opened HistoryView
  import opened HistoryMerge

  class MergedHistory {
    var clientQueue: NotificationQueue
    var sessionQueueMark: Option<SessionQueueMark>
    var mergedEntries: seq<NotificationEntry>
    var droppedEntryCount: nat
    var unreadEntryCount: nat
    var isSessionLocal: bool
    var notificationCenter: Option<CenterState>
    const notificationToast: NotificationToastQueue

    ghost function View(): HistoryView
      reads this, notificationToast
    {
      HistoryView(mergedEntries, droppedEntryCount, unreadEntryCount, isSessionLocal, notificationCenter, notificationToast.State())
    }

    ghost function State(): History
      reads this, notificationToast
    {
      History(clientQueue, sessionQueueMark, View())
    }

    constructor (clientNumber: nat, epoch: nat, isSessionLocal: bool)
      ensures fresh(notificationToast)
      ensures State() == NewHistory(clientNumber, epoch, isSessionLocal)
    {
      clientQueue := EmptyQueue(ClientOwner(clientNumber), epoch);
      sessionQueueMark, mergedEntries, droppedEntryCount, unreadEntryCount := None, [], 0, 0;
      this.isSessionLocal, notificationCenter := isSessionLocal, None;
      notificationToast := new NotificationToastQueue();
    }

    method FindMergedEntryIndex(id: NotificationId) returns (index: Option<nat>)
      ensures index == FindIndex(mergedEntries, id)
    {
      for i := 0 to |mergedEntries|
        invariant FindIndex(mergedEntries, id)
               == match FindIndex(mergedEntries[i..], id) case Some(later) => Some(later + i) case None => None
      {
        assert mergedEntries[i..][0] == mergedEntries[i] && mergedEntries[i..][1..] == mergedEntries[i + 1..];
        if mergedEntries[i].notificationId == id {
          return Some(i);
        }
      }
      assert mergedEntries[|mergedEntries|..] == [];
      return None;
    }

    method RemoveMergedEntryAt(index: nat)
      requires index < |mergedEntries|
      modifies this
      ensures clientQueue == old(clientQueue) && sessionQueueMark == old(sessionQueueMark)
      ensures View() == RemoveAt(old(View()), index)
    {
      var isUnread := index + unreadEntryCount >= |mergedEntries|;
      var removedId := mergedEntries[index].notificationId;
      mergedEntries := mergedEntries[..index] + mergedEntries[index + 1..];
      if isUnread {
        unreadEntryCount := unreadEntryCount - 1;
      }
      if notificationCenter.Some? && notificationCenter.value.selectedId == Some(removedId) {
        var next: Option<NotificationId> := None;
        if index > 0 {
          next := Some(mergedEntries[index - 1].notificationId);
        } else if index < |mergedEntries| {
          next := Some(mergedEntries[index].notificationId);
        }
        notificationCenter := Some(notificationCenter.value.(selectedId := next));
      }
    }

    // The index loop that removes the viewer's own duplicates of an arrival.
    method RemoveOwnDuplicates(arrived: NotificationEntry) returns (replacedIds: seq<NotificationId>)
      modifies this
      ensures clientQueue == old(clientQueue) && sessionQueueMark == old(sessionQueueMark)
      ensures (View(), replacedIds) == RemoveDuplicates(old(View()), 0, arrived)
    {
      replacedIds := [];
      var index: nat := 0;
      ghost var all := RemoveDuplicates(View(), 0, arrived);
      assert [] + all.1 == all.1;
      while index < |mergedEntries|
        invariant index <= |mergedEntries|
        invariant clientQueue == old(clientQueue) && sessionQueueMark == old(sessionQueueMark)
        invariant var (left, ids) := RemoveDuplicates(View(), index, arrived); all == (left, replacedIds + ids)
        decreases |mergedEntries| - index
      {
        ghost var (left, ids) := RemoveDuplicates(View(), index, arrived);
        if IsOwnDuplicate(mergedEntries[index], arrived) {
          assert replacedIds + ids == (replacedIds + [ids[0]]) + ids[1..];
          replacedIds := replacedIds + [mergedEntries[index].notificationId];
          RemoveMergedEntryAt(index);
        } else {
          index := index + 1;
        }
      }
      assert replacedIds + [] == replacedIds;
    }

    method EvictOldestEntry()
      modifies this, notificationToast
      ensures clientQueue == old(clientQueue) && sessionQueueMark == old(sessionQueueMark)
      ensures View() == EvictOldest(old(View()))
    {
      if mergedEntries == [] {
        return;
      }
      var evictedId := mergedEntries[0].notificationId;
      RemoveMergedEntryAt(0);
      droppedEntryCount := (droppedEntryCount + 1) % (MAX_U64 + 1);
      notificationToast.Remove(evictedId);
    }

    method AddNewestEntry(arrived: NotificationEntry, shouldPreview: bool)
      modifies this, notificationToast
      ensures clientQueue == old(clientQueue) && sessionQueueMark == old(sessionQueueMark)
      ensures View() == AddNewest(old(View()), arrived, shouldPreview)
    {
      var isCenterOpen := notificationCenter.Some? && !notificationCenter.value.isClosing;
      if shouldPreview && !isCenterOpen {
        notificationToast.Queue(arrived);
      } else {
        var hasPreview := notificationToast.Update(arrived);
      }
      if !isCenterOpen {
        unreadEntryCount := unreadEntryCount + 1;
      }
      if isCenterOpen && notificationCenter.value.selectedId.None? {
        notificationCenter := Some(notificationCenter.value.(selectedId := Some(arrived.notificationId)));
      }
      mergedEntries := mergedEntries + [arrived];
    }

    method PushMergedEntry(arrived: NotificationEntry, shouldPreview: bool)
      modifies this, notificationToast
      ensures clientQueue == old(clientQueue) && sessionQueueMark == old(sessionQueueMark)
      ensures View() == PushNewest(old(View()), arrived, shouldPreview)
    {
      if isSessionLocal && arrived.notificationId.owner.SessionOwner? && arrived.source == Core {
        var replacedIds := RemoveOwnDuplicates(arrived);
        if replacedIds != [] {
          notificationToast.Repoint(replacedIds, arrived);
        }
        assert View() == ReplaceDuplicates(old(View()), arrived) by { DuplicatesAreNamed(old(View()), 0, arrived); }
      }
      if |mergedEntries| == MAX_MERGED_NOTIFICATION_COUNT {
        EvictOldestEntry();
      }
      AddNewestEntry(arrived, shouldPreview);
    }

    method TakeArrivalNow(arrived: NotificationEntry, shouldShowToasts: bool)
      modifies this, notificationToast
      ensures clientQueue == old(clientQueue) && sessionQueueMark == old(sessionQueueMark)
      ensures View() == TakeArrival(old(View()), arrived, shouldShowToasts)
    {
      var selected := if notificationCenter.Some? then notificationCenter.value.selectedId else None;
      var heldIndex := FindMergedEntryIndex(arrived.notificationId);
      if heldIndex.Some? {
        RemoveMergedEntryAt(heldIndex.value);
      }
      PushMergedEntry(arrived, shouldShowToasts);
      if selected == Some(arrived.notificationId) && notificationCenter.Some? {
        notificationCenter := Some(notificationCenter.value.(selectedId := selected));
      }
    }

    method CountSkippedSequences(entry: NotificationEntry, nextExpected: nat) returns (nextExpectedThen: nat)
      modifies this
      ensures clientQueue == old(clientQueue) && sessionQueueMark == old(sessionQueueMark)
      ensures View() == CountSkipped(old(View()), entry, nextExpected)
      ensures nextExpectedThen == NextAfter(entry, nextExpected)
    {
      var sequence := entry.notificationId.sequence;
      if sequence < nextExpected {
        return nextExpected;
      }
      if sequence > nextExpected {
        droppedEntryCount := Least(droppedEntryCount + (sequence - nextExpected), MAX_U64);
      }
      nextExpectedThen := SequenceAfter(sequence);
    }

    method TakeQueue(sanitize: string -> string, sessionNumber: nat, queue: NotificationQueue, shouldShowToasts: bool)
      returns (result: TakeResult)
      modifies this, notificationToast
      ensures (State(), result) == TakeSessionQueue(old(State()), sanitize, sessionNumber, queue, shouldShowToasts)
    {
      var error := ValidateQueue(queue);
      if error.Some? {
        return InvalidQueue(error.value);
      }
      if queue.owner != SessionOwner(sessionNumber) {
        return ForeignQueue(queue.owner);
      }
      var shouldPreview := shouldShowToasts && sessionQueueMark.Some? && sessionQueueMark.value.owner == queue.owner;
      var through: Option<MergedThrough> := None;
      if IsSameQueue(sessionQueueMark, queue.owner, queue.epoch) {
        if queue.revision < sessionQueueMark.value.revision {
          return Taken;
        }
        through := sessionQueueMark.value.mergedThrough;
      }
      var nextExpected := NextExpected(through);
      ghost var all := TakeEntries(View(), sanitize, queue.entries, through, nextExpected, shouldPreview);
      for i := 0 to |queue.entries|
        invariant clientQueue == old(clientQueue) && sessionQueueMark == old(sessionQueueMark)
        invariant TakeEntries(View(), sanitize, queue.entries[i..], through, nextExpected, shouldPreview) == all
      {
        var entry := queue.entries[i];
        assert queue.entries[i..][0] == entry && queue.entries[i..][1..] == queue.entries[i + 1..];
        ghost var before, expected := View(), nextExpected;
        nextExpected := CountSkippedSequences(entry, nextExpected);
        if IsNewer(through, entry) {
          TakeArrivalNow(SanitizeEntry(entry, sanitize), shouldPreview);
          assert View() == TakeEntry(before, sanitize, entry, through, expected, shouldPreview);
          through := Some(ThroughOf(entry));
        } else {
          assert View() == TakeEntry(before, sanitize, entry, through, expected, shouldPreview);
        }
      }
      assert queue.entries[|queue.entries|..] == [];
      sessionQueueMark := Some(SessionQueueMark(queue.owner, queue.epoch, queue.revision, through));
      return Taken;
    }

    method TakePost(sanitize: string -> string, revision: nat, entry: NotificationEntry, shouldShowToasts: bool)
      returns (result: TakeResult)
      modifies this, notificationToast
      ensures (State(), result) == TakeSessionPost(old(State()), sanitize, revision, entry, shouldShowToasts)
    {
      if sessionQueueMark.None? {
        return PostWithoutQueue(entry.notificationId);
      }
      var mark := sessionQueueMark.value;
      if entry.notificationId.owner != mark.owner || entry.notificationId.epoch != mark.epoch {
        return ForeignPost(entry.notificationId);
      }
      if revision <= mark.revision {
        return Taken;
      }
      var isNew := IsNewer(mark.mergedThrough, entry);
      sessionQueueMark := Some(mark.(revision := revision, mergedThrough := if isNew then Some(ThroughOf(entry)) else mark.mergedThrough));
      var nextExpected := CountSkippedSequences(entry, NextExpected(mark.mergedThrough));
      if isNew {
        TakeArrivalNow(SanitizeEntry(entry, sanitize), shouldShowToasts);
      }
      return Taken;
    }

    method PostOwn(sanitize: string -> string, post: CorePost, shouldShowToasts: bool)
      modifies this, notificationToast
      ensures State() == PostOwnEntry(old(State()), sanitize, post, shouldShowToasts)
    {
      if isSessionLocal && IsHeldBySession(mergedEntries, post.severity, sanitize(post.text)) {
        return;
      }
      clientQueue := PostCoreEntry(clientQueue, sanitize, post);
      TakeArrivalNow(clientQueue.entries[|clientQueue.entries| - 1], shouldShowToasts);
    }

    method Dismiss(id: NotificationId)
      modifies this, notificationToast
      ensures State() == old(State()).(view := DismissEntry(old(View()), id))
    {
      var index := FindMergedEntryIndex(id);
      if index.Some? {
        RemoveMergedEntryAt(index.value);
        notificationToast.Remove(id);
      }
    }

    method ClearMergedEntries()
      modifies this, notificationToast
      ensures State() == old(State()).(view := ClearEntries(old(View())))
    {
      mergedEntries, droppedEntryCount, unreadEntryCount := [], 0, 0;
      if notificationCenter.Some? {
        notificationCenter := Some(notificationCenter.value.(selectedId := None));
      }
      notificationToast.Clear();
    }

    method OpenNotificationCenter()
      modifies this, notificationToast
      ensures State() == old(State()).(view := OpenCenter(old(View())))
    {
      if notificationCenter.Some? && !notificationCenter.value.isClosing {
        return;
      }
      notificationCenter := Some(CenterState(NewestId(mergedEntries), false));
      unreadEntryCount := 0;
      notificationToast.Clear();
    }

    method SelectAdjacentEntry(isNewer: bool) returns (next: Option<NotificationId>)
      modifies this
      ensures next == FindAdjacent(old(View()), isNewer)
      ensures State() == old(State()).(view := SelectAdjacent(old(View()), isNewer))
    {
      next := None;
      if notificationCenter.None? || notificationCenter.value.isClosing || notificationCenter.value.selectedId.None? {
        return;
      }
      var index := FindMergedEntryIndex(notificationCenter.value.selectedId.value);
      if index.None? || (!isNewer && index.value == 0) || (isNewer && index.value + 1 >= |mergedEntries|) {
        return;
      }
      next := Some(mergedEntries[if isNewer then index.value + 1 else index.value - 1].notificationId);
      notificationCenter := Some(notificationCenter.value.(selectedId := next));
    }
  }
}
