// Nothing the history held or was told of goes uncounted: what entered it is
// held, evicted, dismissed, replaced or cleared, and the dropped count is the
// entries evicted and reported lost.
module HistoryLedger {
  import opened Options
  import opened Notifications
  import opened ToastQueue
  import opened Runs
  import opened Totals
  import opened HistoryView
  import opened HistoryMerge

  // What one change adds to the history, evicts from it, and so on. An entry
  // that only moves adds nothing.
  function Added(view: HistoryView, change: HistoryChange): nat {
    if change.Arrive? && FindIndex(view.entries, change.entry.notificationId).None? then 1 else 0
  }

  function Replaced(view: HistoryView, change: HistoryChange): nat {
    if change.Arrive? && ReplacesDuplicates(view, change.entry)
    then |RemoveDuplicates(RemoveHeld(view, change.entry.notificationId), 0, change.entry).1| else 0
  }

  function Evicted(view: HistoryView, change: HistoryChange): nat {
    if change.Arrive?
      && |ReplaceDuplicates(RemoveHeld(view, change.entry.notificationId), change.entry).entries| == MAX_MERGED_NOTIFICATION_COUNT
    then 1 else 0
  }

  function Dismissed(view: HistoryView, change: HistoryChange): nat {
    if change.Dismiss? && FindIndex(view.entries, change.id).Some? then 1 else 0
  }

  function Cleared(view: HistoryView, change: HistoryChange): nat {
    if change.ClearAll? then |view.entries| else 0
  }

  function Reported(view: HistoryView, change: HistoryChange): nat {
    if change.Report? then change.count else 0
  }

  function Counted(view: HistoryView, changes: seq<HistoryChange>, count: (HistoryView, HistoryChange) -> nat): nat {
    Tally(view, changes, ApplyHistoryChange, count)
  }

  lemma HeldByArrival(view: HistoryView, arrived: NotificationEntry, shouldShowToasts: bool)
    ensures var change := Arrive(arrived, shouldShowToasts);
            |TakeArrival(view, arrived, shouldShowToasts).entries|
            == |view.entries| + Added(view, change) - Evicted(view, change) - Replaced(view, change)
  {
    var removed := RemoveHeld(view, arrived.notificationId);
    assert |removed.entries| + 1 == |view.entries| + Added(view, Arrive(arrived, shouldShowToasts));
    DuplicatesAreNamed(removed, 0, arrived);
    var replaced := ReplaceDuplicates(removed, arrived);
    assert |MakeRoom(replaced).entries| == |replaced.entries| - Evicted(view, Arrive(arrived, shouldShowToasts));
    assert |PushNewest(removed, arrived, shouldShowToasts).entries| == |MakeRoom(replaced).entries| + 1;
  }

  lemma HeldByChange(view: HistoryView, change: HistoryChange)
    ensures |ApplyHistoryChange(view, change).entries|
         == |view.entries| + Added(view, change) - Evicted(view, change) - Replaced(view, change)
            - Dismissed(view, change) - Cleared(view, change)
  {
    if change.Arrive? {
      HeldByArrival(view, change.entry, change.shouldShowToasts);
    }
  }

  // Entries added less entries evicted, replaced, dismissed and cleared are
  // the entries held.
  lemma {:induction false} HeldEntriesAreCounted(view: HistoryView, changes: seq<HistoryChange>)
    ensures |RunChanges(view, changes).entries|
         == |view.entries| + Counted(view, changes, Added) - Counted(view, changes, Evicted) - Counted(view, changes, Replaced)
            - Counted(view, changes, Dismissed) - Counted(view, changes, Cleared)
    decreases |changes|
  {
    if changes != [] {
      var init, change := changes[..|changes| - 1], changes[|changes| - 1];
      HeldEntriesAreCounted(view, init);
      HeldByChange(RunChanges(view, init), change);
    }
  }

  lemma DroppedByArrival(view: HistoryView, arrived: NotificationEntry, shouldShowToasts: bool)
    requires view.droppedCount <= MAX_U64
    ensures var (evicted, after) := (Evicted(view, Arrive(arrived, shouldShowToasts)), TakeArrival(view, arrived, shouldShowToasts).droppedCount);
            after <= MAX_U64 && (view.droppedCount + evicted <= MAX_U64 ==> after == view.droppedCount + evicted)
  {
    var removed := RemoveHeld(view, arrived.notificationId);
    assert removed.droppedCount == view.droppedCount;
    DuplicatesAreNamed(removed, 0, arrived);
    var replaced := ReplaceDuplicates(removed, arrived);
    assert replaced.droppedCount == view.droppedCount;
    MakingRoomCounts(replaced);
    var pushed := AddNewest(MakeRoom(replaced), arrived, shouldShowToasts);
    assert pushed.droppedCount == MakeRoom(replaced).droppedCount;
  }

  lemma MakingRoomCounts(view: HistoryView)
    requires view.droppedCount <= MAX_U64
    ensures var evicted := if |view.entries| == MAX_MERGED_NOTIFICATION_COUNT then 1 else 0;
            && MakeRoom(view).droppedCount <= MAX_U64
            && (view.droppedCount + evicted <= MAX_U64 ==> MakeRoom(view).droppedCount == view.droppedCount + evicted)
  {
  }

  lemma DroppedByChange(view: HistoryView, change: HistoryChange)
    requires view.droppedCount <= MAX_U64 && !change.ClearAll?
    ensures var (lost, after) := (Evicted(view, change) + Reported(view, change), ApplyHistoryChange(view, change).droppedCount);
            after <= MAX_U64 && (view.droppedCount + lost <= MAX_U64 ==> after == view.droppedCount + lost)
  {
    if change.Arrive? {
      DroppedByArrival(view, change.entry, change.shouldShowToasts);
    }
  }

  // Between two clears, the dropped count counts each eviction and each
  // reported loss, exactly as long as they fit the count.
  lemma {:induction false} DroppedCountIsExact(view: HistoryView, changes: seq<HistoryChange>)
    requires view.droppedCount <= MAX_U64 && forall change :: change in changes ==> !change.ClearAll?
    ensures var lost := Counted(view, changes, Evicted) + Counted(view, changes, Reported);
            && RunChanges(view, changes).droppedCount <= MAX_U64
            && (RunChanges(view, changes).droppedCount == view.droppedCount + lost <==> view.droppedCount + lost <= MAX_U64)
    decreases |changes|
  {
    if changes != [] {
      var init, change := changes[..|changes| - 1], changes[|changes| - 1];
      assert change in changes;
      assert forall c :: c in init ==> c in changes;
      DroppedCountIsExact(view, init);
      DroppedByChange(RunChanges(view, init), change);
    }
  }

  // ---------------------------------------------------------------------
  // A run that evicts past the count
  // ---------------------------------------------------------------------

  // An entry not held yet joins those held, or takes the place of the oldest.
  lemma ArrivalOfNewJoins(view: HistoryView, arrived: NotificationEntry, shouldShowToasts: bool)
    requires !view.isSessionLocal && |view.entries| <= MAX_MERGED_NOTIFICATION_COUNT
    requires FindIndex(view.entries, arrived.notificationId).None?
    ensures var after, isFull := TakeArrival(view, arrived, shouldShowToasts), |view.entries| == MAX_MERGED_NOTIFICATION_COUNT;
            && after.entries == (if isFull then view.entries[1..] else view.entries) + [arrived]
            && after.droppedCount == (if isFull then (view.droppedCount + 1) % (MAX_U64 + 1) else view.droppedCount)
            && after.isSessionLocal == view.isSessionLocal
  {
    assert view.entries != [] ==> Without(view.entries, 0) == view.entries[1..];
  }

  function EntryAt(owner: NotificationQueueOwner, epoch: nat, sequence: nat): NotificationEntry {
    NotificationEntry(NotificationId(owner, epoch, sequence), Core, Info, "", 0, 1)
  }

  // A queue of one entry, whose sequence is the greatest there is, and the
  // first 256 entries of the session's next queue.
  function LateQueue(sessionNumber: nat): NotificationQueue {
    NotificationQueue(SessionOwner(sessionNumber), 0, 0, [EntryAt(SessionOwner(sessionNumber), 0, MAX_U64)])
  }

  function FullQueue(sessionNumber: nat): NotificationQueue {
    NotificationQueue(SessionOwner(sessionNumber), 1, 0,
      seq(MAX_QUEUED_NOTIFICATION_COUNT, i requires 0 <= i < MAX_QUEUED_NOTIFICATION_COUNT => EntryAt(SessionOwner(sessionNumber), 1, i)))
  }

  // The late entry and the first `index` of the full queue are held, and the
  // count is full.
  predicate IsFilledTo(view: HistoryView, index: nat) {
    && !view.isSessionLocal && view.droppedCount == MAX_U64 && |view.entries| == index + 1
    && forall entry :: entry in view.entries ==> entry.notificationId.epoch == 0 || entry.notificationId.sequence < index
  }

  function ThroughFull(index: nat): Option<MergedThrough> {
    if index == 0 then None else Some(MergedThrough(index - 1, 1))
  }

  lemma FullQueueEntryArrives(view: HistoryView, sanitize: string -> string, sessionNumber: nat, index: nat, shouldPreview: bool)
    requires index < MAX_QUEUED_NOTIFICATION_COUNT && IsFilledTo(view, index)
    ensures var entry, through := EntryAt(SessionOwner(sessionNumber), 1, index), ThroughFull(index);
            var after := TakeEntry(view, sanitize, entry, through, NextExpected(through), shouldPreview);
            && ThroughAfter(through, entry) == ThroughFull(index + 1)
            && NextAfter(entry, NextExpected(through)) == NextExpected(ThroughFull(index + 1))
            && (if index + 1 < MAX_QUEUED_NOTIFICATION_COUNT then IsFilledTo(after, index + 1) else after.droppedCount == 0)
  {
    hide TakeArrival;
    var entry := EntryAt(SessionOwner(sessionNumber), 1, index);
    if FindIndex(view.entries, entry.notificationId).Some? {
      assert view.entries[FindIndex(view.entries, entry.notificationId).value] in view.entries;
    }
    ArrivalOfNewJoins(view, SanitizeEntry(entry, sanitize), shouldPreview);
  }

  lemma {:induction false} FullQueueEvicts(view: HistoryView, sanitize: string -> string, sessionNumber: nat, index: nat, shouldPreview: bool)
    requires index < MAX_QUEUED_NOTIFICATION_COUNT && IsFilledTo(view, index)
    ensures TakeEntries(view, sanitize, FullQueue(sessionNumber).entries[index..], ThroughFull(index), NextExpected(ThroughFull(index)),
              shouldPreview).0.droppedCount == 0
    decreases MAX_QUEUED_NOTIFICATION_COUNT - index
  {
    hide TakeEntry, IsFilledTo, ThroughAfter, ThroughFull, NextAfter, NextExpected;
    var entries, entry := FullQueue(sessionNumber).entries, EntryAt(SessionOwner(sessionNumber), 1, index);
    var through, throughThen := ThroughFull(index), ThroughFull(index + 1);
    assert entries[index..][0] == entry && entries[index..][1..] == entries[index + 1..];
    FullQueueEntryArrives(view, sanitize, sessionNumber, index, shouldPreview);
    var after := TakeEntry(view, sanitize, entry, through, NextExpected(through), shouldPreview);
    if index + 1 < MAX_QUEUED_NOTIFICATION_COUNT {
      FullQueueEvicts(after, sanitize, sessionNumber, index + 1, shouldPreview);
    } else {
      assert entries[index + 1..] == [];
    }
  }

  lemma LateQueueFillsTheCount(start: History, sanitize: string -> string, sessionNumber: nat, shouldShowToasts: bool)
    requires start.mark == None && start.view.entries == [] && start.view.droppedCount == 0 && !start.view.isSessionLocal
    ensures var told := ApplyOp(start, sanitize, TakeQueue(sessionNumber, LateQueue(sessionNumber), shouldShowToasts));
            IsFilledTo(told.view, 0) && IsSameQueue(told.mark, SessionOwner(sessionNumber), 0)
  {
    hide TakeArrival;
    var entry := EntryAt(SessionOwner(sessionNumber), 0, MAX_U64);
    assert [entry][1..] == [];
    var counted := CountSkipped(start.view, entry, 0);
    assert counted.droppedCount == MAX_U64;
    ArrivalOfNewJoins(counted, SanitizeEntry(entry, sanitize), false);
    assert TakeEntries(start.view, sanitize, [entry], None, 0, false).0 == TakeArrival(counted, SanitizeEntry(entry, sanitize), false);
    assert ValidateQueue(LateQueue(sessionNumber)).None?;
  }

  // Past that, a report saturates the count, but an eviction starts it over at
  // 0: a run of two queues comes to it.
  lemma EvictionPastSaturationStartsOver(clientNumber: nat, clientEpoch: nat, sanitize: string -> string, sessionNumber: nat, shouldShowToasts: bool)
    ensures var start := NewHistory(clientNumber, clientEpoch, false);
            var late, full := TakeQueue(sessionNumber, LateQueue(sessionNumber), shouldShowToasts), TakeQueue(sessionNumber, FullQueue(sessionNumber), shouldShowToasts);
            && RunOps(start, sanitize, [late]).view.droppedCount == MAX_U64
            && RunOps(start, sanitize, [late, HistoryOp.Change(Report(1))]).view.droppedCount == MAX_U64
            && RunOps(start, sanitize, [late, full]).view.droppedCount == 0
  {
    hide TakeEntries, FullQueue, LateQueue;
    var start := NewHistory(clientNumber, clientEpoch, false);
    var late, full := TakeQueue(sessionNumber, LateQueue(sessionNumber), shouldShowToasts), TakeQueue(sessionNumber, FullQueue(sessionNumber), shouldShowToasts);
    LateQueueFillsTheCount(start, sanitize, sessionNumber, shouldShowToasts);
    assert [late][..0] == [] && [late, full][..1] == [late] && [late, HistoryOp.Change(Report(1))][..1] == [late];
    assert RunOps(start, sanitize, []) == start;
    var told := ApplyOp(start, sanitize, late);
    assert RunOps(start, sanitize, [late]) == told;
    FullQueueIsValid(sessionNumber);
    FullQueueEvicts(told.view, sanitize, sessionNumber, 0, shouldShowToasts);
  }

  lemma FullQueueIsValid(sessionNumber: nat)
    ensures var queue := FullQueue(sessionNumber);
            ValidateQueue(queue).None? && queue.owner == SessionOwner(sessionNumber) && queue.epoch == 1 && queue.entries[0..] == queue.entries
  {
    var queue := FullQueue(sessionNumber);
    assert forall entry :: entry in queue.entries ==> !IsForeign(entry, queue);
  }

  // ---------------------------------------------------------------------
  // Sequences of one session queue
  // ---------------------------------------------------------------------

  // Whether an entry is a new sequence, and how many it passes over.
  datatype Sequences = Sequences(taken: nat, skipped: nat)

  function CountEntry(entry: NotificationEntry, nextExpected: nat): Sequences {
    if entry.notificationId.sequence < nextExpected then Sequences(0, 0)
    else Sequences(1, entry.notificationId.sequence - nextExpected)
  }

  predicate IsSequenced(entry: NotificationEntry) { entry.notificationId.sequence < MAX_U64 }

  predicate IsSequencedOp(op: HistoryOp) {
    && (op.TakeQueue? ==> forall entry :: entry in op.queue.entries ==> IsSequenced(entry))
    && (op.TakePost? ==> IsSequenced(op.entry))
  }

  // A new sequence is always taken; what it passes over is reported.
  lemma EntryIsCounted(sanitize: string -> string, entry: NotificationEntry, through: Option<MergedThrough>, shouldPreview: bool)
    requires IsSequenced(entry)
    ensures var (next, counted) := (NextExpected(through), CountEntry(entry, NextExpected(through)));
            var changes := EntryChanges(sanitize, entry, through, next, shouldPreview);
            && NextExpected(ThroughAfter(through, entry)) == NextAfter(entry, next) == next + counted.taken + counted.skipped
            && (counted.taken == 1 ==> Arrive(SanitizeEntry(entry, sanitize), shouldPreview) in changes)
            && (counted.skipped > 0 ==> Report(counted.skipped) in changes)
  {
  }

  // The sequences of one queue that `changes` bring in.
  function ArrivedSequences(changes: seq<HistoryChange>, owner: NotificationQueueOwner, epoch: nat): set<nat> {
    if changes == [] then {}
    else
      var last := changes[|changes| - 1];
      ArrivedSequences(changes[..|changes| - 1], owner, epoch)
      + (if last.Arrive? && IsFrom(last.entry, owner, epoch) then {last.entry.notificationId.sequence} else {})
  }

  lemma {:induction false} ArrivedAppend(first: seq<HistoryChange>, second: seq<HistoryChange>, owner: NotificationQueueOwner, epoch: nat)
    ensures ArrivedSequences(first + second, owner, epoch) == ArrivedSequences(first, owner, epoch) + ArrivedSequences(second, owner, epoch)
    decreases |second|
  {
    if second == [] {
      assert first + second == first;
    } else {
      var init := second[..|second| - 1];
      assert (first + second)[..|first + second| - 1] == first + init;
      ArrivedAppend(first, init, owner, epoch);
    }
  }

  function ReportedBy(change: HistoryChange): int {
    if change.Report? then change.count else 0
  }

  lemma {:induction false} ReportsAreTotalled(view: HistoryView, changes: seq<HistoryChange>)
    ensures Counted(view, changes, Reported) == Total(changes, ReportedBy)
  {
    if changes != [] {
      ReportsAreTotalled(view, changes[..|changes| - 1]);
    }
  }

  // Each sequence before the next expected one has arrived or been skipped.
  predicate IsAccountedFor(arrived: set<nat>, skipped: int, through: Option<MergedThrough>) {
    && |arrived| + skipped == NextExpected(through)
    && (forall sequence :: sequence in arrived ==> sequence < NextExpected(through))
    && (through.Some? ==> through.value.sequence in arrived)
  }

  lemma ChangeBrings(change: HistoryChange, owner: NotificationQueueOwner, epoch: nat)
    ensures ArrivedSequences([change], owner, epoch)
         == if change.Arrive? && IsFrom(change.entry, owner, epoch) then {change.entry.notificationId.sequence} else {}
    ensures Total([change], ReportedBy) == ReportedBy(change)
  {
    TotalOne(change, ReportedBy);
    assert [change][..0] == [];
  }

  lemma EntryBrings(sanitize: string -> string, entry: NotificationEntry, through: Option<MergedThrough>, nextExpected: nat, shouldPreview: bool,
      owner: NotificationQueueOwner, epoch: nat)
    requires IsFrom(entry, owner, epoch)
    ensures var changes, sequence := EntryChanges(sanitize, entry, through, nextExpected, shouldPreview), entry.notificationId.sequence;
            && ArrivedSequences(changes, owner, epoch) == (if IsNewer(through, entry) then {sequence} else {})
            && Total(changes, ReportedBy) == if sequence > nextExpected then sequence - nextExpected else 0
  {
    assert ArrivedSequences([], owner, epoch) == {} && Total([], ReportedBy) == 0;
    var report := if entry.notificationId.sequence > nextExpected then [Report(entry.notificationId.sequence - nextExpected)] else [];
    var arrive := if IsNewer(through, entry) then [Arrive(SanitizeEntry(entry, sanitize), shouldPreview)] else [];
    TotalAppend(report, arrive, ReportedBy);
    ArrivedAppend(report, arrive, owner, epoch);
    hide IsNewer, Total, ArrivedSequences;
    ChangeBrings(Report(if report == [] then 0 else report[0].count), owner, epoch);
    ChangeBrings(Arrive(SanitizeEntry(entry, sanitize), shouldPreview), owner, epoch);
  }

  lemma EntryIsAccountedFor(sanitize: string -> string, entry: NotificationEntry, through: Option<MergedThrough>, shouldPreview: bool,
      owner: NotificationQueueOwner, epoch: nat, arrived: set<nat>, skipped: int)
    requires IsFrom(entry, owner, epoch) && IsSequenced(entry) && IsAccountedFor(arrived, skipped, through)
    ensures var changes := EntryChanges(sanitize, entry, through, NextExpected(through), shouldPreview);
            IsAccountedFor(arrived + ArrivedSequences(changes, owner, epoch), skipped + Total(changes, ReportedBy), ThroughAfter(through, entry))
    ensures NextExpected(ThroughAfter(through, entry)) == NextAfter(entry, NextExpected(through))
  {
    hide EntryChanges;
    var sequence := entry.notificationId.sequence;
    EntryBrings(sanitize, entry, through, NextExpected(through), shouldPreview, owner, epoch);
    if !IsNewer(through, entry) {
      assert arrived + {} == arrived;
    } else if sequence < NextExpected(through) {
      assert arrived + {sequence} == arrived;
    } else {
      assert sequence !in arrived;
      assert |arrived + {sequence}| == |arrived| + 1;
    }
  }

  lemma {:induction false} EntriesAreAccountedFor(view: HistoryView, sanitize: string -> string, entries: seq<NotificationEntry>,
      through: Option<MergedThrough>, shouldPreview: bool, owner: NotificationQueueOwner, epoch: nat, arrived: set<nat>, skipped: int)
    requires forall entry :: entry in entries ==> IsSequenced(entry) && IsFrom(entry, owner, epoch)
    requires IsAccountedFor(arrived, skipped, through)
    ensures var changes := QueueChanges(sanitize, entries, through, NextExpected(through), shouldPreview);
            IsAccountedFor(arrived + ArrivedSequences(changes, owner, epoch), skipped + Total(changes, ReportedBy),
              TakeEntries(view, sanitize, entries, through, NextExpected(through), shouldPreview).1)
    decreases |entries|
  {
    hide IsAccountedFor, EntryChanges, TakeEntry, ThroughAfter, NextExpected, NextAfter;
    if entries == [] {
      assert arrived + {} == arrived;
    } else {
      var entry, rest, next := entries[0], entries[1..], NextExpected(through);
      assert entry in entries && forall e :: e in rest ==> e in entries;
      var first, throughThen := EntryChanges(sanitize, entry, through, next, shouldPreview), ThroughAfter(through, entry);
      EntryIsAccountedFor(sanitize, entry, through, shouldPreview, owner, epoch, arrived, skipped);
      var (sofar, passed) := (arrived + ArrivedSequences(first, owner, epoch), skipped + Total(first, ReportedBy));
      EntriesAreAccountedFor(TakeEntry(view, sanitize, entry, through, next, shouldPreview), sanitize, rest, throughThen, shouldPreview,
        owner, epoch, sofar, passed);
      var later := QueueChanges(sanitize, rest, throughThen, NextExpected(throughThen), shouldPreview);
      ArrivedAppend(first, later, owner, epoch);
      TotalAppend(first, later, ReportedBy);
      assert arrived + (ArrivedSequences(first, owner, epoch) + ArrivedSequences(later, owner, epoch))
          == sofar + ArrivedSequences(later, owner, epoch);
    }
  }

  // ---------------------------------------------------------------------
  // A run on one session queue
  // ---------------------------------------------------------------------

  // A queue taken whole is the one named; a live post is of the queue the mark
  // stands on already.
  predicate StaysOn(op: HistoryOp, owner: NotificationQueueOwner, epoch: nat) {
    op.TakeQueue? ==> op.queue.owner == owner && op.queue.epoch == epoch
  }

  // What the session reports lost outright, beside its queues and posts.
  function ToldLost(op: HistoryOp): int {
    if op.Change? then ReportedBy(op.change) else 0
  }

  predicate IsAccountedOn(history: History, owner: NotificationQueueOwner, epoch: nat, arrived: set<nat>, skipped: int) {
    && IsOwnQueue(history.clientQueue)
    && (history.mark.Some? ==> history.mark.value.owner == owner && history.mark.value.epoch == epoch)
    && IsAccountedFor(arrived, skipped, if history.mark.Some? then history.mark.value.mergedThrough else None)
  }

  lemma QueueIsAccountedFor(history: History, sanitize: string -> string, sessionNumber: nat, queue: NotificationQueue, shouldShowToasts: bool,
      owner: NotificationQueueOwner, epoch: nat, arrived: set<nat>, skipped: int)
    requires IsAccountedOn(history, owner, epoch, arrived, skipped) && queue.owner == owner && queue.epoch == epoch
    requires forall entry :: entry in queue.entries ==> IsSequenced(entry)
    ensures var op := TakeQueue(sessionNumber, queue, shouldShowToasts);
            IsAccountedOn(ApplyOp(history, sanitize, op), owner, epoch,
              arrived + ArrivedSequences(OpChanges(history, sanitize, op), owner, epoch),
              skipped + Total(OpChanges(history, sanitize, op), ReportedBy))
  {
    hide IsAccountedFor, TakeEntries, QueueChanges, IsOwnQueue, NextExpected;
    assert arrived + {} == arrived;
    if ValidateQueue(queue).None? {
      forall entry | entry in queue.entries ensures IsFrom(entry, owner, epoch) { assert !IsForeign(entry, queue); }
      EntriesAreAccountedFor(history.view, sanitize, queue.entries, if history.mark.Some? then history.mark.value.mergedThrough else None,
        shouldShowToasts && history.mark.Some? && history.mark.value.owner == queue.owner, owner, epoch, arrived, skipped);
    }
  }

  lemma PostIsAccountedFor(history: History, sanitize: string -> string, revision: nat, entry: NotificationEntry, shouldShowToasts: bool,
      owner: NotificationQueueOwner, epoch: nat, arrived: set<nat>, skipped: int)
    requires IsAccountedOn(history, owner, epoch, arrived, skipped) && IsSequenced(entry)
    ensures var op := TakePost(revision, entry, shouldShowToasts);
            IsAccountedOn(ApplyOp(history, sanitize, op), owner, epoch,
              arrived + ArrivedSequences(OpChanges(history, sanitize, op), owner, epoch),
              skipped + Total(OpChanges(history, sanitize, op), ReportedBy))
  {
    hide IsAccountedFor, EntryChanges, TakeEntry, IsOwnQueue, NextExpected, ThroughAfter;
    assert arrived + {} == arrived;
    if IsSameQueue(history.mark, entry.notificationId.owner, entry.notificationId.epoch) {
      EntryIsAccountedFor(sanitize, entry, history.mark.value.mergedThrough, shouldShowToasts, owner, epoch, arrived, skipped);
    }
  }

  lemma OwnOpBringsNothing(history: History, sanitize: string -> string, op: HistoryOp, owner: NotificationQueueOwner, epoch: nat)
    requires owner.SessionOwner? && IsOwnQueue(history.clientQueue) && IsOp(op) && !op.TakeQueue? && !op.TakePost?
    ensures var changes, after := OpChanges(history, sanitize, op), ApplyOp(history, sanitize, op);
            && ArrivedSequences(changes, owner, epoch) == {} && Total(changes, ReportedBy) == ToldLost(op)
            && IsOwnQueue(after.clientQueue) && after.mark == history.mark
  {
    hide TakeArrival;
    var changes := OpChanges(history, sanitize, op);
    if changes != [] {
      assert |changes| == 1 && changes == [changes[0]] && changes[..0] == [];
      TotalOne(changes[0], ReportedBy);
    }
    if op.PostOwn? {
      PostKeepsOwnQueue(history.clientQueue, sanitize, op.post);
      var entries := PostCoreEntry(history.clientQueue, sanitize, op.post).entries;
      assert entries[|entries| - 1] in entries;
    }
  }

  lemma OpIsAccountedFor(history: History, sanitize: string -> string, op: HistoryOp, owner: NotificationQueueOwner, epoch: nat,
      arrived: set<nat>, skipped: int)
    requires owner.SessionOwner? && IsAccountedOn(history, owner, epoch, arrived, skipped)
    requires IsOp(op) && IsSequencedOp(op) && StaysOn(op, owner, epoch)
    ensures IsAccountedOn(ApplyOp(history, sanitize, op), owner, epoch,
              arrived + ArrivedSequences(OpChanges(history, sanitize, op), owner, epoch),
              skipped + Total(OpChanges(history, sanitize, op), ReportedBy) - ToldLost(op))
  {
    hide ApplyOp, OpChanges, IsAccountedFor, IsOwnQueue;
    match op
    case TakeQueue(sessionNumber, queue, shouldShowToasts) =>
      QueueIsAccountedFor(history, sanitize, sessionNumber, queue, shouldShowToasts, owner, epoch, arrived, skipped);
    case TakePost(revision, entry, shouldShowToasts) =>
      PostIsAccountedFor(history, sanitize, revision, entry, shouldShowToasts, owner, epoch, arrived, skipped);
    case _ =>
      OwnOpBringsNothing(history, sanitize, op, owner, epoch);
      assert arrived + {} == arrived;
  }

  lemma NothingIsAccountedFor(start: History, owner: NotificationQueueOwner, epoch: nat)
    requires IsOwnQueue(start.clientQueue) && start.mark == None
    ensures IsAccountedOn(start, owner, epoch, ArrivedSequences([], owner, epoch), Total([], ReportedBy))
  {
  }

  lemma {:induction false} RunIsAccountedFor(start: History, sanitize: string -> string, ops: seq<HistoryOp>, owner: NotificationQueueOwner, epoch: nat)
    requires owner.SessionOwner? && IsOwnQueue(start.clientQueue) && start.mark == None
    requires forall op :: op in ops ==> IsOp(op) && IsSequencedOp(op) && StaysOn(op, owner, epoch)
    ensures var changes := RunOpsChanges(start, sanitize, ops);
            IsAccountedOn(RunOps(start, sanitize, ops), owner, epoch, ArrivedSequences(changes, owner, epoch),
              Total(changes, ReportedBy) - Total(ops, ToldLost))
    decreases |ops|
  {
    hide ApplyOp, OpChanges, IsSequencedOp, IsAccountedOn, ArrivedSequences, StaysOn;
    if ops == [] {
      NothingIsAccountedFor(start, owner, epoch);
    } else {
      var init, op := ops[..|ops| - 1], ops[|ops| - 1];
      assert op in ops && forall earlier :: earlier in init ==> earlier in ops;
      RunIsAccountedFor(start, sanitize, init, owner, epoch);
      var before, sofar := RunOps(start, sanitize, init), RunOpsChanges(start, sanitize, init);
      OpIsAccountedFor(before, sanitize, op, owner, epoch, ArrivedSequences(sofar, owner, epoch),
        Total(sofar, ReportedBy) - Total(init, ToldLost));
      ArrivedAppend(sofar, OpChanges(before, sanitize, op), owner, epoch);
      TotalAppend(sofar, OpChanges(before, sanitize, op), ReportedBy);
    }
  }

  // Of the session queue a run stands on, each sequence up to the newest taken
  // has arrived, or is one of those reported lost for being skipped.
  lemma EverySequenceIsCounted(clientNumber: nat, clientEpoch: nat, isSessionLocal: bool, sanitize: string -> string, ops: seq<HistoryOp>,
      owner: NotificationQueueOwner, epoch: nat)
    requires owner.SessionOwner?
    requires forall op :: op in ops ==> IsOp(op) && IsSequencedOp(op) && StaysOn(op, owner, epoch)
    ensures var start := NewHistory(clientNumber, clientEpoch, isSessionLocal);
            var after, changes := RunOps(start, sanitize, ops), RunOpsChanges(start, sanitize, ops);
            var newest := if after.mark.Some? then after.mark.value.mergedThrough else None;
            && |ArrivedSequences(changes, owner, epoch)| + Counted(start.view, changes, Reported) - Total(ops, ToldLost) == NextExpected(newest)
            && forall sequence :: sequence in ArrivedSequences(changes, owner, epoch) ==> sequence < NextExpected(newest)
  {
    hide RunOps, RunOpsChanges, ArrivedSequences, Counted, NextExpected, Total;
    var start := NewHistory(clientNumber, clientEpoch, isSessionLocal);
    RunIsAccountedFor(start, sanitize, ops, owner, epoch);
    ReportsAreTotalled(start.view, RunOpsChanges(start, sanitize, ops));
  }

  lemma {:induction false} ChangesDoNotClear(start: History, sanitize: string -> string, ops: seq<HistoryOp>)
    requires forall op :: op in ops ==> op != HistoryOp.Change(ClearAll)
    ensures forall change :: change in RunOpsChanges(start, sanitize, ops) ==> !change.ClearAll?
  {
    if ops != [] {
      var init, op := ops[..|ops| - 1], ops[|ops| - 1];
      assert op in ops && forall earlier :: earlier in init ==> earlier in ops;
      ChangesDoNotClear(start, sanitize, init);
      OpDoesNotClear(RunOps(start, sanitize, init), sanitize, op);
    }
  }

  lemma {:induction false} QueueDoesNotClear(sanitize: string -> string, entries: seq<NotificationEntry>,
      through: Option<MergedThrough>, nextExpected: nat, shouldPreview: bool)
    ensures forall change :: change in QueueChanges(sanitize, entries, through, nextExpected, shouldPreview) ==> !change.ClearAll?
    decreases |entries|
  {
    if entries != [] {
      QueueDoesNotClear(sanitize, entries[1..], ThroughAfter(through, entries[0]), NextAfter(entries[0], nextExpected), shouldPreview);
    }
  }

  lemma OpDoesNotClear(history: History, sanitize: string -> string, op: HistoryOp)
    requires op != HistoryOp.Change(ClearAll)
    ensures forall change :: change in OpChanges(history, sanitize, op) ==> !change.ClearAll?
  {
    if op.TakeQueue? {
      var through := if IsSameQueue(history.mark, op.queue.owner, op.queue.epoch) then history.mark.value.mergedThrough else None;
      QueueDoesNotClear(sanitize, op.queue.entries, through, NextExpected(through),
        op.shouldShowToasts && history.mark.Some? && history.mark.value.owner == op.queue.owner);
    }
  }

  // With no clear, the dropped count is the entries evicted, the sequences that
  // never arrived, and what the session reported, exactly when they fit it.
  lemma DroppedCountIsWhatNeverArrived(clientNumber: nat, clientEpoch: nat, isSessionLocal: bool, sanitize: string -> string, ops: seq<HistoryOp>,
      owner: NotificationQueueOwner, epoch: nat)
    requires owner.SessionOwner?
    requires forall op :: op in ops ==> IsOp(op) && IsSequencedOp(op) && StaysOn(op, owner, epoch) && op != HistoryOp.Change(ClearAll)
    ensures var start := NewHistory(clientNumber, clientEpoch, isSessionLocal);
            var after, changes := RunOps(start, sanitize, ops), RunOpsChanges(start, sanitize, ops);
            var newest := if after.mark.Some? then after.mark.value.mergedThrough else None;
            var lost := Counted(start.view, changes, Evicted) + (NextExpected(newest) - |ArrivedSequences(changes, owner, epoch)|) + Total(ops, ToldLost);
            after.view.droppedCount == lost <==> lost <= MAX_U64
  {
    var start := NewHistory(clientNumber, clientEpoch, isSessionLocal);
    var changes := RunOpsChanges(start, sanitize, ops);
    EverySequenceIsCounted(clientNumber, clientEpoch, isSessionLocal, sanitize, ops, owner, epoch);
    OpsAreRun(start, sanitize, ops);
    ChangesDoNotClear(start, sanitize, ops);
    DroppedCountIsExact(start.view, changes);
  }
}
