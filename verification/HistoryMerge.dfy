// What the history takes, and from where: its own posts, its session's queue
// whole, and its session's posts one at a time
// (crates/koshi-client/src/notification_history.rs). The viewer's own client
// queue and the mark on the session's queue stand beside the view.
module HistoryMerge {
  import opened Options
  import opened Notifications
  import opened ToastQueue
  import opened HistoryView
  import opened Runs

  datatype MergedThrough = MergedThrough(sequence: nat, repeatCount: nat)

  datatype SessionQueueMark = SessionQueueMark(
    owner: NotificationQueueOwner,
    epoch: nat,
    revision: nat,
    mergedThrough: Option<MergedThrough>)

  datatype TakeResult =
    | Taken
    | InvalidQueue(error: QueueError)
    | ForeignQueue(owner: NotificationQueueOwner)
    | PostWithoutQueue(id: NotificationId)
    | ForeignPost(id: NotificationId)

  datatype History = History(clientQueue: NotificationQueue, mark: Option<SessionQueueMark>, view: HistoryView)

  datatype HistoryOp =
    | TakeQueue(sessionNumber: nat, queue: NotificationQueue, shouldShowToasts: bool)
    | TakePost(revision: nat, entry: NotificationEntry, shouldShowToasts: bool)
    | PostOwn(post: CorePost, shouldShowToasts: bool)
    | SetClient(clientNumber: nat, epoch: nat)
    | Change(change: HistoryChange)

  function NewHistory(clientNumber: nat, epoch: nat, isSessionLocal: bool): History {
    History(EmptyQueue(ClientOwner(clientNumber), epoch), None, EMPTY_VIEW.(isSessionLocal := isSessionLocal))
  }

  function SanitizeEntry(entry: NotificationEntry, sanitize: string -> string): NotificationEntry {
    entry.(text := sanitize(entry.text))
  }

  function ThroughOf(entry: NotificationEntry): MergedThrough {
    MergedThrough(entry.notificationId.sequence, entry.repeatCount)
  }

  // Whether `entry` arrived after the newest entry taken.
  predicate IsNewer(through: Option<MergedThrough>, entry: NotificationEntry) {
    match through
    case None => true
    case Some(mark) =>
      entry.notificationId.sequence > mark.sequence
      || (entry.notificationId.sequence == mark.sequence && entry.repeatCount > mark.repeatCount)
  }

  function SequenceAfter(sequence: nat): nat { Least(sequence + 1, MAX_U64) }

  function NextExpected(through: Option<MergedThrough>): nat {
    match through case None => 0 case Some(mark) => SequenceAfter(mark.sequence)
  }

  function CountSkipped(view: HistoryView, entry: NotificationEntry, nextExpected: nat): HistoryView {
    var sequence := entry.notificationId.sequence;
    if sequence < nextExpected then view else AddDropped(view, sequence - nextExpected)
  }

  function ThroughAfter(through: Option<MergedThrough>, entry: NotificationEntry): Option<MergedThrough> {
    if IsNewer(through, entry) then Some(ThroughOf(entry)) else through
  }

  function NextAfter(entry: NotificationEntry, nextExpected: nat): nat {
    if entry.notificationId.sequence < nextExpected then nextExpected else SequenceAfter(entry.notificationId.sequence)
  }

  // One entry of a queue, or one post: what it skipped is counted, and it
  // arrives if it is newer than all taken before.
  function TakeEntry(view: HistoryView, sanitize: string -> string, entry: NotificationEntry,
      through: Option<MergedThrough>, nextExpected: nat, shouldPreview: bool): HistoryView
  {
    var counted := CountSkipped(view, entry, nextExpected);
    if IsNewer(through, entry) then TakeArrival(counted, SanitizeEntry(entry, sanitize), shouldPreview) else counted
  }

  // The pass over a queue's entries, oldest first.
  function TakeEntries(view: HistoryView, sanitize: string -> string, entries: seq<NotificationEntry>,
      through: Option<MergedThrough>, nextExpected: nat, shouldPreview: bool): (HistoryView, Option<MergedThrough>)
    decreases |entries|
  {
    if entries == [] then (view, through)
    else
      TakeEntries(TakeEntry(view, sanitize, entries[0], through, nextExpected, shouldPreview), sanitize,
        entries[1..], ThroughAfter(through, entries[0]), NextAfter(entries[0], nextExpected), shouldPreview)
  }

  predicate IsSameQueue(mark: Option<SessionQueueMark>, owner: NotificationQueueOwner, epoch: nat) {
    mark.Some? && mark.value.owner == owner && mark.value.epoch == epoch
  }

  function TakeSessionQueue(history: History, sanitize: string -> string, sessionNumber: nat, queue: NotificationQueue, shouldShowToasts: bool)
    : (History, TakeResult)
  {
    var error := ValidateQueue(queue);
    if error.Some? then (history, InvalidQueue(error.value))
    else if queue.owner != SessionOwner(sessionNumber) then (history, ForeignQueue(queue.owner))
    else
      var shouldPreview := shouldShowToasts && history.mark.Some? && history.mark.value.owner == queue.owner;
      var isSame := IsSameQueue(history.mark, queue.owner, queue.epoch);
      if isSame && queue.revision < history.mark.value.revision then (history, Taken)
      else
        var through := if isSame then history.mark.value.mergedThrough else None;
        var (view, throughThen) := TakeEntries(history.view, sanitize, queue.entries, through, NextExpected(through), shouldPreview);
        (history.(view := view, mark := Some(SessionQueueMark(queue.owner, queue.epoch, queue.revision, throughThen))), Taken)
  }

  function TakeSessionPost(history: History, sanitize: string -> string, revision: nat, entry: NotificationEntry, shouldShowToasts: bool)
    : (History, TakeResult)
  {
    if history.mark.None? then (history, PostWithoutQueue(entry.notificationId))
    else if !IsSameQueue(history.mark, entry.notificationId.owner, entry.notificationId.epoch) then (history, ForeignPost(entry.notificationId))
    else if revision <= history.mark.value.revision then (history, Taken)
    else
      var through := history.mark.value.mergedThrough;
      (history.(
         mark := Some(history.mark.value.(revision := revision, mergedThrough := ThroughAfter(through, entry))),
         view := TakeEntry(history.view, sanitize, entry, through, NextExpected(through), shouldShowToasts)), Taken)
  }

  predicate IsHeldBySession(entries: seq<NotificationEntry>, severity: NotificationSeverity, text: string) {
    exists entry :: entry in entries && entry.notificationId.owner.SessionOwner? && IsCoreNotice(entry, severity, text)
  }

  function PostOwnEntry(history: History, sanitize: string -> string, post: CorePost, shouldShowToasts: bool): History {
    if history.view.isSessionLocal && IsHeldBySession(history.view.entries, post.severity, sanitize(post.text)) then history
    else
      var queue := PostCoreEntry(history.clientQueue, sanitize, post);
      history.(clientQueue := queue, view := TakeArrival(history.view, queue.entries[|queue.entries| - 1], shouldShowToasts))
  }

  function SetClientNumber(history: History, clientNumber: nat, epoch: nat): History {
    if history.clientQueue.owner == ClientOwner(clientNumber) then history
    else history.(clientQueue := EmptyQueue(ClientOwner(clientNumber), epoch))
  }

  function ApplyOp(history: History, sanitize: string -> string, op: HistoryOp): History {
    match op
    case TakeQueue(sessionNumber, queue, shouldShowToasts) => TakeSessionQueue(history, sanitize, sessionNumber, queue, shouldShowToasts).0
    case TakePost(revision, entry, shouldShowToasts) => TakeSessionPost(history, sanitize, revision, entry, shouldShowToasts).0
    case PostOwn(post, shouldShowToasts) => PostOwnEntry(history, sanitize, post, shouldShowToasts)
    case SetClient(clientNumber, epoch) => SetClientNumber(history, clientNumber, epoch)
    case Change(change) => history.(view := ApplyHistoryChange(history.view, change))
  }

  function RunOps(history: History, sanitize: string -> string, ops: seq<HistoryOp>): History {
    if ops == [] then history else ApplyOp(RunOps(history, sanitize, ops[..|ops| - 1]), sanitize, ops[|ops| - 1])
  }

  // Every arrival comes from a post or a queue.
  predicate IsOp(op: HistoryOp) {
    op.Change? ==> !op.change.Arrive?
  }

  // The viewer's own queue names the viewer in every entry.
  predicate IsOwnQueue(queue: NotificationQueue) {
    queue.owner.ClientOwner? && forall entry :: entry in queue.entries ==> entry.notificationId.owner.ClientOwner?
  }

  lemma PostKeepsOwnQueue(queue: NotificationQueue, sanitize: string -> string, post: CorePost)
    requires IsOwnQueue(queue)
    ensures IsOwnQueue(PostCoreEntry(queue, sanitize, post))
  {
    var posted := PostCoreEntry(queue, sanitize, post).entries;
    forall entry | entry in posted ensures entry.notificationId.owner.ClientOwner? {
      if RepeatsNewest(queue.entries, post, sanitize(post.text)) {
        assert queue.entries[|queue.entries| - 1] in queue.entries;
      }
    }
  }

  // ---------------------------------------------------------------------
  // Every operation is a run of changes
  // ---------------------------------------------------------------------

  function EntryChanges(sanitize: string -> string, entry: NotificationEntry, through: Option<MergedThrough>, nextExpected: nat, shouldPreview: bool)
    : seq<HistoryChange>
  {
    (if entry.notificationId.sequence > nextExpected then [Report(entry.notificationId.sequence - nextExpected)] else [])
    + (if IsNewer(through, entry) then [Arrive(SanitizeEntry(entry, sanitize), shouldPreview)] else [])
  }

  function QueueChanges(sanitize: string -> string, entries: seq<NotificationEntry>, through: Option<MergedThrough>, nextExpected: nat, shouldPreview: bool)
    : seq<HistoryChange>
    decreases |entries|
  {
    if entries == [] then []
    else
      EntryChanges(sanitize, entries[0], through, nextExpected, shouldPreview)
      + QueueChanges(sanitize, entries[1..], ThroughAfter(through, entries[0]), NextAfter(entries[0], nextExpected), shouldPreview)
  }

  function OpChanges(history: History, sanitize: string -> string, op: HistoryOp): seq<HistoryChange> {
    match op
    case TakeQueue(sessionNumber, queue, shouldShowToasts) =>
      var isSame := IsSameQueue(history.mark, queue.owner, queue.epoch);
      var through := if isSame then history.mark.value.mergedThrough else None;
      if ValidateQueue(queue).Some? || queue.owner != SessionOwner(sessionNumber) || (isSame && queue.revision < history.mark.value.revision) then []
      else
        QueueChanges(sanitize, queue.entries, through, NextExpected(through),
          shouldShowToasts && history.mark.Some? && history.mark.value.owner == queue.owner)
    case TakePost(revision, entry, shouldShowToasts) =>
      if !IsSameQueue(history.mark, entry.notificationId.owner, entry.notificationId.epoch) || revision <= history.mark.value.revision then []
      else
        EntryChanges(sanitize, entry, history.mark.value.mergedThrough,
          NextExpected(history.mark.value.mergedThrough), shouldShowToasts)
    case PostOwn(post, shouldShowToasts) =>
      if history.view.isSessionLocal && IsHeldBySession(history.view.entries, post.severity, sanitize(post.text)) then []
      else
        var entries := PostCoreEntry(history.clientQueue, sanitize, post).entries;
        [Arrive(entries[|entries| - 1], shouldShowToasts)]
    case SetClient(_, _) => []
    case Change(change) => [change]
  }

  lemma EntryIsRun(view: HistoryView, sanitize: string -> string, entry: NotificationEntry, through: Option<MergedThrough>, nextExpected: nat, shouldPreview: bool)
    ensures RunChanges(view, EntryChanges(sanitize, entry, through, nextExpected, shouldPreview))
         == TakeEntry(view, sanitize, entry, through, nextExpected, shouldPreview)
  {
    var counted, arrival := CountSkipped(view, entry, nextExpected), Arrive(SanitizeEntry(entry, sanitize), shouldPreview);
    var report := if entry.notificationId.sequence > nextExpected then [Report(entry.notificationId.sequence - nextExpected)] else [];
    var arrive := if IsNewer(through, entry) then [arrival] else [];
    assert RunChanges(view, report) == counted by {
      if report != [] { RunOne(view, report[0], ApplyHistoryChange); assert report == [report[0]]; }
    }
    RunAppend(view, report, arrive, ApplyHistoryChange);
    RunOne(counted, arrival, ApplyHistoryChange);
  }

  lemma {:induction false} QueueIsRun(view: HistoryView, sanitize: string -> string, entries: seq<NotificationEntry>,
      through: Option<MergedThrough>, nextExpected: nat, shouldPreview: bool)
    ensures TakeEntries(view, sanitize, entries, through, nextExpected, shouldPreview).0
         == RunChanges(view, QueueChanges(sanitize, entries, through, nextExpected, shouldPreview))
    decreases |entries|
  {
    if entries != [] {
      var first := EntryChanges(sanitize, entries[0], through, nextExpected, shouldPreview);
      var (throughThen, nextThen) := (ThroughAfter(through, entries[0]), NextAfter(entries[0], nextExpected));
      var rest := QueueChanges(sanitize, entries[1..], throughThen, nextThen, shouldPreview);
      assert QueueChanges(sanitize, entries, through, nextExpected, shouldPreview) == first + rest;
      EntryIsRun(view, sanitize, entries[0], through, nextExpected, shouldPreview);
      var taken := TakeEntry(view, sanitize, entries[0], through, nextExpected, shouldPreview);
      QueueIsRun(taken, sanitize, entries[1..], throughThen, nextThen, shouldPreview);
      RunAppend(view, first, rest, ApplyHistoryChange);
    }
  }

  lemma OpIsRun(history: History, sanitize: string -> string, op: HistoryOp)
    ensures ApplyOp(history, sanitize, op).view == RunChanges(history.view, OpChanges(history, sanitize, op))
  {
    hide TakeEntries, QueueChanges, EntryChanges;
    match op
    case TakeQueue(sessionNumber, queue, shouldShowToasts) =>
      var through := if IsSameQueue(history.mark, queue.owner, queue.epoch) then history.mark.value.mergedThrough else None;
      QueueIsRun(history.view, sanitize, queue.entries, through, NextExpected(through),
        shouldShowToasts && history.mark.Some? && history.mark.value.owner == queue.owner);
    case TakePost(revision, entry, shouldShowToasts) =>
      if history.mark.Some? {
        EntryIsRun(history.view, sanitize, entry, history.mark.value.mergedThrough,
          NextExpected(history.mark.value.mergedThrough), shouldShowToasts);
      }
    case PostOwn(post, shouldShowToasts) =>
      var entries := PostCoreEntry(history.clientQueue, sanitize, post).entries;
      RunOne(history.view, Arrive(entries[|entries| - 1], shouldShowToasts), ApplyHistoryChange);
    case SetClient(_, _) =>
    case Change(change) => RunOne(history.view, change, ApplyHistoryChange);
  }

  function RunOpsChanges(history: History, sanitize: string -> string, ops: seq<HistoryOp>): seq<HistoryChange> {
    if ops == [] then []
    else
      var init := ops[..|ops| - 1];
      RunOpsChanges(history, sanitize, init) + OpChanges(RunOps(history, sanitize, init), sanitize, ops[|ops| - 1])
  }

  // What any run of operations leaves in the view is what its changes leave.
  lemma {:induction false} OpsAreRun(history: History, sanitize: string -> string, ops: seq<HistoryOp>)
    ensures RunOps(history, sanitize, ops).view == RunChanges(history.view, RunOpsChanges(history, sanitize, ops))
    decreases |ops|
  {
    if ops != [] {
      var init := ops[..|ops| - 1];
      OpsAreRun(history, sanitize, init);
      OpIsRun(RunOps(history, sanitize, init), sanitize, ops[|ops| - 1]);
      RunAppend(history.view, RunOpsChanges(history, sanitize, init), OpChanges(RunOps(history, sanitize, init), sanitize, ops[|ops| - 1]), ApplyHistoryChange);
    }
  }
}
