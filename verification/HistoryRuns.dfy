// What every run of the history's operations keeps, whatever the viewer posts
// and the session sends.
module HistoryRuns {
  import opened Options
  import opened Notifications
  import opened HistoryView
  import opened HistoryMerge
  import opened HistoryUnread
  import opened HistoryToasts

  // Ids stay unique, at most 256 entries are held, a selected entry is held,
  // and the unread count is exact.
  lemma RunsStaySound(clientNumber: nat, epoch: nat, isSessionLocal: bool, sanitize: string -> string, ops: seq<HistoryOp>)
    ensures var start := NewHistory(clientNumber, epoch, isSessionLocal);
            IsSound(RunOps(start, sanitize, ops).view, UnreadOverRun(start.view, RunOpsChanges(start, sanitize, ops)))
  {
    var start := NewHistory(clientNumber, epoch, isSessionLocal);
    OpsAreRun(start, sanitize, ops);
    UnreadCountIsExact(isSessionLocal, RunOpsChanges(start, sanitize, ops));
  }

  lemma RunsKeepToastsAgreeing(clientNumber: nat, epoch: nat, isSessionLocal: bool, sanitize: string -> string, ops: seq<HistoryOp>)
    ensures DoToastsAgree(RunOps(NewHistory(clientNumber, epoch, isSessionLocal), sanitize, ops).view)
  {
    var start := NewHistory(clientNumber, epoch, isSessionLocal);
    OpsAreRun(start, sanitize, ops);
    ToastsAgreeOverRuns(isSessionLocal, RunOpsChanges(start, sanitize, ops));
  }

  // ---------------------------------------------------------------------
  // A local session's entries are not repeated by the viewer's own
  // ---------------------------------------------------------------------

  predicate IsLocalAndClean(view: HistoryView) {
    view.isSessionLocal && HoldsNoRepeats(view.entries)
  }

  lemma ArrivalStaysClean(view: HistoryView, arrived: NotificationEntry, shouldShowToasts: bool)
    requires IsLocalAndClean(view)
    requires forall other :: other in view.entries ==> !RepeatsSession(arrived, other)
    ensures IsLocalAndClean(TakeArrival(view, arrived, shouldShowToasts))
  {
    ArrivalHoldsNoRepeats(view, arrived, shouldShowToasts);
    DuplicatesAreNamed(RemoveHeld(view, arrived.notificationId), 0, arrived);
    assert MakeRoom(ReplaceDuplicates(RemoveHeld(view, arrived.notificationId), arrived)).isSessionLocal;
  }

  lemma TakeEntryStaysClean(view: HistoryView, sanitize: string -> string, entry: NotificationEntry,
      through: Option<MergedThrough>, nextExpected: nat, shouldPreview: bool)
    requires IsLocalAndClean(view) && entry.notificationId.owner.SessionOwner?
    ensures IsLocalAndClean(TakeEntry(view, sanitize, entry, through, nextExpected, shouldPreview))
  {
    if IsNewer(through, entry) {
      ArrivalStaysClean(CountSkipped(view, entry, nextExpected), SanitizeEntry(entry, sanitize), shouldPreview);
    }
  }

  lemma {:induction false} TakeEntriesStaysClean(view: HistoryView, sanitize: string -> string, entries: seq<NotificationEntry>,
      through: Option<MergedThrough>, nextExpected: nat, shouldPreview: bool)
    requires IsLocalAndClean(view)
    requires forall entry :: entry in entries ==> entry.notificationId.owner.SessionOwner?
    ensures IsLocalAndClean(TakeEntries(view, sanitize, entries, through, nextExpected, shouldPreview).0)
    decreases |entries|
  {
    if entries != [] {
      assert entries[0] in entries;
      assert forall entry :: entry in entries[1..] ==> entry in entries;
      TakeEntryStaysClean(view, sanitize, entries[0], through, nextExpected, shouldPreview);
      TakeEntriesStaysClean(TakeEntry(view, sanitize, entries[0], through, nextExpected, shouldPreview), sanitize,
        entries[1..], ThroughAfter(through, entries[0]), NextAfter(entries[0], nextExpected), shouldPreview);
    }
  }

  lemma DismissStaysClean(view: HistoryView, change: HistoryChange)
    requires IsLocalAndClean(view) && !change.Arrive?
    ensures IsLocalAndClean(ApplyHistoryChange(view, change))
  {
    assert forall entry :: entry in ApplyHistoryChange(view, change).entries ==> entry in view.entries;
  }

  lemma PostOwnStaysClean(history: History, sanitize: string -> string, post: CorePost, shouldShowToasts: bool)
    requires IsLocalAndClean(history.view) && history.clientQueue.owner.ClientOwner?
    ensures IsLocalAndClean(PostOwnEntry(history, sanitize, post, shouldShowToasts).view)
  {
    var text := sanitize(post.text);
    if !IsHeldBySession(history.view.entries, post.severity, text) {
      var entries := PostCoreEntry(history.clientQueue, sanitize, post).entries;
      var posted := entries[|entries| - 1];
      assert IsCoreNotice(posted, post.severity, text);
      forall other | other in history.view.entries ensures !RepeatsSession(posted, other) {
        assert RepeatsSession(posted, other) ==> IsCoreNotice(other, post.severity, text);
      }
      ArrivalStaysClean(history.view, posted, shouldShowToasts);
    }
  }

  predicate IsMarkOfSession(history: History) {
    && history.clientQueue.owner.ClientOwner?
    && (history.mark.Some? ==> history.mark.value.owner.SessionOwner?)
  }

  lemma OpStaysClean(history: History, sanitize: string -> string, op: HistoryOp)
    requires IsLocalAndClean(history.view) && IsMarkOfSession(history) && IsOp(op)
    ensures IsLocalAndClean(ApplyOp(history, sanitize, op).view) && IsMarkOfSession(ApplyOp(history, sanitize, op))
  {
    match op
    case TakeQueue(sessionNumber, queue, shouldShowToasts) =>
      if ValidateQueue(queue).None? && queue.owner == SessionOwner(sessionNumber) {
        var through := if IsSameQueue(history.mark, queue.owner, queue.epoch) then history.mark.value.mergedThrough else None;
        assert forall entry :: entry in queue.entries ==> !IsForeign(entry, queue);
        TakeEntriesStaysClean(history.view, sanitize, queue.entries, through, NextExpected(through),
          shouldShowToasts && history.mark.Some? && history.mark.value.owner == queue.owner);
      }
    case TakePost(revision, entry, shouldShowToasts) =>
      if IsSameQueue(history.mark, entry.notificationId.owner, entry.notificationId.epoch) {
        TakeEntryStaysClean(history.view, sanitize, entry, history.mark.value.mergedThrough,
          NextExpected(history.mark.value.mergedThrough), shouldShowToasts);
      }
    case PostOwn(post, shouldShowToasts) => PostOwnStaysClean(history, sanitize, post, shouldShowToasts);
    case SetClient(_, _) =>
    case Change(change) => DismissStaysClean(history.view, change);
  }

  // In a history local from the start, no entry of the viewer's own has the
  // severity and text of an entry held from the session.
  lemma {:induction false} LocalRunsHoldNoRepeats(clientNumber: nat, epoch: nat, sanitize: string -> string, ops: seq<HistoryOp>)
    requires forall op :: op in ops ==> IsOp(op)
    ensures var after := RunOps(NewHistory(clientNumber, epoch, true), sanitize, ops);
            IsLocalAndClean(after.view) && IsMarkOfSession(after)
    decreases |ops|
  {
    if ops != [] {
      var init := ops[..|ops| - 1];
      assert forall op :: op in init ==> op in ops;
      LocalRunsHoldNoRepeats(clientNumber, epoch, sanitize, init);
      assert ops[|ops| - 1] in ops;
      OpStaysClean(RunOps(NewHistory(clientNumber, epoch, true), sanitize, init), sanitize, ops[|ops| - 1]);
    }
  }
}
