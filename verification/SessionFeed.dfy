// Runs of one session's feed: snapshots of its queue and live posts, in any
// order and any number of times, with everything else a viewer does between.
module SessionFeed {
  import opened Options
  import opened Notifications
  import opened HistoryView
  import opened HistoryMerge
  import opened HistoryUnread
  import opened HistoryLedger
  import opened SessionLog
  import opened ExactlyOnce
  import opened SessionCatchUp

  // One session: its number, its queue's epoch, and every post it makes.
  datatype Session = Session(sessionNumber: nat, epoch: nat, posts: seq<CorePost>, sanitize: string -> string) {
    function Owner(): NotificationQueueOwner { SessionOwner(sessionNumber) }

    function Log(count: nat): seq<NotificationEntry>
      requires count <= |posts|
    {
      LogOf(posts[..count], Owner(), epoch, sanitize)
    }

    function Queue(count: nat): NotificationQueue
      requires count <= |posts|
    {
      QueueOf(posts[..count], Owner(), epoch, sanitize)
    }

    function Revision(count: nat): nat
      requires count <= |posts|
    {
      RevisionOf(posts[..count])
    }

    // Every post counts once or more, and all of them fit one repeat count.
    predicate Valid() {
      (forall post :: post in posts ==> post.postCount > 0) && RevisionOf(posts) <= MAX_REPEAT_COUNT
    }
  }

  // One thing that reaches the history: the session's queue after `count`
  // posts, the entry its post number `count` made, or the viewer's own doing.
  datatype FeedStep =
    | Snapshot(count: nat, shouldShowToasts: bool)
    | Live(count: nat, shouldShowToasts: bool)
    | Own(op: HistoryOp)

  // The viewer posts for itself, and opens, closes, selects and reads, but
  // neither dismisses nor clears.
  predicate IsOwnOp(op: HistoryOp) {
    match op
    case TakeQueue(_, _, _) => false
    case TakePost(_, _, _) => false
    case PostOwn(_, _) => true
    case SetClient(_, _) => true
    case Change(change) => !change.Arrive? && !change.Dismiss? && !change.ClearAll?
  }

  predicate IsStep(session: Session, step: FeedStep) {
    match step
    case Snapshot(count, _) => count <= |session.posts|
    case Live(count, _) => 0 < count <= |session.posts|
    case Own(op) => IsOwnOp(op)
  }

  function OpOf(session: Session, step: FeedStep): HistoryOp
    requires IsStep(session, step)
  {
    match step
    case Snapshot(count, shouldShowToasts) => TakeQueue(session.sessionNumber, session.Queue(count), shouldShowToasts)
    case Live(count, shouldShowToasts) =>
      LogIsNotEmpty(session, count);
      var log := session.Log(count);
      TakePost(session.Revision(count), log[|log| - 1], shouldShowToasts)
    case Own(op) => op
  }

  lemma LogIsNotEmpty(session: Session, count: nat)
    requires 0 < count <= |session.posts|
    ensures session.Log(count) != []
  {
  }

  // Nothing the session changed since post `known` falls between it and the
  // live post taken. A snapshot needs no such thing.
  predicate IsCovered(session: Session, known: nat, step: FeedStep)
    requires IsStep(session, step) && known <= |session.posts|
  {
    match step
    case Snapshot(_, _) => true
    case Live(count, _) => count <= known || Covers(session.Log(known), session.Log(count), |session.Log(count)| - 1)
    case Own(_) => true
  }

  function KnownAfter(known: nat, step: FeedStep): nat {
    match step
    case Snapshot(count, _) => if count > known then count else known
    case Live(count, _) => if count > known then count else known
    case Own(_) => known
  }

  // The viewer's mark stands at the newest entry of the session's first `known`
  // posts.
  predicate IsMarkedAt(history: History, session: Session, known: nat)
    requires known <= |session.posts|
  {
    history.mark == Some(SessionQueueMark(session.Owner(), session.epoch, session.Revision(known), ThroughLog(session.Log(known))))
  }

  // The viewer knows the session's first `known` posts: it is marked there, and
  // holds their entries all but for up to `lost`, within the history's bound.
  predicate Knows(history: History, session: Session, known: nat, lost: nat)
    requires known <= |session.posts|
  {
    && IsMarkedAt(history, session, known)
    && IsBounded(history.view)
    && IsCaughtUp(history.view, session.Log(known), session.Owner(), session.epoch, session.sanitize, lost)
  }

  function LostByOp(history: History, sanitize: string -> string, op: HistoryOp): nat {
    match op
    case TakeQueue(sessionNumber, queue, shouldShowToasts) =>
      var isSame := IsSameQueue(history.mark, queue.owner, queue.epoch);
      if ValidateQueue(queue).Some? || queue.owner != SessionOwner(sessionNumber) || (isSame && queue.revision < history.mark.value.revision) then 0
      else
        LostByEntries(history.view, sanitize, queue.entries, if isSame then history.mark.value.mergedThrough else None,
          shouldShowToasts && history.mark.Some? && history.mark.value.owner == queue.owner)
    case TakePost(revision, entry, shouldShowToasts) =>
      if !IsSameQueue(history.mark, entry.notificationId.owner, entry.notificationId.epoch) || revision <= history.mark.value.revision then 0
      else LostByEntry(history.view, sanitize, entry, history.mark.value.mergedThrough, shouldShowToasts)
    case PostOwn(post, shouldShowToasts) =>
      if history.view.isSessionLocal && IsHeldBySession(history.view.entries, post.severity, sanitize(post.text)) then 0
      else
        var entries := PostCoreEntry(history.clientQueue, sanitize, post).entries;
        Evicted(history.view, Arrive(entries[|entries| - 1], shouldShowToasts))
    case SetClient(_, _) => 0
    case Change(change) => Reported(history.view, change)
  }

  // ---------------------------------------------------------------------
  // The session's queues and posts
  // ---------------------------------------------------------------------

  lemma PrefixOfPrefix<T>(items: seq<T>, fewer: nat, more: nat)
    requires fewer <= more <= |items|
    ensures items[..more][..fewer] == items[..fewer]
  {
  }

  lemma {:induction false} LogIsShort(posts: seq<CorePost>, owner: NotificationQueueOwner, epoch: nat, sanitize: string -> string)
    requires forall post :: post in posts ==> post.postCount > 0
    ensures |LogOf(posts, owner, epoch, sanitize)| <= RevisionOf(posts)
  {
    if posts != [] {
      assert posts[|posts| - 1] in posts;
      assert forall post :: post in posts[..|posts| - 1] ==> post in posts;
      LogIsShort(posts[..|posts| - 1], owner, epoch, sanitize);
    }
  }

  lemma SessionLogs(session: Session, fewer: nat, more: nat)
    requires session.Valid() && fewer <= more <= |session.posts|
    ensures IsLog(session.Log(fewer), session.Owner(), session.epoch) && IsLog(session.Log(more), session.Owner(), session.epoch)
    ensures IsGrownFrom(session.Log(more), session.Log(fewer))
    ensures session.Revision(fewer) <= session.Revision(more)
    ensures fewer < more ==> session.Revision(fewer) < session.Revision(more)
  {
    var (owner, epoch, sanitize, posts) := (session.Owner(), session.epoch, session.sanitize, session.posts);
    assert forall post :: post in posts[..more] ==> post in posts;
    assert forall post :: post in posts[..fewer] ==> post in posts;
    PrefixOfPrefix(posts, fewer, more);
    RevisionRises(posts, more);
    RevisionRises(posts[..more], fewer);
    LogGrows(posts[..more], fewer, owner, epoch, sanitize);
    LogIsNumbered(posts[..more], owner, epoch, sanitize);
    LogIsNumbered(posts[..fewer], owner, epoch, sanitize);
    LogIsShort(posts[..more], owner, epoch, sanitize);
    LogIsShort(posts[..fewer], owner, epoch, sanitize);
  }

  lemma SnapshotIsWindow(session: Session, count: nat)
    requires count <= |session.posts|
    ensures var (log, queue) := (session.Log(count), session.Queue(count));
            && queue.entries == log[WindowStart(log)..] && queue.owner == session.Owner()
            && queue.epoch == session.epoch && queue.revision == session.Revision(count)
            && ValidateQueue(queue).None?
            && (WindowStart(log) < |log| || log == [])
  {
    QueueIsWindow(session.posts[..count], session.Owner(), session.epoch, session.sanitize);
    LogIsNumbered(session.posts[..count], session.Owner(), session.epoch, session.sanitize);
    var queue := session.Queue(count);
    assert forall entry :: entry in queue.entries ==> !IsForeign(entry, queue);
  }

  // The next live post always covers what the last one left, whether it
  // repeats the newest entry or adds one.
  lemma NextPostIsCovered(session: Session, known: nat, shouldShowToasts: bool)
    requires known < |session.posts|
    ensures IsCovered(session, known, Live(known + 1, shouldShowToasts))
  {
    assert session.posts[..known + 1][..known] == session.posts[..known];
    LogIsNotEmpty(session, known + 1);
  }

  // ---------------------------------------------------------------------
  // One step
  // ---------------------------------------------------------------------

  // A snapshot or post of what the viewer was told already changes nothing at
  // all, also after it dismissed or cleared what it was told.
  lemma RetakingChangesNothing(history: History, session: Session, known: nat, step: FeedStep)
    requires session.Valid() && known <= |session.posts| && IsMarkedAt(history, session, known)
    requires IsStep(session, step) && !step.Own? && step.count <= known
    ensures ApplyOp(history, session.sanitize, OpOf(session, step)) == history
    ensures LostByOp(history, session.sanitize, OpOf(session, step)) == 0
  {
    SessionLogs(session, step.count, known);
    match step
    case Snapshot(count, shouldShowToasts) =>
      SnapshotIsWindow(session, count);
      if count == known {
        var log := session.Log(known);
        KnownWindowChangesNothing(history.view, session.sanitize, log, WindowStart(log), session.Owner(), session.epoch,
          shouldShowToasts);
      }
    case Live(count, _) =>
      LogIsNumbered(session.posts[..count], session.Owner(), session.epoch, session.sanitize);
      LogIsNotEmpty(session, count);
  }

  lemma {:induction false} KnownWindowChangesNothing(view: HistoryView, sanitize: string -> string, log: seq<NotificationEntry>, index: nat,
      owner: NotificationQueueOwner, epoch: nat, shouldPreview: bool)
    requires IsLog(log, owner, epoch) && index <= |log|
    ensures var through := ThroughLog(log);
            && TakeEntries(view, sanitize, log[index..], through, NextExpected(through), shouldPreview) == (view, through)
            && LostByEntries(view, sanitize, log[index..], through, shouldPreview) == 0
    decreases |log| - index
  {
    if index < |log| {
      assert log[..|log|] == log;
      assert log[index..][0] == log[index] && log[index..][1..] == log[index + 1..];
      KnownEntryChangesNothing(view, sanitize, log, |log|, index, owner, epoch, shouldPreview);
      KnownWindowChangesNothing(view, sanitize, log, index + 1, owner, epoch, shouldPreview);
    }
  }

  lemma OpStaysBounded(history: History, sanitize: string -> string, op: HistoryOp)
    requires IsBounded(history.view)
    ensures IsBounded(ApplyOp(history, sanitize, op).view)
  {
    hide TakeArrival, TakeEntries, TakeEntry, PostCoreEntry;
    match op
    case TakeQueue(_, queue, shouldShowToasts) =>
      var through := if IsSameQueue(history.mark, queue.owner, queue.epoch) then history.mark.value.mergedThrough else None;
      TakeEntriesStayBounded(history.view, sanitize, queue.entries, through, NextExpected(through),
        shouldShowToasts && history.mark.Some? && history.mark.value.owner == queue.owner);
    case TakePost(_, entry, shouldShowToasts) =>
      if history.mark.Some? {
        TakeEntryStaysBounded(history.view, sanitize, entry, history.mark.value.mergedThrough,
          NextExpected(history.mark.value.mergedThrough), shouldShowToasts);
      }
    case PostOwn(post, shouldShowToasts) =>
      var entries := PostCoreEntry(history.clientQueue, sanitize, post).entries;
      ArrivalStaysBounded(history.view, entries[|entries| - 1], shouldShowToasts);
    case SetClient(_, _) =>
    case Change(change) =>
      if change.Arrive? { ArrivalStaysBounded(history.view, change.entry, change.shouldShowToasts); }
  }

  lemma SnapshotCatchesUp(history: History, session: Session, known: nat, lost: nat, count: nat, shouldShowToasts: bool)
    requires session.Valid() && known < count <= |session.posts| && Knows(history, session, known, lost)
    ensures var op := OpOf(session, Snapshot(count, shouldShowToasts));
            Knows(ApplyOp(history, session.sanitize, op), session, count, lost + LostByOp(history, session.sanitize, op))
  {
    hide IsCaughtUp, TakeEntries, LostByEntries, LogOf, QueueOf, RevisionOf, ValidateQueue, IsLog, IsGrownFrom, IsBounded;
    SessionLogs(session, known, count);
    SnapshotIsWindow(session, count);
    SnapshotJoins(history.view, session.sanitize, session.Log(known), session.Log(count), session.Owner(), session.epoch,
      shouldShowToasts, lost);
    OpStaysBounded(history, session.sanitize, OpOf(session, Snapshot(count, shouldShowToasts)));
  }

  lemma LivePostCatchesUp(history: History, session: Session, known: nat, lost: nat, count: nat, shouldShowToasts: bool)
    requires session.Valid() && known < count <= |session.posts| && Knows(history, session, known, lost)
    requires IsCovered(session, known, Live(count, shouldShowToasts))
    ensures var op := OpOf(session, Live(count, shouldShowToasts));
            Knows(ApplyOp(history, session.sanitize, op), session, count, lost + LostByOp(history, session.sanitize, op))
  {
    hide IsCaughtUp, TakeEntry, LostByEntry, LogOf, RevisionOf, IsBounded;
    SessionLogs(session, known, count);
    LogIsNotEmpty(session, count);
    OpStaysBounded(history, session.sanitize, OpOf(session, Live(count, shouldShowToasts)));
    var log, through := session.Log(count), ThroughLog(session.Log(known));
    var entry := log[|log| - 1];
    assert log[|log| - 1..] == [entry];
    CoveringWindowJoins(history.view, session.sanitize, session.Log(known), log, |log| - 1, session.Owner(), session.epoch,
      shouldShowToasts, lost);
    LastIsTaken(history.view, session.sanitize, entry, through, shouldShowToasts);
    assert IsNewer(through, entry) ==> ThroughAfter(through, entry) == ThroughLog(log);
  }

  lemma LastIsTaken(view: HistoryView, sanitize: string -> string, entry: NotificationEntry, through: Option<MergedThrough>, shouldPreview: bool)
    ensures TakeEntries(view, sanitize, [entry], through, NextExpected(through), shouldPreview)
         == (TakeEntry(view, sanitize, entry, through, NextExpected(through), shouldPreview), ThroughAfter(through, entry))
    ensures LostByEntries(view, sanitize, [entry], through, shouldPreview) == LostByEntry(view, sanitize, entry, through, shouldPreview)
  {
    assert [entry][1..] == [];
  }

  lemma OwnArrivalKeeps(view: HistoryView, arrived: NotificationEntry, shouldShowToasts: bool, log: seq<NotificationEntry>,
      owner: NotificationQueueOwner, epoch: nat, sanitize: string -> string, lost: nat)
    requires owner.SessionOwner? && arrived.notificationId.owner.ClientOwner? && IsCaughtUp(view, log, owner, epoch, sanitize, lost)
    ensures IsCaughtUp(TakeArrival(view, arrived, shouldShowToasts), log, owner, epoch, sanitize,
              lost + Evicted(view, Arrive(arrived, shouldShowToasts)))
  {
    var before := SessionEntries(view.entries, owner, epoch);
    SessionHolds(view.entries, owner, epoch);
    assert forall entry :: entry in before ==> entry.notificationId != arrived.notificationId;
    RemoveHeldFromSession(view, arrived.notificationId, owner, epoch);
    ArrivalAddsToSession(view, arrived, shouldShowToasts, owner, epoch);
    ArrivalStaysUnique(view, arrived, shouldShowToasts);
    TrimmedComposes(SessionEntries(TakeArrival(view, arrived, shouldShowToasts).entries, owner, epoch), before,
      ReceivedLog(log, sanitize), lost, Evicted(view, Arrive(arrived, shouldShowToasts)));
  }

  lemma OwnPostKeeps(history: History, session: Session, known: nat, lost: nat, post: CorePost, shouldShowToasts: bool)
    requires known <= |session.posts| && Knows(history, session, known, lost) && IsOwnQueue(history.clientQueue)
    ensures Knows(PostOwnEntry(history, session.sanitize, post, shouldShowToasts), session, known,
              lost + LostByOp(history, session.sanitize, PostOwn(post, shouldShowToasts)))
  {
    hide TakeArrival, Evicted, IsCaughtUp, LogOf, IsBounded;
    OpStaysBounded(history, session.sanitize, PostOwn(post, shouldShowToasts));
    var after := PostOwnEntry(history, session.sanitize, post, shouldShowToasts);
    assert after.mark == history.mark;
    if !(history.view.isSessionLocal && IsHeldBySession(history.view.entries, post.severity, session.sanitize(post.text))) {
      var entries := PostCoreEntry(history.clientQueue, session.sanitize, post).entries;
      assert entries[|entries| - 1].notificationId.owner.ClientOwner? by {
        PostKeepsOwnQueue(history.clientQueue, session.sanitize, post);
        assert entries[|entries| - 1] in entries;
      }
      OwnArrivalKeeps(history.view, entries[|entries| - 1], shouldShowToasts, session.Log(known), session.Owner(), session.epoch,
        session.sanitize, lost);
    }
  }

  lemma OwnChangeKeepsEntries(view: HistoryView, change: HistoryChange)
    requires !change.Arrive? && !change.Dismiss? && !change.ClearAll?
    ensures ApplyHistoryChange(view, change).entries == view.entries
  {
  }

  lemma OwnStepKeeps(history: History, session: Session, known: nat, lost: nat, op: HistoryOp)
    requires known <= |session.posts| && Knows(history, session, known, lost)
    requires IsOwnOp(op) && IsOwnQueue(history.clientQueue)
    ensures Knows(ApplyOp(history, session.sanitize, op), session, known, lost + LostByOp(history, session.sanitize, op))
  {
    match op
    case PostOwn(post, shouldShowToasts) => OwnPostKeeps(history, session, known, lost, post, shouldShowToasts);
    case SetClient(_, _) =>
    case Change(change) => OwnChangeKeepsEntries(history.view, change);
  }

  lemma StepCatchesUp(history: History, session: Session, known: nat, lost: nat, step: FeedStep)
    requires session.Valid() && known <= |session.posts| && Knows(history, session, known, lost)
    requires IsOwnQueue(history.clientQueue) && IsStep(session, step) && IsCovered(session, known, step)
    ensures var (op, after) := (OpOf(session, step), ApplyOp(history, session.sanitize, OpOf(session, step)));
            && KnownAfter(known, step) <= |session.posts|
            && Knows(after, session, KnownAfter(known, step), lost + LostByOp(history, session.sanitize, op))
            && IsOwnQueue(after.clientQueue)
  {
    match step
    case Snapshot(count, shouldShowToasts) =>
      if count <= known { RetakingChangesNothing(history, session, known, step); }
      else { SnapshotCatchesUp(history, session, known, lost, count, shouldShowToasts); }
    case Live(count, shouldShowToasts) =>
      if count <= known { RetakingChangesNothing(history, session, known, step); }
      else { LivePostCatchesUp(history, session, known, lost, count, shouldShowToasts); }
    case Own(op) =>
      OwnStepKeeps(history, session, known, lost, op);
      if op.PostOwn? { PostKeepsOwnQueue(history.clientQueue, session.sanitize, op.post); }
  }

  // Nothing of the viewer's own moves its mark.
  lemma OwnStepKeepsMark(history: History, session: Session, known: nat, op: HistoryOp)
    requires known <= |session.posts| && IsMarkedAt(history, session, known)
    requires !op.TakeQueue? && !op.TakePost?
    ensures IsMarkedAt(ApplyOp(history, session.sanitize, op), session, known)
  {
  }

  // After a clear the viewer still knows what it knew, and holds none of it: of
  // the session's next posts it takes the new ones only.
  lemma ClearKeepsKnowing(history: History, session: Session, known: nat, lost: nat)
    requires known <= |session.posts| && Knows(history, session, known, lost)
    ensures var cleared := ApplyOp(history, session.sanitize, Change(ClearAll));
            && Knows(cleared, session, known, |session.Log(known)|)
            && SessionEntries(cleared.view.entries, session.Owner(), session.epoch) == []
  {
  }

  lemma HoldsNothing(view: HistoryView, owner: NotificationQueueOwner, epoch: nat, sanitize: string -> string)
    requires AreUnique(view.entries) && SessionEntries(view.entries, owner, epoch) == []
    ensures IsCaughtUp(view, [], owner, epoch, sanitize, 0)
  {
  }

  lemma NothingKnown(session: Session)
    ensures session.Log(0) == [] && ThroughLog([]) == None
  {
  }

  // The first snapshot a viewer takes of a session whose entries it holds none
  // of.
  lemma FirstSnapshotCatchesUp(history: History, session: Session, count: nat, shouldShowToasts: bool)
    requires session.Valid() && count <= |session.posts| && AreUnique(history.view.entries) && IsBounded(history.view)
    requires !IsSameQueue(history.mark, session.Owner(), session.epoch)
    requires SessionEntries(history.view.entries, session.Owner(), session.epoch) == []
    ensures var op := OpOf(session, Snapshot(count, shouldShowToasts));
            Knows(ApplyOp(history, session.sanitize, op), session, count, LostByOp(history, session.sanitize, op))
  {
    hide IsCaughtUp, TakeEntries, LostByEntries, LogOf, QueueOf, ValidateQueue, SessionEntries, IsBounded, IsLog, IsGrownFrom, RevisionOf;
    HoldsNothing(history.view, session.Owner(), session.epoch, session.sanitize);
    OpStaysBounded(history, session.sanitize, OpOf(session, Snapshot(count, shouldShowToasts)));
    SessionLogs(session, 0, count);
    SnapshotIsWindow(session, count);
    NothingKnown(session);
    SnapshotJoins(history.view, session.sanitize, [], session.Log(count), session.Owner(), session.epoch,
      shouldShowToasts && history.mark.Some? && history.mark.value.owner == session.Owner(), 0);
  }

  // ---------------------------------------------------------------------
  // Runs
  // ---------------------------------------------------------------------

  function RunFeed(history: History, session: Session, steps: seq<FeedStep>): History
    requires forall step :: step in steps ==> IsStep(session, step)
  {
    if steps == [] then history
    else
      assert forall step :: step in steps[..|steps| - 1] ==> step in steps;
      assert steps[|steps| - 1] in steps;
      ApplyOp(RunFeed(history, session, steps[..|steps| - 1]), session.sanitize, OpOf(session, steps[|steps| - 1]))
  }

  function KnownOverRun(known: nat, steps: seq<FeedStep>): nat {
    if steps == [] then known else KnownAfter(KnownOverRun(known, steps[..|steps| - 1]), steps[|steps| - 1])
  }

  function LostOverRun(history: History, session: Session, steps: seq<FeedStep>): nat
    requires forall step :: step in steps ==> IsStep(session, step)
  {
    if steps == [] then 0
    else
      assert forall step :: step in steps[..|steps| - 1] ==> step in steps;
      assert steps[|steps| - 1] in steps;
      var init := steps[..|steps| - 1];
      LostOverRun(history, session, init)
      + LostByOp(RunFeed(history, session, init), session.sanitize, OpOf(session, steps[|steps| - 1]))
  }

  // Every live post of the run reaches back to what came before it.
  predicate IsGapless(session: Session, known: nat, steps: seq<FeedStep>)
    requires known <= |session.posts| && forall step :: step in steps ==> IsStep(session, step)
  {
    steps != [] ==>
      assert forall step :: step in steps[..|steps| - 1] ==> step in steps;
      assert steps[|steps| - 1] in steps;
      var (init, step) := (steps[..|steps| - 1], steps[|steps| - 1]);
      IsGapless(session, known, init)
      && KnownOverRun(known, init) <= |session.posts|
      && IsCovered(session, KnownOverRun(known, init), step)
  }

  lemma {:induction false} FeedCatchesUp(history: History, session: Session, known: nat, lost: nat, steps: seq<FeedStep>)
    requires session.Valid() && known <= |session.posts| && Knows(history, session, known, lost) && IsOwnQueue(history.clientQueue)
    requires forall step :: step in steps ==> IsStep(session, step)
    requires IsGapless(session, known, steps)
    ensures KnownOverRun(known, steps) <= |session.posts|
    ensures Knows(RunFeed(history, session, steps), session, KnownOverRun(known, steps), lost + LostOverRun(history, session, steps))
    ensures IsOwnQueue(RunFeed(history, session, steps).clientQueue)
    decreases |steps|
  {
    if steps != [] {
      var init := steps[..|steps| - 1];
      assert forall step :: step in init ==> step in steps;
      assert steps[|steps| - 1] in steps;
      FeedCatchesUp(history, session, known, lost, init);
      StepCatchesUp(RunFeed(history, session, init), session, KnownOverRun(known, init), lost + LostOverRun(history, session, init), steps[|steps| - 1]);
    }
  }

  // Live posts come in order, as a session sends them: none skips one the
  // viewer was not told of, by a post or by a snapshot before it.
  predicate IsInOrder(known: nat, steps: seq<FeedStep>) {
    steps != [] ==>
      var (init, step) := (steps[..|steps| - 1], steps[|steps| - 1]);
      IsInOrder(known, init) && (step.Live? ==> step.count <= KnownOverRun(known, init) + 1)
  }

  lemma {:induction false} OrderLeavesNoGap(session: Session, known: nat, steps: seq<FeedStep>)
    requires known <= |session.posts| && forall step :: step in steps ==> IsStep(session, step)
    requires IsInOrder(known, steps)
    ensures KnownOverRun(known, steps) <= |session.posts| && IsGapless(session, known, steps)
  {
    if steps != [] {
      var (init, step) := (steps[..|steps| - 1], steps[|steps| - 1]);
      assert step in steps && forall earlier :: earlier in init ==> earlier in steps;
      OrderLeavesNoGap(session, known, init);
      var before := KnownOverRun(known, init);
      if step.Live? && step.count == before + 1 {
        NextPostIsCovered(session, before, step.shouldShowToasts);
      }
    }
  }

  // However the session's posts reached the viewer, by snapshots at any time
  // and live posts in order, each again or out of date as it may be: the viewer
  // holds the newest of the log's entries once each, in order, as the session
  // has them, less at most what it counted as lost.
  lemma EachPostIsMergedOnce(history: History, session: Session, first: nat, shouldShowToasts: bool, steps: seq<FeedStep>)
    requires session.Valid() && first <= |session.posts| && IsOwnQueue(history.clientQueue)
    requires AreUnique(history.view.entries) && IsBounded(history.view)
    requires !IsSameQueue(history.mark, session.Owner(), session.epoch)
    requires SessionEntries(history.view.entries, session.Owner(), session.epoch) == []
    requires forall step :: step in steps ==> IsStep(session, step)
    requires IsInOrder(first, steps)
    ensures KnownOverRun(first, steps) <= |session.posts|
    ensures var op := OpOf(session, Snapshot(first, shouldShowToasts));
            var start := ApplyOp(history, session.sanitize, op);
            var (held, log) := (SessionEntries(RunFeed(start, session, steps).view.entries, session.Owner(), session.epoch),
                                ReceivedLog(session.Log(KnownOverRun(first, steps)), session.sanitize));
            var lost := LostByOp(history, session.sanitize, op) + LostOverRun(start, session, steps);
            IsTrimmed(held, log, lost) && (lost == 0 ==> held == log)
  {
    var op := OpOf(session, Snapshot(first, shouldShowToasts));
    FirstSnapshotCatchesUp(history, session, first, shouldShowToasts);
    OrderLeavesNoGap(session, first, steps);
    FeedCatchesUp(ApplyOp(history, session.sanitize, op), session, first, LostByOp(history, session.sanitize, op), steps);
  }

  // ---------------------------------------------------------------------
  // Live posts that skip posts
  // ---------------------------------------------------------------------

  // A live post past the next catches the viewer up exactly when it hides no
  // change, or when the viewer is left holding none of the session's entries
  // from before it.
  lemma LivePostCatchesUpWhen(history: History, session: Session, known: nat, lost: nat, count: nat, shouldShowToasts: bool)
    requires session.Valid() && known < count <= |session.posts| && Knows(history, session, known, lost)
    ensures var op := OpOf(session, Live(count, shouldShowToasts));
            var counted := CountSkipped(history.view, op.entry, NextExpected(history.mark.value.mergedThrough));
            Knows(ApplyOp(history, session.sanitize, op), session, count, lost + LostByOp(history, session.sanitize, op))
            <==> IsCovered(session, known, Live(count, shouldShowToasts))
                 || StillHeld(counted, SanitizeEntry(op.entry, session.sanitize), session.Owner(), session.epoch) == []
  {
    hide IsCaughtUp, TakeEntry, LostByEntry, LogOf, RevisionOf, IsBounded, StillHeld, Covers, CountSkipped, IsGrownFrom;
    SessionLogs(session, known, count);
    LogIsNotEmpty(session, count);
    if IsCovered(session, known, Live(count, shouldShowToasts)) {
      LivePostCatchesUp(history, session, known, lost, count, shouldShowToasts);
    } else {
      OpStaysBounded(history, session.sanitize, OpOf(session, Live(count, shouldShowToasts)));
      UncoveredPostIsNewer(session.Log(known), session.Log(count), session.Owner(), session.epoch);
      SkippingPostJoins(history.view, session.sanitize, session.Log(known), session.Log(count), session.Owner(), session.epoch,
        shouldShowToasts, lost);
    }
  }

  lemma UncoveredPostIsNewer(older: seq<NotificationEntry>, log: seq<NotificationEntry>, owner: NotificationQueueOwner, epoch: nat)
    requires IsLog(log, owner, epoch) && IsLog(older, owner, epoch) && IsGrownFrom(log, older)
    requires log != [] && !Covers(older, log, |log| - 1)
    ensures ThroughAfter(ThroughLog(older), log[|log| - 1]) == ThroughLog(log)
    ensures log[|log| - 1].notificationId.owner == owner && log[|log| - 1].notificationId.epoch == epoch
  {
  }

  function Same(text: string): string { text }

  function RepeatThenOther(): Session {
    Session(1, 0, [CorePost(Info, "a", 1, 0), CorePost(Info, "a", 1, 0), CorePost(Info, "b", 1, 0)], Same)
  }

  function EntryOf(sequence: nat, text: string, repeatCount: nat): NotificationEntry {
    NotificationEntry(NotificationId(SessionOwner(1), 0, sequence), Core, Info, text, 0, repeatCount)
  }

  lemma RepeatThenOtherLogs()
    ensures var session := RepeatThenOther();
            && session.Log(1) == [EntryOf(0, "a", 1)] && session.Log(3) == [EntryOf(0, "a", 2), EntryOf(1, "b", 1)]
            && session.Queue(1) == NotificationQueue(SessionOwner(1), 0, 1, [EntryOf(0, "a", 1)])
            && session.Revision(1) == 1 && session.Revision(3) == 3 && session.Valid()
  {
    var posts := RepeatThenOther().posts;
    assert posts[..1][..0] == [] && posts[..2][..1] == posts[..1] && posts[..3][..2] == posts[..2] && posts[..3] == posts;
    var owner := SessionOwner(1);
    assert LogOf(posts[..1], owner, 0, Same) == [EntryOf(0, "a", 1)];
    assert LogOf(posts[..2], owner, 0, Same) == [EntryOf(0, "a", 2)];
    assert RevisionOf(posts[..1]) == 1 && RevisionOf(posts[..2]) == 2;
  }

  lemma NextArrives(view: HistoryView, sequence: nat, entry: NotificationEntry, through: Option<MergedThrough>, shouldPreview: bool)
    requires !view.isSessionLocal && |view.entries| < MAX_MERGED_NOTIFICATION_COUNT
    requires FindIndex(view.entries, entry.notificationId).None?
    requires IsNewer(through, entry) && entry.notificationId.sequence == NextExpected(through) == sequence
    ensures var after := TakeEntry(view, Same, entry, through, sequence, shouldPreview);
            && after.entries == view.entries + [entry] && after.droppedCount == view.droppedCount
            && after.isSessionLocal == view.isSessionLocal
  {
    ArrivalOfNewJoins(view, entry, shouldPreview);
  }

  // The session posts a, a again, and b, and the second post is skipped: the
  // viewer holds a as posted once, nothing counts as dropped, and a snapshot of
  // the same queue leaves it so.
  lemma SkippedRepeatIsHidden(clientNumber: nat, epoch: nat)
    ensures var session := RepeatThenOther();
            var start := NewHistory(clientNumber, epoch, false);
            var told := ApplyOp(start, Same, OpOf(session, Snapshot(1, true)));
            var after := ApplyOp(told, Same, OpOf(session, Live(3, true)));
            && session.Valid() && session.Log(3) == [EntryOf(0, "a", 2), EntryOf(1, "b", 1)]
            && after.view.entries == [EntryOf(0, "a", 1), EntryOf(1, "b", 1)]
            && after.view.droppedCount == 0
            && ApplyOp(after, Same, OpOf(session, Snapshot(3, true))) == after
  {
    var (session, start, first, other) := (RepeatThenOther(), NewHistory(clientNumber, epoch, false), EntryOf(0, "a", 1), EntryOf(1, "b", 1));
    RepeatThenOtherLogs();
    hide LogOf, QueueOf, RevisionOf, RepeatThenOther, TakeArrival;
    NextArrives(start.view, 0, first, None, false);
    var told := ApplyOp(start, Same, OpOf(session, Snapshot(1, true)));
    assert told.view == TakeEntry(start.view, Same, first, None, 0, false)
        && told.mark == Some(SessionQueueMark(SessionOwner(1), 0, 1, Some(MergedThrough(0, 1)))) by {
      assert [first][1..] == [];
    }
    assert told.view.entries == [first];
    NextArrives(told.view, 1, other, told.mark.value.mergedThrough, true);
    var after := ApplyOp(told, Same, OpOf(session, Live(3, true)));
    assert after.mark == Some(SessionQueueMark(SessionOwner(1), 0, 3, Some(MergedThrough(1, 1))));
    assert IsMarkedAt(after, session, 3);
    RetakingChangesNothing(after, session, 3, Snapshot(3, true));
  }

  // ---------------------------------------------------------------------
  // What is lost is counted
  // ---------------------------------------------------------------------

  lemma EntryLossIsDropped(view: HistoryView, sanitize: string -> string, entry: NotificationEntry, through: Option<MergedThrough>, shouldPreview: bool)
    requires view.droppedCount + LostByEntry(view, sanitize, entry, through, shouldPreview) <= MAX_U64
    ensures TakeEntry(view, sanitize, entry, through, NextExpected(through), shouldPreview).droppedCount
         == view.droppedCount + LostByEntry(view, sanitize, entry, through, shouldPreview)
  {
    var counted := CountSkipped(view, entry, NextExpected(through));
    assert counted.droppedCount == view.droppedCount + CountEntry(entry, NextExpected(through)).skipped;
    if IsNewer(through, entry) {
      DroppedByArrival(counted, SanitizeEntry(entry, sanitize), shouldPreview);
    }
  }

  lemma {:induction false} EntriesLossIsDropped(view: HistoryView, sanitize: string -> string, entries: seq<NotificationEntry>,
      through: Option<MergedThrough>, shouldPreview: bool)
    requires forall entry :: entry in entries ==> IsSequenced(entry)
    requires view.droppedCount + LostByEntries(view, sanitize, entries, through, shouldPreview) <= MAX_U64
    ensures TakeEntries(view, sanitize, entries, through, NextExpected(through), shouldPreview).0.droppedCount
         == view.droppedCount + LostByEntries(view, sanitize, entries, through, shouldPreview)
    decreases |entries|
  {
    if entries != [] {
      assert entries[0] in entries;
      assert forall entry :: entry in entries[1..] ==> entry in entries;
      EntryIsCounted(sanitize, entries[0], through, shouldPreview);
      EntryLossIsDropped(view, sanitize, entries[0], through, shouldPreview);
      EntriesLossIsDropped(TakeEntry(view, sanitize, entries[0], through, NextExpected(through), shouldPreview), sanitize,
        entries[1..], ThroughAfter(through, entries[0]), shouldPreview);
    }
  }

  // Below saturation, the dropped count rises by exactly what the operation
  // loses, so a count that stands still means that nothing was lost.
  lemma LossIsDropped(history: History, sanitize: string -> string, op: HistoryOp)
    requires IsOp(op) && IsSequencedOp(op) && !(op.Change? && op.change.ClearAll?)
    requires history.view.droppedCount + LostByOp(history, sanitize, op) <= MAX_U64
    ensures ApplyOp(history, sanitize, op).view.droppedCount == history.view.droppedCount + LostByOp(history, sanitize, op)
  {
    match op
    case TakeQueue(sessionNumber, queue, shouldShowToasts) =>
      var isSame := IsSameQueue(history.mark, queue.owner, queue.epoch);
      if LostByOp(history, sanitize, op) != 0 || ApplyOp(history, sanitize, op) != history {
        EntriesLossIsDropped(history.view, sanitize, queue.entries, if isSame then history.mark.value.mergedThrough else None,
          shouldShowToasts && history.mark.Some? && history.mark.value.owner == queue.owner);
      }
    case TakePost(revision, entry, shouldShowToasts) =>
      if IsSameQueue(history.mark, entry.notificationId.owner, entry.notificationId.epoch) && revision > history.mark.value.revision {
        EntryLossIsDropped(history.view, sanitize, entry, history.mark.value.mergedThrough, shouldShowToasts);
      }
    case PostOwn(post, shouldShowToasts) =>
      var entries := PostCoreEntry(history.clientQueue, sanitize, post).entries;
      DroppedByArrival(history.view, entries[|entries| - 1], shouldShowToasts);
    case SetClient(_, _) =>
    case Change(change) => DroppedByChange(history.view, change);
  }
}
