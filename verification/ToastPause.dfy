// A pause of the toast's clock only delays it: from the resume on, everything
// happens as it would have without the pause, later by the pause's length. The
// mark of when a waiting preview was first seen is not delayed with the rest,
// and never needs to be.
module ToastPause {
  import opened Options
  import opened Notifications
  import opened ToastQueue
  import opened ToastClock

  // ---------------------------------------------------------------------
  // The mark stays near the phase it shortens
  // ---------------------------------------------------------------------

  predicate IsMarkNear(toasts: Toasts) {
    toasts.waitingPreviewSeenAt.Some? && toasts.shownToast.Some? && toasts.shownToast.value.phaseStartedAt.Some? ==>
      toasts.waitingPreviewSeenAt.value <= toasts.shownToast.value.phaseStartedAt.value + BACKLOG_PHASE_DURATION
  }

  predicate IsMarkPast(toasts: Toasts, now: nat) {
    toasts.waitingPreviewSeenAt.Some? ==> toasts.waitingPreviewSeenAt.value <= now
  }

  lemma {:induction false} ClockKeepsMarkPast(toasts: Toasts, now: nat, timing: ToastTiming)
    requires IsMarkPast(toasts, now)
    ensures IsMarkPast(RunClock(toasts, now, timing).0, now)
    decreases ClockRank(toasts)
  {
    TurnDescends(toasts, now, timing);
    var turn := TurnClock(toasts, now, timing);
    if turn.Ran? {
      ClockKeepsMarkPast(turn.toasts, now, timing);
    }
  }

  // A clock at rest stands before the end of its phase, so the mark cannot be
  // what holds that end back.
  lemma SettledMarkIsNear(toasts: Toasts, now: nat, timing: ToastTiming)
    requires IsSettled(toasts, now, timing) && IsMarkPast(toasts, now)
    ensures IsMarkNear(toasts)
  {
  }

  lemma AdvanceKeepsMark(toasts: Toasts, now: nat, timing: ToastTiming, isPaused: bool)
    requires IsMarkPast(toasts, now) && IsMarkNear(toasts)
    ensures var after := Advance(toasts, now, timing, isPaused).0; IsMarkPast(after, now) && IsMarkNear(after)
  {
    if !isPaused {
      ClockKeepsMarkPast(Resume(toasts, now), now, timing);
      AdvanceSettles(toasts, now, timing);
      SettledMarkIsNear(Advance(toasts, now, timing, false).0, now, timing);
    }
  }

  lemma ChangeKeepsMark(toasts: Toasts, change: ToastChange, now: nat)
    requires IsMarkPast(toasts, now) && IsMarkNear(toasts)
    ensures IsMarkPast(ApplyChange(toasts, change), now) && IsMarkNear(ApplyChange(toasts, change))
  {
  }

  function LastTime(steps: seq<ToastStep>, start: nat): nat {
    if steps == [] then start
    else
      var step := steps[|steps| - 1];
      if step.Tick? then step.currentTime else LastTime(steps[..|steps| - 1], start)
  }

  // The clock never ticks backwards.
  predicate IsForward(steps: seq<ToastStep>, start: nat) {
    steps != [] ==>
      var (init, step) := (steps[..|steps| - 1], steps[|steps| - 1]);
      IsForward(init, start) && (step.Tick? ==> LastTime(init, start) <= step.currentTime)
  }

  lemma {:induction false} RunsKeepMark(steps: seq<ToastStep>)
    requires IsForward(steps, 0)
    ensures var toasts := RunSteps(EMPTY_TOASTS, steps); IsMarkPast(toasts, LastTime(steps, 0)) && IsMarkNear(toasts)
  {
    if steps != [] {
      var init := steps[..|steps| - 1];
      RunsKeepMark(init);
      match steps[|steps| - 1]
      case Change(change) => ChangeKeepsMark(RunSteps(EMPTY_TOASTS, init), change, LastTime(init, 0));
      case Tick(now, timing, isPaused) => AdvanceKeepsMark(RunSteps(EMPTY_TOASTS, init), now, timing, isPaused);
    }
  }

  // ---------------------------------------------------------------------
  // One run, and the same run delayed
  // ---------------------------------------------------------------------

  function DelayShown(shown: Option<ShownToast>, delay: nat): Option<ShownToast> {
    if shown.Some? && shown.value.phaseStartedAt.Some?
    then Some(shown.value.(phaseStartedAt := Some(shown.value.phaseStartedAt.value + delay)))
    else shown
  }

  function DelayToasts(toasts: Toasts, delay: nat, seen: Option<nat>): Toasts {
    toasts.(shownToast := DelayShown(toasts.shownToast, delay), waitingPreviewSeenAt := seen)
  }

  // The same toasts with the shown phase started `delay` later. The marks are
  // `delay` apart too, or both too early to hold back the phase.
  predicate IsDelayed(toasts: Toasts, delayed: Toasts, delay: nat, now: nat) {
    && toasts.pausedAt.None?
    && delayed == DelayToasts(toasts, delay, delayed.waitingPreviewSeenAt)
    && AreMarksAlike(toasts, delayed, delay)
    && IsMarkPast(toasts, now)
    && IsMarkPast(delayed, now + delay)
  }

  predicate AreMarksAlike(toasts: Toasts, delayed: Toasts, delay: nat) {
    match toasts.waitingPreviewSeenAt
    case None => delayed.waitingPreviewSeenAt.None?
    case Some(seen) =>
      delayed.waitingPreviewSeenAt == Some(seen + delay)
      || (delayed.waitingPreviewSeenAt.Some? && IsMarkNear(toasts) && IsMarkNear(delayed))
  }

  lemma EndIsDelayed(phase: ToastPhase, startedAt: nat, timing: ToastTiming, seen: Option<nat>, delayedSeen: Option<nat>, delay: nat)
    requires seen.Some? <==> delayedSeen.Some?
    requires seen.Some? ==>
               || delayedSeen.value == seen.value + delay
               || (seen.value <= startedAt + BACKLOG_PHASE_DURATION && delayedSeen.value <= startedAt + delay + BACKLOG_PHASE_DURATION)
    ensures ComputePhaseEndedAt(phase, startedAt + delay, timing, delayedSeen)
         == ComputePhaseEndedAt(phase, startedAt, timing, seen) + delay
  {
  }

  // With its marks far enough apart, or early enough, a delayed turn moves as
  // the turn does.
  lemma TurnCommutes(toasts: Toasts, delayed: Toasts, delay: nat, now: nat, timing: ToastTiming)
    requires delayed == DelayToasts(toasts, delay, delayed.waitingPreviewSeenAt)
    requires toasts.shownToast.Some? ==>
               var (phase, startedAt) := (toasts.shownToast.value.phase, toasts.shownToast.value.phaseStartedAt.GetOr(now));
               ComputePhaseEndedAt(phase, startedAt + delay, timing, SeenAt(delayed, now + delay))
               == ComputePhaseEndedAt(phase, startedAt, timing, SeenAt(toasts, now)) + delay
    ensures var (turn, delayedTurn) := (TurnClock(toasts, now, timing), TurnClock(delayed, now + delay, timing));
            && delayedTurn.toasts == DelayToasts(turn.toasts, delay, SeenAt(delayed, now + delay))
            && (turn.Ran? <==> delayedTurn.Ran?)
            && (turn.Ran? ==> turn.isPreviewChanged == delayedTurn.isPreviewChanged)
  {
    hide ComputePhaseEndedAt, ComputeHiddenPerMille, ShowNextPreview;
    if toasts.shownToast.Some? {
      var toast := toasts.shownToast.value;
      var startedAt := toast.phaseStartedAt.GetOr(now);
      var endedAt := ComputePhaseEndedAt(toast.phase, startedAt, timing, SeenAt(toasts, now));
      assert Since(now + delay, startedAt + delay) == Since(now, startedAt);
      assert Since(endedAt + delay, startedAt + delay) == Since(endedAt, startedAt);
      NextIsDelayed(toasts.(waitingPreviewSeenAt := SeenAt(toasts, now)), delay, SeenAt(delayed, now + delay));
    }
  }

  // A turn only moves the phase's start later, past the mark.
  lemma TurnKeepsMarks(toasts: Toasts, now: nat, timing: ToastTiming)
    requires IsMarkPast(toasts, now)
    ensures TurnClock(toasts, now, timing).toasts.waitingPreviewSeenAt == SeenAt(toasts, now)
    ensures TurnClock(toasts, now, timing).toasts.pausedAt == toasts.pausedAt
    ensures toasts.waitingPreviewSeenAt.Some? && IsMarkNear(toasts) ==> IsMarkNear(TurnClock(toasts, now, timing).toasts)
  {
  }

  lemma EndsAreDelayed(toasts: Toasts, delayed: Toasts, delay: nat, now: nat, timing: ToastTiming)
    requires IsDelayed(toasts, delayed, delay, now) && toasts.shownToast.Some?
    ensures var (phase, startedAt) := (toasts.shownToast.value.phase, toasts.shownToast.value.phaseStartedAt.GetOr(now));
            ComputePhaseEndedAt(phase, startedAt + delay, timing, SeenAt(delayed, now + delay))
            == ComputePhaseEndedAt(phase, startedAt, timing, SeenAt(toasts, now)) + delay
  {
    assert HasWaitingPreview(toasts) == HasWaitingPreview(delayed);
    var toast := toasts.shownToast.value;
    EndIsDelayed(toast.phase, toast.phaseStartedAt.GetOr(now), timing, SeenAt(toasts, now), SeenAt(delayed, now + delay), delay);
  }

  lemma TurnIsDelayed(toasts: Toasts, delayed: Toasts, delay: nat, now: nat, timing: ToastTiming)
    requires IsDelayed(toasts, delayed, delay, now)
    ensures var (turn, delayedTurn) := (TurnClock(toasts, now, timing), TurnClock(delayed, now + delay, timing));
            && IsDelayed(turn.toasts, delayedTurn.toasts, delay, now)
            && (turn.Ran? <==> delayedTurn.Ran?)
            && (turn.Ran? ==> turn.isPreviewChanged == delayedTurn.isPreviewChanged)
  {
    if toasts.shownToast.Some? {
      EndsAreDelayed(toasts, delayed, delay, now, timing);
    }
    hide TurnClock, AreMarksAlike, IsMarkNear, ComputePhaseEndedAt, SeenAt, DelayShown;
    TurnCommutes(toasts, delayed, delay, now, timing);
    TurnKeepsMarks(toasts, now, timing);
    TurnKeepsMarks(delayed, now + delay, timing);
    MarksStayAlike(toasts, delayed, TurnClock(toasts, now, timing).toasts, TurnClock(delayed, now + delay, timing).toasts, delay, now);
  }

  lemma MarksStayAlike(toasts: Toasts, delayed: Toasts, after: Toasts, delayedAfter: Toasts, delay: nat, now: nat)
    requires IsDelayed(toasts, delayed, delay, now)
    requires after.waitingPreviewSeenAt == SeenAt(toasts, now) && delayedAfter.waitingPreviewSeenAt == SeenAt(delayed, now + delay)
    requires toasts.waitingPreviewSeenAt.Some? && IsMarkNear(toasts) ==> IsMarkNear(after)
    requires delayed.waitingPreviewSeenAt.Some? && IsMarkNear(delayed) ==> IsMarkNear(delayedAfter)
    ensures AreMarksAlike(after, delayedAfter, delay) && IsMarkPast(after, now) && IsMarkPast(delayedAfter, now + delay)
  {
    assert HasWaitingPreview(toasts) == HasWaitingPreview(delayed);
  }

  lemma NextIsDelayed(toasts: Toasts, delay: nat, seen: Option<nat>)
    requires toasts.shownToast.Some?
    ensures ShowNextPreview(DelayToasts(toasts, delay, seen)) == DelayToasts(ShowNextPreview(toasts), delay, seen)
  {
  }

  lemma {:induction false} ClockIsDelayed(toasts: Toasts, delayed: Toasts, delay: nat, now: nat, timing: ToastTiming)
    requires IsDelayed(toasts, delayed, delay, now)
    ensures var (after, changed) := RunClock(toasts, now, timing);
            var (delayedAfter, delayedChanged) := RunClock(delayed, now + delay, timing);
            IsDelayed(after, delayedAfter, delay, now) && changed == delayedChanged
    decreases ClockRank(toasts)
  {
    TurnDescends(toasts, now, timing);
    TurnIsDelayed(toasts, delayed, delay, now, timing);
    var turn := TurnClock(toasts, now, timing);
    if turn.Ran? {
      ClockIsDelayed(turn.toasts, TurnClock(delayed, now + delay, timing).toasts, delay, now, timing);
    }
  }

  lemma RemoveCommutes(toasts: Toasts, id: NotificationId, delay: nat, seen: Option<nat>)
    ensures RemovePreviews(DelayToasts(toasts, delay, seen), id) == DelayToasts(RemovePreviews(toasts, id), delay, seen)
  {
    hide EntriesWithout, MembersWithout, OmitEmpty, ShowNextPreview;
    var waiting := RemoveWaiting(toasts, id);
    assert RemoveWaiting(DelayToasts(toasts, delay, seen), id) == DelayToasts(waiting, delay, seen);
    if toasts.shownToast.Some? && toasts.shownToast.value.preview.SummaryPreview? {
      var toast := toasts.shownToast.value;
      NextIsDelayed(waiting.(shownToast := Some(toast.(preview := SummaryPreview(MembersWithout(toast.preview.members, id))))), delay, seen);
    }
  }

  lemma QueueCommutes(toasts: Toasts, entry: NotificationEntry, delay: nat, seen: Option<nat>)
    ensures QueuePreview(DelayToasts(toasts, delay, seen), entry) == DelayToasts(QueuePreview(toasts, entry), delay, seen)
    ensures UpdatePreviews(DelayToasts(toasts, delay, seen), entry).0 == DelayToasts(UpdatePreviews(toasts, entry).0, delay, seen)
  {
    assert PreviewedIds(DelayToasts(toasts, delay, seen)) == PreviewedIds(toasts);
  }

  // No change of the queue reads a time.
  lemma ChangeCommutes(toasts: Toasts, change: ToastChange, delay: nat, seen: Option<nat>)
    ensures ApplyChange(DelayToasts(toasts, delay, seen), change) == DelayToasts(ApplyChange(toasts, change), delay, seen)
  {
    match change
    case Preview(entry) => QueueCommutes(toasts, entry, delay, seen);
    case Repeat(entry) => QueueCommutes(toasts, entry, delay, seen);
    case Replace(replacedIds, entry) =>
    case Drop(id) => RemoveCommutes(toasts, id, delay, seen);
    case Withdrawal =>
    case Clear =>
  }

  lemma ChangeKeepsMarks(toasts: Toasts, change: ToastChange)
    ensures ApplyChange(toasts, change).waitingPreviewSeenAt == toasts.waitingPreviewSeenAt
    ensures ApplyChange(toasts, change).pausedAt == toasts.pausedAt
    ensures IsMarkNear(toasts) ==> IsMarkNear(ApplyChange(toasts, change))
  {
  }

  lemma ChangeIsDelayed(toasts: Toasts, delayed: Toasts, delay: nat, now: nat, change: ToastChange)
    requires IsDelayed(toasts, delayed, delay, now)
    ensures IsDelayed(ApplyChange(toasts, change), ApplyChange(delayed, change), delay, now)
  {
    ChangeKeepsMarks(toasts, change);
    ChangeKeepsMarks(delayed, change);
    ChangeCommutes(toasts, change, delay, delayed.waitingPreviewSeenAt);
  }

  lemma StepIsDelayed(toasts: Toasts, delayed: Toasts, delay: nat, now: nat, step: ToastStep)
    requires IsDelayed(toasts, delayed, delay, now)
    requires step.Tick? ==> now <= step.currentTime && !step.isPaused
    ensures IsDelayed(ApplyStep(toasts, step), ApplyStep(delayed, DelayStep(step, delay)), delay,
              if step.Tick? then step.currentTime else now)
  {
    hide RunClock, ApplyChange;
    match step
    case Change(change) => ChangeIsDelayed(toasts, delayed, delay, now, change);
    case Tick(tickTime, timing, isPaused) =>
      assert IsDelayed(toasts, delayed, delay, tickTime);
      ClockIsDelayed(toasts, delayed, delay, tickTime, timing);
  }

  function DelayStep(step: ToastStep, delay: nat): ToastStep {
    match step
    case Change(_) => step
    case Tick(now, timing, isPaused) => Tick(now + delay, timing, isPaused)
  }

  function DelaySteps(steps: seq<ToastStep>, delay: nat): (delayed: seq<ToastStep>)
    ensures |delayed| == |steps|
  {
    seq(|steps|, i requires 0 <= i < |steps| => DelayStep(steps[i], delay))
  }

  predicate NeverPauses(steps: seq<ToastStep>) {
    forall step :: step in steps ==> step.Tick? ==> !step.isPaused
  }

  lemma {:induction false} RunIsDelayed(toasts: Toasts, delayed: Toasts, delay: nat, now: nat, steps: seq<ToastStep>)
    requires IsDelayed(toasts, delayed, delay, now) && IsForward(steps, now) && NeverPauses(steps)
    ensures IsDelayed(RunSteps(toasts, steps), RunSteps(delayed, DelaySteps(steps, delay)), delay, LastTime(steps, now))
    decreases |steps|
  {
    if steps != [] {
      var init := steps[..|steps| - 1];
      var all := DelaySteps(steps, delay);
      assert all[..|all| - 1] == DelaySteps(init, delay);
      assert forall step :: step in init ==> step in steps;
      RunIsDelayed(toasts, delayed, delay, now, init);
      assert steps[|steps| - 1] in steps;
      StepIsDelayed(RunSteps(toasts, init), RunSteps(delayed, DelaySteps(init, delay)), delay, LastTime(init, now), steps[|steps| - 1]);
    }
  }

  // ---------------------------------------------------------------------
  // The pause
  // ---------------------------------------------------------------------

  predicate OnlyPauses(steps: seq<ToastStep>) {
    forall step :: step in steps ==> step.Tick? ==> step.isPaused
  }

  function WithoutTicks(steps: seq<ToastStep>): seq<ToastStep> {
    if steps == [] then []
    else
      var step := steps[|steps| - 1];
      WithoutTicks(steps[..|steps| - 1]) + (if step.Change? then [step] else [])
  }

  lemma RemoveIgnoresPause(toasts: Toasts, pausedAt: Option<nat>, id: NotificationId)
    ensures RemovePreviews(toasts.(pausedAt := pausedAt), id) == RemovePreviews(toasts, id).(pausedAt := pausedAt)
  {
    hide EntriesWithout, MembersWithout, OmitEmpty;
  }

  lemma ChangeIgnoresPause(toasts: Toasts, pausedAt: Option<nat>, change: ToastChange)
    ensures ApplyChange(toasts.(pausedAt := pausedAt), change) == ApplyChange(toasts, change).(pausedAt := pausedAt)
  {
    assert PreviewedIds(toasts.(pausedAt := pausedAt)) == PreviewedIds(toasts);
    hide RemovePreviews, PreviewedIds, RepointShown, RepointEntries, RepointMembers;
    if change.Drop? { RemoveIgnoresPause(toasts, pausedAt, change.id); }
  }

  lemma {:induction false} PausedRunOnlyChanges(toasts: Toasts, pausedAt: nat, steps: seq<ToastStep>)
    requires OnlyPauses(steps)
    ensures RunSteps(toasts.(pausedAt := Some(pausedAt)), steps) == RunSteps(toasts, WithoutTicks(steps)).(pausedAt := Some(pausedAt))
    decreases |steps|
  {
    if steps != [] {
      var (init, step) := (steps[..|steps| - 1], steps[|steps| - 1]);
      assert forall s :: s in init ==> s in steps;
      PausedRunOnlyChanges(toasts, pausedAt, init);
      if step.Change? {
        ChangeIgnoresPause(RunSteps(toasts, WithoutTicks(init)), Some(pausedAt), step.change);
        var all := WithoutTicks(steps);
        assert all == WithoutTicks(init) + [step];
        assert all[..|all| - 1] == WithoutTicks(init) && all[|all| - 1] == step;
      } else {
        assert step in steps;
        assert WithoutTicks(steps) == WithoutTicks(init);
      }
    }
  }

  lemma {:induction false} ChangesKeepMark(toasts: Toasts, now: nat, steps: seq<ToastStep>)
    requires IsMarkPast(toasts, now) && IsMarkNear(toasts) && toasts.pausedAt.None?
    ensures var after := RunSteps(toasts, WithoutTicks(steps)); IsMarkPast(after, now) && IsMarkNear(after) && after.pausedAt.None?
    decreases |steps|
  {
    if steps != [] {
      var (init, step) := (steps[..|steps| - 1], steps[|steps| - 1]);
      ChangesKeepMark(toasts, now, init);
      var before, all := RunSteps(toasts, WithoutTicks(init)), WithoutTicks(steps);
      if step.Change? {
        ChangeKeepsMark(before, step.change, now);
        ChangeIgnoresPause(before, None, step.change);
        assert all[..|all| - 1] == WithoutTicks(init) && all[|all| - 1] == step;
      } else {
        assert all == WithoutTicks(init);
      }
    }
  }

  // Whatever arrives during a pause, and whatever follows it, the toasts after
  // it are those of the run that never paused, `pauseLength` later.
  lemma PauseOnlyDelays(toasts: Toasts, pausedAt: nat, pauseLength: nat, timing: ToastTiming,
      during: seq<ToastStep>, after: seq<ToastStep>)
    requires toasts.pausedAt.None? && IsMarkPast(toasts, pausedAt) && IsMarkNear(toasts)
    requires OnlyPauses(during) && NeverPauses(after) && IsForward(after, pausedAt)
    ensures var halted := RunSteps(Advance(toasts, pausedAt, timing, true).0, during);
            var resumed := Advance(halted, pausedAt + pauseLength, timing, false);
            var unpaused := Advance(RunSteps(toasts, WithoutTicks(during)), pausedAt, timing, false);
            && resumed.1 == unpaused.1
            && IsDelayed(RunSteps(unpaused.0, after), RunSteps(resumed.0, DelaySteps(after, pauseLength)),
                 pauseLength, LastTime(after, pausedAt))
  {
    PausedRunOnlyChanges(toasts, pausedAt, during);
    ChangesKeepMark(toasts, pausedAt, during);
    var running := RunSteps(toasts, WithoutTicks(during));
    var resumed := Resume(running.(pausedAt := Some(pausedAt)), pausedAt + pauseLength);
    assert IsDelayed(running, resumed, pauseLength, pausedAt);
    ClockIsDelayed(running, resumed, pauseLength, pausedAt, timing);
    RunIsDelayed(RunClock(running, pausedAt, timing).0, RunClock(resumed, pausedAt + pauseLength, timing).0,
      pauseLength, pausedAt, after);
  }

  // Delayed toasts show the same preview at the same position, and ask for the
  // same wakeup.
  lemma DelayedLooksTheSame(toasts: Toasts, delayed: Toasts, delay: nat, now: nat, timing: ToastTiming)
    requires IsDelayed(toasts, delayed, delay, now)
    ensures toasts.shownToast.Some? <==> delayed.shownToast.Some?
    ensures toasts.shownToast.Some? ==>
              var (toast, delayedToast) := (toasts.shownToast.value, delayed.shownToast.value);
              && toast.preview == delayedToast.preview
              && toast.hiddenPerMille == delayedToast.hiddenPerMille
              && toast.toastNumber == delayedToast.toastNumber
    ensures FindNextWakeup(toasts, now, timing) == FindNextWakeup(delayed, now + delay, timing)
  {
    hide ComputePhaseEndedAt, IsMarkPast;
    if toasts.shownToast.Some? && toasts.shownToast.value.phaseStartedAt.Some? {
      EndIsDelayed(toasts.shownToast.value.phase, toasts.shownToast.value.phaseStartedAt.value, timing,
        SeenAt(toasts, now), SeenAt(delayed, now + delay), delay);
    }
  }
}
