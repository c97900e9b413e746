// The toast's clock: how often it advances, when it wakes, and how long it was
// paused leave no mark on what it shows.
module ToastClock {
  import opened Options
  import opened ToastQueue

  // ---------------------------------------------------------------------
  // The slide position
  // ---------------------------------------------------------------------

  predicate IsSlideStart(phase: ToastPhase) {
    phase.Withdraw? ==> phase.startHiddenPerMille <= FULLY_HIDDEN_PER_MILLE
  }

  lemma ScaleStaysBelow(whole: nat, progress: nat)
    requires progress <= 1000
    ensures Scaled(whole, progress) <= whole
  {
    assert whole * progress <= whole * 1000;
  }

  // The position stays between in place and fully hidden.
  lemma HiddenInRange(phase: ToastPhase, elapsed: nat, duration: nat)
    requires IsSlideStart(phase)
    ensures ComputeHiddenPerMille(phase, elapsed, duration) <= FULLY_HIDDEN_PER_MILLE
  {
    if phase.Withdraw? {
      ScaleStaysBelow(FULLY_HIDDEN_PER_MILLE - phase.startHiddenPerMille, ProgressPerMille(elapsed, duration));
    }
  }

  lemma DivideMonotone(a: nat, b: nat, divisor: nat)
    requires a <= b && divisor > 0
    ensures a / divisor <= b / divisor
  {
    var less, more := a / divisor, b / divisor;
    assert a == divisor * less + a % divisor && b == divisor * more + b % divisor;
    if more < less {
      TimesMonotone(divisor, more + 1, less);
      assert false;
    }
  }

  lemma TimesMonotone(factor: nat, less: nat, more: nat)
    requires less <= more
    ensures factor * less <= factor * more
  {
  }

  lemma ScaleMonotone(whole: nat, less: nat, more: nat)
    requires less <= more
    ensures Scaled(whole, less) <= Scaled(whole, more)
  {
    assert whole * less <= whole * more;
    DivideMonotone(whole * less, whole * more, 1000);
  }

  lemma ProgressMonotone(earlier: nat, later: nat, duration: nat)
    requires earlier <= later
    ensures ProgressPerMille(earlier, duration) <= ProgressPerMille(later, duration)
  {
    var milliseconds := duration / NANOSECONDS_PER_MILLISECOND;
    if milliseconds != 0 {
      DivideMonotone(CountElapsedSteps(earlier) * TOAST_FRAME_MILLISECONDS * 1000,
        CountElapsedSteps(later) * TOAST_FRAME_MILLISECONDS * 1000, milliseconds);
    }
  }

  // Within one phase length, appear only comes in and withdraw only goes out.
  lemma SlideMovesTowardItsEnd(phase: ToastPhase, earlier: nat, later: nat, duration: nat)
    requires IsSlideStart(phase) && earlier <= later
    ensures var (first, second) := (ComputeHiddenPerMille(phase, earlier, duration), ComputeHiddenPerMille(phase, later, duration));
            match phase
            case Appear => second <= first
            case Stay => first == second == 0
            case Withdraw(start, _) => start <= first <= second
  {
    hide ProgressPerMille;
    var less, more := ProgressPerMille(earlier, duration), ProgressPerMille(later, duration);
    assert less <= more by { ProgressMonotone(earlier, later, duration); }
    match phase
    case Appear =>
    case Stay =>
    case Withdraw(start, _) => ScaleMonotone(FULLY_HIDDEN_PER_MILLE - start, less, more);
  }

  predicate IsSlideInRange(toasts: Toasts) {
    toasts.shownToast.Some? ==>
      IsSlideStart(toasts.shownToast.value.phase) && toasts.shownToast.value.hiddenPerMille <= FULLY_HIDDEN_PER_MILLE
  }

  lemma TurnStaysInRange(toasts: Toasts, currentTime: nat, timing: ToastTiming)
    requires IsSlideInRange(toasts)
    ensures IsSlideInRange(TurnClock(toasts, currentTime, timing).toasts)
  {
    if toasts.shownToast.Some? {
      var toast := toasts.shownToast.value;
      var startedAt := toast.phaseStartedAt.GetOr(currentTime);
      var endedAt := ComputePhaseEndedAt(toast.phase, startedAt, timing, SeenAt(toasts, currentTime));
      HiddenInRange(toast.phase, Since(currentTime, startedAt), Since(endedAt, startedAt));
    }
  }

  lemma {:induction false} ClockStaysInRange(toasts: Toasts, currentTime: nat, timing: ToastTiming)
    requires IsSlideInRange(toasts)
    ensures IsSlideInRange(RunClock(toasts, currentTime, timing).0)
    decreases ClockRank(toasts)
  {
    TurnStaysInRange(toasts, currentTime, timing);
    TurnDescends(toasts, currentTime, timing);
    var turn := TurnClock(toasts, currentTime, timing);
    if turn.Ran? {
      ClockStaysInRange(turn.toasts, currentTime, timing);
    }
  }

  // The drawn position is in 0..=1000 after every run.
  lemma {:induction false} RunsStayInRange(steps: seq<ToastStep>)
    ensures IsSlideInRange(RunSteps(EMPTY_TOASTS, steps))
  {
    hide RunClock;
    if steps != [] {
      var before := RunSteps(EMPTY_TOASTS, steps[..|steps| - 1]);
      RunsStayInRange(steps[..|steps| - 1]);
      match steps[|steps| - 1]
      case Change(change) => assert IsSlideInRange(ApplyChange(before, change));
      case Tick(currentTime, timing, isPaused) =>
        if !isPaused { ClockStaysInRange(Resume(before, currentTime), currentTime, timing); }
    }
  }

  // ---------------------------------------------------------------------
  // The clock at rest
  // ---------------------------------------------------------------------

  // What an advance of the running clock to `currentTime` leaves.
  predicate IsSettled(toasts: Toasts, currentTime: nat, timing: ToastTiming) {
    && toasts.pausedAt.None?
    && TurnClock(toasts, currentTime, timing) == Halted(toasts)
  }

  lemma TurnSettles(toasts: Toasts, currentTime: nat, timing: ToastTiming)
    requires toasts.pausedAt.None? && TurnClock(toasts, currentTime, timing).Halted?
    ensures IsSettled(TurnClock(toasts, currentTime, timing).toasts, currentTime, timing)
  {
  }

  lemma {:induction false} ClockSettles(toasts: Toasts, currentTime: nat, timing: ToastTiming)
    requires toasts.pausedAt.None?
    ensures IsSettled(RunClock(toasts, currentTime, timing).0, currentTime, timing)
    decreases ClockRank(toasts)
  {
    TurnDescends(toasts, currentTime, timing);
    var turn := TurnClock(toasts, currentTime, timing);
    if turn.Ran? {
      ClockSettles(turn.toasts, currentTime, timing);
    } else {
      TurnSettles(toasts, currentTime, timing);
    }
  }

  // Every advance of the running clock leaves it at rest: it has nothing more
  // to move at that time.
  lemma AdvanceSettles(toasts: Toasts, currentTime: nat, timing: ToastTiming)
    ensures IsSettled(Advance(toasts, currentTime, timing, false).0, currentTime, timing)
  {
    ClockSettles(Resume(toasts, currentTime), currentTime, timing);
  }

  // ---------------------------------------------------------------------
  // Wakeups
  // ---------------------------------------------------------------------

  lemma StepsBelowNext(elapsed: nat, steps: nat)
    requires steps == CountElapsedSteps(elapsed)
    ensures TOAST_FRAME_INTERVAL * steps <= elapsed < TOAST_FRAME_INTERVAL * (steps + 1)
  {
  }

  lemma StepsWithin(elapsed: nat, steps: nat)
    requires TOAST_FRAME_INTERVAL * steps <= elapsed < TOAST_FRAME_INTERVAL * (steps + 1)
    ensures CountElapsedSteps(elapsed) == steps
  {
    StepsBelowNext(elapsed, CountElapsedSteps(elapsed));
  }

  // The clock at rest asks to wake exactly when it shows a toast, and always
  // in the future.
  lemma WakeupIsAhead(toasts: Toasts, currentTime: nat, timing: ToastTiming)
    requires IsSettled(toasts, currentTime, timing)
    ensures FindNextWakeup(toasts, currentTime, timing).None? <==> toasts.shownToast.None?
    ensures toasts.shownToast.Some? ==> FindNextWakeup(toasts, currentTime, timing).value > 0
  {
    if toasts.shownToast.Some? {
      var startedAt := toasts.shownToast.value.phaseStartedAt.value;
      StepsBelowNext(Since(currentTime, startedAt), CountElapsedSteps(Since(currentTime, startedAt)));
      if !toasts.shownToast.value.phase.Stay? { StepsAreFew(toasts, currentTime, timing); }
    }
  }

  lemma StepsAreFew(toasts: Toasts, currentTime: nat, timing: ToastTiming)
    requires IsSettled(toasts, currentTime, timing) && toasts.shownToast.Some? && !toasts.shownToast.value.phase.Stay?
    ensures CountElapsedSteps(Since(currentTime, toasts.shownToast.value.phaseStartedAt.value)) < MAX_U32
  {
  }

  // Nothing moves before the wakeup.
  lemma NothingMovesBeforeWakeup(toasts: Toasts, currentTime: nat, timing: ToastTiming, nextTime: nat)
    requires IsSettled(toasts, currentTime, timing) && toasts.shownToast.Some?
    requires currentTime <= nextTime < currentTime + FindNextWakeup(toasts, currentTime, timing).GetOr(0)
    ensures Advance(toasts, nextTime, timing, false) == (toasts, false)
  {
    var toast := toasts.shownToast.value;
    var startedAt := toast.phaseStartedAt.value;
    var endedAt := ComputePhaseEndedAt(toast.phase, startedAt, timing, toasts.waitingPreviewSeenAt);
    assert SeenAt(toasts, nextTime) == SeenAt(toasts, currentTime) == toasts.waitingPreviewSeenAt;
    assert nextTime < endedAt;
    HiddenHolds(toast.phase, Since(currentTime, startedAt), Since(nextTime, startedAt), Since(endedAt, startedAt)) by {
      if !toast.phase.Stay? {
        StepsAreFew(toasts, currentTime, timing);
        var steps := CountElapsedSteps(Since(currentTime, startedAt));
        StepsBelowNext(Since(currentTime, startedAt), steps);
        StepsWithin(Since(nextTime, startedAt), steps);
      }
    }
    assert TurnClock(toasts, nextTime, timing) == Halted(toasts);
  }

  lemma HiddenHolds(phase: ToastPhase, earlier: nat, later: nat, duration: nat)
    requires !phase.Stay? ==> CountElapsedSteps(earlier) == CountElapsedSteps(later)
    ensures ComputeHiddenPerMille(phase, earlier, duration) == ComputeHiddenPerMille(phase, later, duration)
  {
  }

  // At the wakeup the phase ends, or the slide takes its next step.
  lemma WakeupMoves(toasts: Toasts, currentTime: nat, timing: ToastTiming)
    requires IsSettled(toasts, currentTime, timing) && toasts.shownToast.Some?
    ensures var nextTime := currentTime + FindNextWakeup(toasts, currentTime, timing).GetOr(0);
            var startedAt := toasts.shownToast.value.phaseStartedAt.value;
            || TurnClock(toasts, nextTime, timing).Ran?
            || CountElapsedSteps(Since(nextTime, startedAt)) == CountElapsedSteps(Since(currentTime, startedAt)) + 1
  {
    var toast := toasts.shownToast.value;
    var startedAt := toast.phaseStartedAt.value;
    var endedAt := ComputePhaseEndedAt(toast.phase, startedAt, timing, toasts.waitingPreviewSeenAt);
    var nextTime := currentTime + FindNextWakeup(toasts, currentTime, timing).GetOr(0);
    var steps := CountElapsedSteps(Since(currentTime, startedAt));
    assert SeenAt(toasts, nextTime) == SeenAt(toasts, currentTime) == toasts.waitingPreviewSeenAt;
    assert currentTime < endedAt;
    hide ComputePhaseEndedAt, ComputeHiddenPerMille, ShowNextPreview;
    if toast.phase.Stay? || endedAt <= startedAt + TOAST_FRAME_INTERVAL * (steps + 1) {
      assert endedAt <= nextTime by {
        if !toast.phase.Stay? { StepsAreFew(toasts, currentTime, timing); }
      }
    } else {
      StepsAreFew(toasts, currentTime, timing);
      StepsBelowNext(Since(currentTime, startedAt), steps);
      StepsWithin(Since(nextTime, startedAt), steps + 1);
    }
  }

  // A withdraw requested of a settled toast starts from where the toast
  // stands, unless there is no slide left to draw: the toast is still fully
  // out of view, or slides take no time. Then the next preview shows.
  lemma WithdrawStartsWhereItStands(toasts: Toasts, toast: ShownToast, speed: WithdrawSpeed, currentTime: nat, timing: ToastTiming)
    requires toasts.pausedAt.None? && toasts.shownToast == Some(toast) && toast.phaseStartedAt.Some? && IsSlideStart(toast.phase)
    ensures var requested := toasts.(shownToast := Some(toast.(withdrawRequest := Some(speed))));
            var (after, isPreviewChanged) := Advance(requested, currentTime, timing, false);
            var endedAt := ComputePhaseEndedAt(toast.phase, toast.phaseStartedAt.value, timing, SeenAt(toasts, currentTime));
            var standing := ComputeHiddenPerMille(toast.phase, Since(currentTime, toast.phaseStartedAt.value),
              Since(endedAt, toast.phaseStartedAt.value));
            && (isPreviewChanged <==> standing == FULLY_HIDDEN_PER_MILLE || timing.shouldReduceMotion)
            && (!isPreviewChanged ==>
                 after.shownToast == Some(toast.(phase := Withdraw(standing, speed), phaseStartedAt := Some(currentTime),
                   hiddenPerMille := standing, withdrawRequest := None)))
  {
    var requested := toasts.(shownToast := Some(toast.(withdrawRequest := Some(speed))));
    var turn := TurnClock(requested, currentTime, timing);
    assert RunClock(requested, currentTime, timing).1 == (turn.isPreviewChanged || RunClock(turn.toasts, currentTime, timing).1);
    if !turn.isPreviewChanged {
      FreshWithdrawStands(turn.toasts, turn.toasts.shownToast.value, currentTime, timing);
    }
  }

  lemma NoProgressAtStart(duration: nat)
    requires duration >= BACKLOG_PHASE_DURATION
    ensures ProgressPerMille(0, duration) == 0
  {
  }

  // A withdraw that starts now ends at once without slides, and else stands.
  lemma FreshWithdrawStands(toasts: Toasts, toast: ShownToast, currentTime: nat, timing: ToastTiming)
    requires toasts.shownToast == Some(toast) && toast.phase.Withdraw? && toast.withdrawRequest.None?
    requires toast.phaseStartedAt == Some(currentTime)
    ensures var (after, isPreviewChanged) := RunClock(toasts, currentTime, timing);
            && (isPreviewChanged <==> timing.shouldReduceMotion)
            && (!isPreviewChanged ==> after.shownToast == Some(toast.(hiddenPerMille := toast.phase.startHiddenPerMille)))
  {
    var endedAt := ComputePhaseEndedAt(toast.phase, currentTime, timing, SeenAt(toasts, currentTime));
    if timing.shouldReduceMotion {
      assert endedAt == currentTime;
    } else {
      NoProgressAtStart(Since(endedAt, currentTime));
      assert ComputeHiddenPerMille(toast.phase, 0, Since(endedAt, currentTime)) == toast.phase.startHiddenPerMille;
    }
  }

  // ---------------------------------------------------------------------
  // How often the clock advances leaves no mark
  // ---------------------------------------------------------------------

  function WithHidden(toasts: Toasts, hidden: nat): Toasts {
    if toasts.shownToast.Some? then toasts.(shownToast := Some(toasts.shownToast.value.(hiddenPerMille := hidden))) else toasts
  }

  // The clock draws over the position it last drew.
  lemma {:induction false} DrawnPositionIsForgotten(toasts: Toasts, hidden: nat, currentTime: nat, timing: ToastTiming)
    ensures RunClock(WithHidden(toasts, hidden), currentTime, timing) == RunClock(toasts, currentTime, timing)
    decreases ClockRank(toasts)
  {
    TurnDescends(toasts, currentTime, timing);
    var turn := TurnClock(toasts, currentTime, timing);
    var other := TurnClock(WithHidden(toasts, hidden), currentTime, timing);
    if turn.Ran? {
      assert other == turn || other == Ran(WithHidden(turn.toasts, hidden), false);
      if other != turn {
        DrawnPositionIsForgotten(turn.toasts, hidden, currentTime, timing);
      }
    } else {
      assert other == turn;
    }
  }

  // The shown preview runs, and the clock has seen what waits.
  predicate IsUnderway(toasts: Toasts) {
    && toasts.pausedAt.None?
    && toasts.shownToast.Some?
    && toasts.shownToast.value.phaseStartedAt.Some?
    && toasts.shownToast.value.withdrawRequest.None?
    && (HasWaitingPreview(toasts) <==> toasts.waitingPreviewSeenAt.Some?)
  }

  // While the shown preview does not end, a stop on the way is forgotten.
  lemma {:induction false} StopIsForgotten(toasts: Toasts, stop: nat, end: nat, timing: ToastTiming)
    requires IsUnderway(toasts) && stop <= end
    requires !RunClock(toasts, end, timing).1
    ensures var (stopped, changed) := RunClock(toasts, stop, timing);
            && !changed
            && IsUnderway(stopped)
            && RunClock(stopped, end, timing) == RunClock(toasts, end, timing)
    decreases ClockRank(toasts)
  {
    TurnDescends(toasts, stop, timing);
    var atStop, atEnd := TurnClock(toasts, stop, timing), TurnClock(toasts, end, timing);
    assert SeenAt(toasts, stop) == SeenAt(toasts, end) == toasts.waitingPreviewSeenAt;
    if atStop.Ran? {
      assert atStop == atEnd;
      StopIsForgotten(atStop.toasts, stop, end, timing);
    } else {
      var hidden := atStop.toasts.shownToast.value.hiddenPerMille;
      assert atStop.toasts == WithHidden(toasts, hidden);
      DrawnPositionIsForgotten(toasts, hidden, end, timing);
    }
  }

  function AdvanceThrough(toasts: Toasts, times: seq<nat>, timing: ToastTiming): (Toasts, bool)
    decreases |times|
  {
    if times == [] then (toasts, false)
    else
      var (first, changed) := Advance(toasts, times[0], timing, false);
      var (last, changedLater) := AdvanceThrough(first, times[1..], timing);
      (last, changed || changedLater)
  }

  // However often the clock advances on the way to `end`, it stands there as
  // if it had advanced once, as long as the shown preview does not end.
  lemma {:induction false} StopsAreForgotten(toasts: Toasts, stops: seq<nat>, end: nat, timing: ToastTiming)
    requires IsUnderway(toasts) && !Advance(toasts, end, timing, false).1
    requires forall i :: 0 <= i < |stops| ==> stops[i] <= end
    ensures AdvanceThrough(toasts, stops + [end], timing) == Advance(toasts, end, timing, false)
    decreases |stops|
  {
    if stops == [] {
      assert [] + [end] == [end];
      assert [end][1..] == [];
    } else {
      StopIsForgotten(toasts, stops[0], end, timing);
      assert (stops + [end])[1..] == stops[1..] + [end];
      StopsAreForgotten(Advance(toasts, stops[0], timing, false).0, stops[1..], end, timing);
    }
  }
}
