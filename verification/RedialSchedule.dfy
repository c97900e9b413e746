// The redial schedule of a lost remote link: widening pauses, a window that
// ends them, and the seconds counted down in between
// (crates/koshi-client/src/attach.rs). Instants and durations count
// nanoseconds.
module RedialSchedule {
  import opened Options

  const NANOSECONDS_PER_SECOND: nat := 1_000_000_000
  const FIRST_REDIAL_WAIT_DURATION: nat := 1 * NANOSECONDS_PER_SECOND
  const MAX_REDIAL_WAIT_DURATION: nat := 8 * NANOSECONDS_PER_SECOND
  const REDIAL_WINDOW_DURATION: nat := 120 * NANOSECONDS_PER_SECOND
  const MAX_U32: nat := 0xffff_ffff

  datatype Schedule = Schedule(startedAt: nat, attempt: nat, retryWait: nat, nextDialAt: Option<nat>)

  function Until(later: nat, now: nat): nat { if now <= later then later - now else 0 }

  function NextRedialWait(wait: nat): nat {
    if wait * 2 <= MAX_REDIAL_WAIT_DURATION then wait * 2 else MAX_REDIAL_WAIT_DURATION
  }

  predicate DoesPauseFit(elapsed: nat, pause: nat) {
    elapsed + pause < REDIAL_WINDOW_DURATION
  }

  function FromLinkDrop(droppedAt: nat): Schedule {
    Schedule(droppedAt, 1, FIRST_REDIAL_WAIT_DURATION, Some(droppedAt + FIRST_REDIAL_WAIT_DURATION))
  }

  // The whole seconds left before the next dial, rounded up.
  function RetryInSeconds(schedule: Schedule, now: nat): Option<nat> {
    match schedule.nextDialAt
    case None => None
    case Some(dialAt) =>
      var remaining := Until(dialAt, now);
      var seconds := remaining / NANOSECONDS_PER_SECOND + (if remaining % NANOSECONDS_PER_SECOND > 0 then 1 else 0);
      Some(if seconds <= MAX_U32 then seconds else MAX_U32)
  }

  function NextWakeup(schedule: Schedule, now: nat): Option<nat> {
    match schedule.nextDialAt
    case None => None
    case Some(dialAt) =>
      var remaining := Until(dialAt, now);
      var fraction := remaining % NANOSECONDS_PER_SECOND;
      Some(if fraction > 0 then fraction else if remaining <= NANOSECONDS_PER_SECOND then remaining else NANOSECONDS_PER_SECOND)
  }

  predicate IsDialDue(schedule: Schedule, now: nat) {
    schedule.nextDialAt.Some? && schedule.nextDialAt.value <= now
  }

  function StartDueDial(schedule: Schedule, now: nat): (Schedule, bool) {
    if IsDialDue(schedule, now) then (schedule.(nextDialAt := None), true) else (schedule, false)
  }

  function ScheduleNextDial(schedule: Schedule, failedAt: nat): (Schedule, bool) {
    var wait := NextRedialWait(schedule.retryWait);
    if !DoesPauseFit(Until(failedAt, schedule.startedAt), wait) then (schedule, false)
    else (schedule.(retryWait := wait, attempt := schedule.attempt + 1, nextDialAt := Some(failedAt + wait)), true)
  }

  // ---------------------------------------------------------------------
  // The schedule as its methods update it
  // ---------------------------------------------------------------------

  class Redialer {
    const startedAt: nat
    var attempt: nat
    var retryWait: nat
    var nextDialAt: Option<nat>

    ghost function State(): Schedule
      reads this
    {
      Schedule(startedAt, attempt, retryWait, nextDialAt)
    }

    constructor (droppedAt: nat)
      ensures State() == FromLinkDrop(droppedAt)
    {
      startedAt, attempt, retryWait := droppedAt, 1, FIRST_REDIAL_WAIT_DURATION;
      nextDialAt := Some(droppedAt + FIRST_REDIAL_WAIT_DURATION);
    }

    method StartDial(now: nat) returns (isDialDue: bool)
      modifies this`nextDialAt
      ensures (State(), isDialDue) == StartDueDial(old(State()), now)
    {
      isDialDue := nextDialAt.Some? && nextDialAt.value <= now;
      if isDialDue {
        nextDialAt := None;
      }
    }

    method ScheduleAfterFailure(failedAt: nat) returns (isScheduled: bool)
      modifies this
      ensures (State(), isScheduled) == ScheduleNextDial(old(State()), failedAt)
    {
      var wait := NextRedialWait(retryWait);
      if !DoesPauseFit(Until(failedAt, startedAt), wait) {
        return false;
      }
      retryWait := wait;
      attempt := attempt + 1;
      nextDialAt := Some(failedAt + wait);
      return true;
    }
  }

  // ---------------------------------------------------------------------
  // Runs
  // ---------------------------------------------------------------------

  // One dial: how late the loop starts it after it is due, and how long it
  // runs before it fails.
  datatype FailedDial = FailedDial(startDelay: nat, runDuration: nat)

  function FailDial(schedule: Schedule, dial: FailedDial): (Schedule, bool)
    requires schedule.nextDialAt.Some?
  {
    var startedAt := schedule.nextDialAt.value + dial.startDelay;
    ScheduleNextDial(StartDueDial(schedule, startedAt).0, startedAt + dial.runDuration)
  }

  // The schedule after the dials, or `None` once a pause no longer fits.
  function RunDials(droppedAt: nat, dials: seq<FailedDial>): (schedule: Option<Schedule>)
    ensures schedule.Some? ==> schedule.value.nextDialAt.Some?
  {
    if dials == [] then Some(FromLinkDrop(droppedAt))
    else
      match RunDials(droppedAt, dials[..|dials| - 1])
      case None => None
      case Some(schedule) =>
        var (next, isScheduled) := FailDial(schedule, dials[|dials| - 1]);
        if isScheduled then Some(next) else None
  }

  // 2 to the power `exponent`.
  function PowerOfTwo(exponent: nat): (power: nat)
    ensures power > 0
  {
    if exponent == 0 then 1 else 2 * PowerOfTwo(exponent - 1)
  }

  function WaitSeconds(attempt: nat): nat
    requires attempt > 0
  {
    if PowerOfTwo(attempt - 1) <= 8 then PowerOfTwo(attempt - 1) else 8
  }

  // The pauses before the dials up to and including number `attempt`.
  function PausesUpTo(attempt: nat): nat {
    if attempt == 0 then 0 else PausesUpTo(attempt - 1) + WaitSeconds(attempt) * NANOSECONDS_PER_SECOND
  }

  predicate IsOnSchedule(schedule: Schedule) {
    && schedule.attempt > 0
    && schedule.retryWait == WaitSeconds(schedule.attempt) * NANOSECONDS_PER_SECOND
    && schedule.nextDialAt.Some?
    && schedule.startedAt + PausesUpTo(schedule.attempt) <= schedule.nextDialAt.value < schedule.startedAt + REDIAL_WINDOW_DURATION
  }

  lemma WaitWidens(attempt: nat)
    requires attempt > 0
    ensures NextRedialWait(WaitSeconds(attempt) * NANOSECONDS_PER_SECOND) == WaitSeconds(attempt + 1) * NANOSECONDS_PER_SECOND
  {
    assert PowerOfTwo(attempt) == 2 * PowerOfTwo(attempt - 1);
  }

  lemma {:induction false} PausesAreLong(attempt: nat)
    requires attempt >= 4
    ensures WaitSeconds(attempt) == 8 && PausesUpTo(attempt) == (8 * attempt - 17) * NANOSECONDS_PER_SECOND
  {
    if attempt == 4 {
      assert PowerOfTwo(3) == 2 * PowerOfTwo(2) && PowerOfTwo(2) == 2 * PowerOfTwo(1) && PowerOfTwo(1) == 2 * PowerOfTwo(0);
      assert PausesUpTo(4) == PausesUpTo(3) + 8 * NANOSECONDS_PER_SECOND;
      assert PausesUpTo(3) == PausesUpTo(2) + 4 * NANOSECONDS_PER_SECOND;
      assert PausesUpTo(2) == PausesUpTo(1) + 2 * NANOSECONDS_PER_SECOND;
      assert PausesUpTo(1) == PausesUpTo(0) + 1 * NANOSECONDS_PER_SECOND;
    } else {
      PausesAreLong(attempt - 1);
      assert PowerOfTwo(attempt - 1) == 2 * PowerOfTwo(attempt - 2);
    }
  }

  // Whatever the dials take, each pause is 2 to the power of the attempt less
  // one, held at 8 seconds, every dial is due inside the window, and no run
  // reaches an attempt 18.
  lemma {:induction false} RunsStayOnSchedule(droppedAt: nat, dials: seq<FailedDial>)
    ensures RunDials(droppedAt, dials).Some? ==>
              var schedule := RunDials(droppedAt, dials).value;
              && IsOnSchedule(schedule)
              && schedule.startedAt == droppedAt
              && schedule.attempt == |dials| + 1 <= 17
  {
    if dials == [] {
      assert PowerOfTwo(0) == 1 && PausesUpTo(1) == PausesUpTo(0) + NANOSECONDS_PER_SECOND;
    } else {
      var init := dials[..|dials| - 1];
      RunsStayOnSchedule(droppedAt, init);
      if RunDials(droppedAt, init).Some? {
        var before := RunDials(droppedAt, init).value;
        WaitWidens(before.attempt);
        if RunDials(droppedAt, dials).Some? {
          var after := RunDials(droppedAt, dials).value;
          assert IsOnSchedule(after);
          if after.attempt >= 4 { PausesAreLong(after.attempt); }
        }
      }
    }
  }

  function InstantDials(count: nat): seq<FailedDial> { seq(count, _ => FailedDial(0, 0)) }

  // With dials that fail at once, the n-th is due as soon as its pauses are
  // over, so attempt 17, due 119 seconds after the drop, is reached.
  lemma {:induction false} InstantDialsReach(droppedAt: nat, count: nat)
    requires count <= 16
    ensures RunDials(droppedAt, InstantDials(count)).Some?
    ensures var schedule := RunDials(droppedAt, InstantDials(count)).value;
            schedule.attempt == count + 1 && schedule.nextDialAt == Some(droppedAt + PausesUpTo(count + 1))
  {
    if count == 0 {
      assert PowerOfTwo(0) == 1 && PausesUpTo(1) == PausesUpTo(0) + NANOSECONDS_PER_SECOND;
    } else {
      InstantDialsReach(droppedAt, count - 1);
      assert InstantDials(count)[..count - 1] == InstantDials(count - 1);
      RunsStayOnSchedule(droppedAt, InstantDials(count - 1));
      WaitWidens(count);
      PausesFitWindow(count + 1);
    }
  }

  lemma {:induction false} PausesFitWindow(attempt: nat)
    requires attempt <= 17
    ensures PausesUpTo(attempt) < REDIAL_WINDOW_DURATION
    ensures attempt == 17 ==> PausesUpTo(attempt) == 119 * NANOSECONDS_PER_SECOND
  {
    if attempt >= 4 {
      PausesAreLong(attempt);
    } else if attempt > 0 {
      PausesFitWindow(attempt - 1);
      PausesUpToIsShort(attempt);
    }
  }

  lemma {:induction false} PausesUpToIsShort(attempt: nat)
    ensures PausesUpTo(attempt) <= attempt * 8 * NANOSECONDS_PER_SECOND
  {
    if attempt > 0 {
      PausesUpToIsShort(attempt - 1);
    }
  }

  lemma AttemptSeventeenIsReached(droppedAt: nat)
    ensures exists dials :: RunDials(droppedAt, dials).Some? && RunDials(droppedAt, dials).value.attempt == 17
              && RunDials(droppedAt, dials).value.nextDialAt == Some(droppedAt + 119 * NANOSECONDS_PER_SECOND)
  {
    InstantDialsReach(droppedAt, 16);
    PausesFitWindow(17);
  }

  // ---------------------------------------------------------------------
  // The countdown
  // ---------------------------------------------------------------------

  // The shown seconds stand until the wakeup.
  lemma CountdownStandsUntilWakeup(schedule: Schedule, now: nat, later: nat)
    requires schedule.nextDialAt.Some? && now <= later < now + NextWakeup(schedule, now).GetOr(0)
    ensures RetryInSeconds(schedule, later) == RetryInSeconds(schedule, now)
    ensures !IsDialDue(schedule, later)
  {
    var remaining, left := Until(schedule.nextDialAt.value, now), Until(schedule.nextDialAt.value, later);
    RoundsUp(remaining);
    RoundsUp(left);
  }

  // The number of whole seconds, rounded up, that `remaining` is.
  lemma RoundsUp(remaining: nat)
    ensures var seconds := remaining / NANOSECONDS_PER_SECOND + (if remaining % NANOSECONDS_PER_SECOND > 0 then 1 else 0);
            remaining <= seconds * NANOSECONDS_PER_SECOND < remaining + NANOSECONDS_PER_SECOND
  {
  }

  // At the wakeup they change, or the dial is due.
  lemma CountdownMovesAtWakeup(schedule: Schedule, now: nat)
    requires IsOnSchedule(schedule) && schedule.startedAt <= now
    ensures var wakeupAt := now + NextWakeup(schedule, now).value;
            IsDialDue(schedule, wakeupAt) || RetryInSeconds(schedule, wakeupAt).value == RetryInSeconds(schedule, now).value - 1
  {
    var dialAt, wakeup := schedule.nextDialAt.value, NextWakeup(schedule, now).value;
    RoundsUp(Until(dialAt, now));
    RoundsUp(Until(dialAt, now + wakeup));
  }
}
