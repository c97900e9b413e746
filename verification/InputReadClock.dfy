// The stamps of the input thread's reads, and the loop that judges deadlines
// by them (crates/koshi-client/src/input.rs, crates/koshi-client/src/attach.rs).
// The input thread, the channel and the loop move one step at a time, in any
// interleaving; a stamp is taken together with its clock reading. Instants
// count nanoseconds.
module InputReadClock {
  import opened Options
  import opened KeyResolution

  datatype ReadTimes = ReadTimes(lastReadAt: Option<nat>, lastTakenReadAt: Option<nat>)

  function StampFor(times: ReadTimes, now: nat): nat {
    match times.lastReadAt
    case Some(last) => if now <= last then last + 1 else now
    case None => now
  }

  predicate HasUntaken(times: ReadTimes) {
    match times.lastReadAt
    case None => false
    case Some(last) => times.lastTakenReadAt.None? || last > times.lastTakenReadAt.value
  }

  function JudgeTime(times: ReadTimes, now: nat): Option<nat> {
    if HasUntaken(times) then None else Some(now)
  }

  class InputClock {
    var lastReadAt: Option<nat>
    var lastTakenReadAt: Option<nat>

    ghost function Times(): ReadTimes
      reads this
    {
      ReadTimes(lastReadAt, lastTakenReadAt)
    }

    constructor ()
      ensures Times() == ReadTimes(None, None)
    {
      lastReadAt, lastTakenReadAt := None, None;
    }

    method StampInputRead(now: nat) returns (readAt: nat)
      modifies this
      ensures readAt == StampFor(old(Times()), now)
      ensures Times() == old(Times()).(lastReadAt := Some(readAt))
      ensures readAt >= now && (old(lastReadAt).Some? ==> readAt > old(lastReadAt).value)
    {
      readAt := now;
      if lastReadAt.Some? && now <= lastReadAt.value {
        readAt := lastReadAt.value + 1;
      }
      lastReadAt := Some(readAt);
    }

    method NoteInputTaken(readAt: nat)
      modifies this
      ensures Times() == old(Times()).(lastTakenReadAt := Some(readAt))
    {
      lastTakenReadAt := Some(readAt);
    }

    method FindInputJudgeTime(now: nat) returns (judgeTime: Option<nat>)
      ensures judgeTime == JudgeTime(Times(), now)
    {
      if lastReadAt.Some? && (lastTakenReadAt.None? || lastReadAt.value > lastTakenReadAt.value) {
        return None;
      }
      return Some(now);
    }
  }

  // ---------------------------------------------------------------------
  // The loop, and what it gives out
  // ---------------------------------------------------------------------

  datatype Given = GivenAction(action: BoundAction) | GivenChord(chord: KeyChord)

  datatype LoopState = LoopState(pending: Option<PendingKeySequence>, given: seq<Given>)

  datatype Read = Read(readAt: nat, chords: seq<KeyChord>)

  function JudgeAt(keymap: Keymap, loop: LoopState, now: nat): LoopState {
    var (fired, after) := ExpireKeys(keymap, loop.pending, now);
    LoopState(after, if fired.Some? then loop.given + [GivenAction(fired.value)] else loop.given)
  }

  function TypeChord(keymap: Keymap, loop: LoopState, chord: KeyChord, readAt: nat): LoopState {
    var (outcome, after) := ResolveKey(keymap, loop.pending, chord, readAt, false);
    LoopState(after,
      match outcome
      case Fire(action) => loop.given + [GivenAction(action)]
      case PassThrough(passed) => loop.given + [GivenChord(passed)]
      case Waiting => loop.given
      case Discard => loop.given)
  }

  function TypeChords(keymap: Keymap, loop: LoopState, chords: seq<KeyChord>, readAt: nat): LoopState {
    if chords == [] then loop
    else TypeChord(keymap, TypeChords(keymap, loop, chords[..|chords| - 1], readAt), chords[|chords| - 1], readAt)
  }

  // The loop takes one read: every deadline due at its stamp runs first.
  function TakeRead(keymap: Keymap, loop: LoopState, read: Read): LoopState {
    TypeChords(keymap, JudgeAt(keymap, loop, read.readAt), read.chords, read.readAt)
  }

  // The reference: one read after another, with no other judging at all.
  function TakeReads(keymap: Keymap, inputs: seq<Read>): LoopState {
    if inputs == [] then LoopState(None, [])
    else TakeRead(keymap, TakeReads(keymap, inputs[..|inputs| - 1]), inputs[|inputs| - 1])
  }

  // Judging twice is judging at the later time.
  lemma JudgingComposes(keymap: Keymap, loop: LoopState, earlier: nat, later: nat)
    requires earlier <= later
    ensures JudgeAt(keymap, JudgeAt(keymap, loop, earlier), later) == JudgeAt(keymap, loop, later)
  {
  }

  // ---------------------------------------------------------------------
  // The two threads
  // ---------------------------------------------------------------------

  // The clock, the reads on their way, the reads taken, the time, and the loop
  // with the time it last judged at since it took a read.
  datatype System = System(
    times: ReadTimes,
    channel: seq<Read>,
    taken: seq<Read>,
    now: nat,
    loop: LoopState,
    judgedAt: Option<nat>)

  datatype SystemStep =
    | Reads(chords: seq<KeyChord>)
    | Takes
    | Judges
    | Passes(time: nat)

  const NEW_SYSTEM := System(ReadTimes(None, None), [], [], 0, LoopState(None, []), None)

  // A take with nothing on its way, and a judging with something on its way,
  // do nothing.
  function StepSystem(keymap: Keymap, system: System, step: SystemStep): System {
    match step
    case Reads(chords) =>
      var readAt := StampFor(system.times, system.now);
      system.(times := system.times.(lastReadAt := Some(readAt)), channel := system.channel + [Read(readAt, chords)])
    case Takes =>
      if system.channel == [] then system
      else
        var read := system.channel[0];
        system.(times := system.times.(lastTakenReadAt := Some(read.readAt)), channel := system.channel[1..],
          taken := system.taken + [read], loop := TakeRead(keymap, system.loop, read), judgedAt := None)
    case Judges =>
      if JudgeTime(system.times, system.now).None? then system
      else system.(loop := JudgeAt(keymap, system.loop, system.now), judgedAt := Some(system.now))
    case Passes(time) => system.(now := system.now + time)
  }

  function RunSystem(keymap: Keymap, steps: seq<SystemStep>): System {
    if steps == [] then NEW_SYSTEM else StepSystem(keymap, RunSystem(keymap, steps[..|steps| - 1]), steps[|steps| - 1])
  }

  function LastStamp(inputs: seq<Read>): Option<nat> {
    if inputs == [] then None else Some(inputs[|inputs| - 1].readAt)
  }

  predicate AreStampsRising(inputs: seq<Read>) {
    forall i, j :: 0 <= i < j < |inputs| ==> inputs[i].readAt < inputs[j].readAt
  }

  // The clock's stamps are those of the newest read and the newest taken read,
  // and stamps rise.
  predicate IsClockTrue(system: System) {
    && AreStampsRising(system.taken + system.channel)
    && system.times == ReadTimes(LastStamp(system.taken + system.channel), LastStamp(system.taken))
  }

  // The loop stands where the reference stands after the same reads, or where
  // one judging since then takes it, before any read still on its way.
  predicate IsLoopOnTime(keymap: Keymap, system: System) {
    match system.judgedAt
    case None => system.loop == TakeReads(keymap, system.taken)
    case Some(judgedAt) =>
      && system.loop == JudgeAt(keymap, TakeReads(keymap, system.taken), judgedAt)
      && judgedAt <= system.now
      && forall read :: read in system.channel ==> judgedAt <= read.readAt
  }

  lemma ReadingKeepsClock(system: System, chords: seq<KeyChord>)
    requires IsClockTrue(system)
    ensures var readAt := StampFor(system.times, system.now);
            IsClockTrue(system.(times := system.times.(lastReadAt := Some(readAt)), channel := system.channel + [Read(readAt, chords)]))
  {
    var all, read := system.taken + system.channel, Read(StampFor(system.times, system.now), chords);
    assert system.taken + (system.channel + [read]) == all + [read];
    assert all != [] ==> all[|all| - 1].readAt < read.readAt;
    NewestRises(all, read);
  }

  lemma NewestRises(inputs: seq<Read>, newest: Read)
    requires AreStampsRising(inputs) && (inputs != [] ==> inputs[|inputs| - 1].readAt < newest.readAt)
    ensures AreStampsRising(inputs + [newest])
  {
    forall i | 0 <= i < |inputs| ensures inputs[i].readAt < newest.readAt {
      assert inputs[i].readAt <= inputs[|inputs| - 1].readAt;
    }
  }

  lemma TakingKeepsClock(system: System)
    requires IsClockTrue(system) && system.channel != []
    ensures IsClockTrue(system.(times := system.times.(lastTakenReadAt := Some(system.channel[0].readAt)),
              channel := system.channel[1..], taken := system.taken + [system.channel[0]]))
  {
    assert (system.taken + [system.channel[0]]) + system.channel[1..] == system.taken + system.channel;
  }

  // Input is on its way exactly when the clock says so.
  lemma UntakenMeansOnItsWay(system: System)
    requires IsClockTrue(system)
    ensures HasUntaken(system.times) <==> system.channel != []
  {
    var all := system.taken + system.channel;
    if system.channel != [] && system.taken != [] {
      assert all[|system.taken| - 1] == system.taken[|system.taken| - 1];
      assert all[|system.taken| - 1].readAt < all[|all| - 1].readAt;
    } else if system.channel == [] {
      assert all == system.taken;
    }
  }

  lemma TakingKeepsTime(keymap: Keymap, system: System)
    requires IsLoopOnTime(keymap, system) && system.channel != []
    ensures TakeRead(keymap, system.loop, system.channel[0]) == TakeReads(keymap, system.taken + [system.channel[0]])
  {
    var read := system.channel[0];
    assert read in system.channel;
    assert (system.taken + [read])[..|system.taken|] == system.taken;
    if system.judgedAt.Some? {
      JudgingComposes(keymap, TakeReads(keymap, system.taken), system.judgedAt.value, read.readAt);
    }
  }

  lemma JudgingKeepsTime(keymap: Keymap, system: System)
    requires IsLoopOnTime(keymap, system) && system.channel == []
    ensures JudgeAt(keymap, system.loop, system.now) == JudgeAt(keymap, TakeReads(keymap, system.taken), system.now)
  {
    if system.judgedAt.Some? {
      JudgingComposes(keymap, TakeReads(keymap, system.taken), system.judgedAt.value, system.now);
    }
  }

  lemma StepStaysOnTime(keymap: Keymap, system: System, step: SystemStep)
    requires IsClockTrue(system) && IsLoopOnTime(keymap, system)
    ensures IsClockTrue(StepSystem(keymap, system, step)) && IsLoopOnTime(keymap, StepSystem(keymap, system, step))
  {
    match step
    case Reads(chords) => ReadingKeepsClock(system, chords);
    case Takes =>
      if system.channel != [] {
        TakingKeepsClock(system);
        TakingKeepsTime(keymap, system);
      }
    case Judges =>
      UntakenMeansOnItsWay(system);
      if system.channel == [] {
        JudgingKeepsTime(keymap, system);
      }
    case Passes(time) =>
  }

  // In every interleaving: stamps rise, the clock knows what is on its way, and
  // the loop is never off the reference by more than one judging.
  lemma {:induction false} RunsStayOnTime(keymap: Keymap, steps: seq<SystemStep>)
    ensures var system := RunSystem(keymap, steps);
            && IsClockTrue(system)
            && IsLoopOnTime(keymap, system)
            && (HasUntaken(system.times) <==> system.channel != [])
  {
    if steps != [] {
      RunsStayOnTime(keymap, steps[..|steps| - 1]);
      StepStaysOnTime(keymap, RunSystem(keymap, steps[..|steps| - 1]), steps[|steps| - 1]);
    }
    UntakenMeansOnItsWay(RunSystem(keymap, steps));
  }

  lemma JudgingsGiveAlike(keymap: Keymap, loop: LoopState, now: nat, later: nat)
    ensures var (early, late) := (JudgeAt(keymap, loop, now).given, JudgeAt(keymap, loop, later).given);
            && (early <= late || late <= early)
            && |loop.given| <= |early| <= |loop.given| + 1
            && loop.given <= early
  {
  }

  // However slow the loop was, of two runs that took the same reads one has
  // given out what the other has, and at most one action more: the one that
  // both give out next.
  lemma DelayCostsAtMostOneAction(keymap: Keymap, steps: seq<SystemStep>, otherSteps: seq<SystemStep>)
    requires RunSystem(keymap, steps).taken == RunSystem(keymap, otherSteps).taken
    ensures var (given, otherGiven) := (RunSystem(keymap, steps).loop.given, RunSystem(keymap, otherSteps).loop.given);
            && (given <= otherGiven || otherGiven <= given)
            && |given| <= |otherGiven| + 1 && |otherGiven| <= |given| + 1
  {
    RunsStayOnTime(keymap, steps);
    RunsStayOnTime(keymap, otherSteps);
    var (system, other) := (RunSystem(keymap, steps), RunSystem(keymap, otherSteps));
    var reference := TakeReads(keymap, system.taken);
    hide JudgeAt, TakeReads, RunSystem;
    JudgingsGiveAlike(keymap, reference, system.judgedAt.GetOr(0), other.judgedAt.GetOr(0));
    JudgingsGiveAlike(keymap, reference, other.judgedAt.GetOr(0), system.judgedAt.GetOr(0));
  }

  // However slow the loop was, two runs that took the same reads, and judged
  // nothing since, stand alike: the same actions fired, the same chords
  // passed, in the same order, and the same sequence open.
  lemma DelayLeavesNoMark(keymap: Keymap, steps: seq<SystemStep>, otherSteps: seq<SystemStep>)
    requires RunSystem(keymap, steps).taken == RunSystem(keymap, otherSteps).taken
    requires RunSystem(keymap, steps).judgedAt == RunSystem(keymap, otherSteps).judgedAt
    ensures RunSystem(keymap, steps).loop == RunSystem(keymap, otherSteps).loop
  {
    RunsStayOnTime(keymap, steps);
    RunsStayOnTime(keymap, otherSteps);
  }

  // What a judging gave out before a read is what the read's own stamp gives
  // out: a run's outputs are those of the reference, or one action ahead that
  // the reference gives out next at any later stamp.
  lemma GivenIsNeverLost(keymap: Keymap, steps: seq<SystemStep>, next: Read)
    requires RunSystem(keymap, steps).judgedAt.GetOr(0) <= next.readAt
    ensures var system := RunSystem(keymap, steps);
            && TakeReads(keymap, system.taken).given <= system.loop.given
            && system.loop.given <= TakeReads(keymap, system.taken + [next]).given
            && TakeRead(keymap, system.loop, next) == TakeReads(keymap, system.taken + [next])
  {
    var system := RunSystem(keymap, steps);
    RunsStayOnTime(keymap, steps);
    var reference := TakeReads(keymap, system.taken);
    assert (system.taken + [next])[..|system.taken|] == system.taken;
    if system.judgedAt.Some? {
      JudgingComposes(keymap, reference, system.judgedAt.value, next.readAt);
    }
    TypingOnlyAdds(keymap, JudgeAt(keymap, system.loop, next.readAt), next.chords, next.readAt);
  }

  lemma {:induction false} TypingOnlyAdds(keymap: Keymap, loop: LoopState, chords: seq<KeyChord>, readAt: nat)
    ensures loop.given <= TypeChords(keymap, loop, chords, readAt).given
  {
    if chords != [] {
      TypingOnlyAdds(keymap, loop, chords[..|chords| - 1], readAt);
    }
  }
}
