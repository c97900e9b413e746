// Whole runs of typed chords and expiries in one mode and keymap: which of the
// typed chords each fired action used, and which were passed on.
module KeyRuns {
  import opened Options
  import opened KeyResolution

  datatype KeyEvent = Typed(chord: KeyChord, typedAt: nat, isHandleHeld: bool) | Expired(expiredAt: nat)

  // What a run gave out: an action, with the re-armed chords it started from
  // and the numbers of the typed chords that completed it; or one typed chord.
  datatype Output = Fired(action: BoundAction, rearmed: seq<KeyChord>, used: seq<nat>) | Passed(index: nat)

  // A run so far: the open sequence with the typed chords it is made of, every
  // chord typed, and everything given out.
  datatype Trace = Trace(
    pending: Option<PendingKeySequence>,
    rearmed: seq<KeyChord>,
    held: seq<nat>,
    typed: seq<KeyChord>,
    outputs: seq<Output>)

  const NEW_TRACE := Trace(None, [], [], [], [])

  function TraceTyped(keymap: Keymap, trace: Trace, chord: KeyChord, typedAt: nat, isHandleHeld: bool): Trace {
    var (outcome, after) := ResolveKey(keymap, trace.pending, chord, typedAt, isHandleHeld);
    var next, index := trace.(pending := after, typed := trace.typed + [chord]), |trace.typed|;
    match outcome
    case Fire(action) =>
      var fired := if IsUnlock(keymap, chord) then Fired(action, [], [index]) else Fired(action, trace.rearmed, trace.held + [index]);
      next.(rearmed := OpenChords(after), held := [], outputs := trace.outputs + [fired])
    case PassThrough(_) => next.(outputs := trace.outputs + [Passed(index)])
    case Discard => next.(rearmed := [], held := [])
    case Waiting =>
      if after.None? then next.(rearmed := [], held := [])
      else if after == trace.pending then next
      else next.(held := trace.held + [index])
  }

  function TraceExpired(keymap: Keymap, trace: Trace, now: nat): Trace {
    var (fired, after) := ExpireKeys(keymap, trace.pending, now);
    if fired.Some? then
      trace.(pending := after, rearmed := OpenChords(after), held := [],
        outputs := trace.outputs + [Fired(fired.value, trace.rearmed, trace.held)])
    else if after.None? then trace.(pending := after, rearmed := [], held := [])
    else trace.(pending := after)
  }

  function TraceEvent(keymap: Keymap, trace: Trace, event: KeyEvent): Trace {
    match event
    case Typed(chord, typedAt, isHandleHeld) => TraceTyped(keymap, trace, chord, typedAt, isHandleHeld)
    case Expired(expiredAt) => TraceExpired(keymap, trace, expiredAt)
  }

  function TraceRun(keymap: Keymap, events: seq<KeyEvent>): Trace {
    if events == [] then NEW_TRACE
    else TraceEvent(keymap, TraceRun(keymap, events[..|events| - 1]), events[|events| - 1])
  }

  // ---------------------------------------------------------------------
  // What every run keeps
  // ---------------------------------------------------------------------

  predicate AreIndices(indices: seq<nat>, length: nat) {
    forall index :: index in indices ==> index < length
  }

  function ChordsAt(typed: seq<KeyChord>, indices: seq<nat>): seq<KeyChord>
    requires AreIndices(indices, |typed|)
  {
    seq(|indices|, i requires 0 <= i < |indices| => assert indices[i] in indices; typed[indices[i]])
  }

  predicate IsRising(indices: seq<nat>) {
    forall i, j :: 0 <= i < j < |indices| ==> indices[i] < indices[j]
  }

  function UsedBy(output: Output): seq<nat> {
    match output case Fired(_, _, used) => used case Passed(index) => [index]
  }

  function UsedByAll(outputs: seq<Output>): seq<nat> {
    if outputs == [] then [] else UsedByAll(outputs[..|outputs| - 1]) + UsedBy(outputs[|outputs| - 1])
  }

  // The chords an output stands for: the re-armed ones, then those typed.
  predicate IsSequenceOf(typed: seq<KeyChord>, output: Output, chords: seq<KeyChord>) {
    output.Fired? && AreIndices(output.used, |typed|) && chords == output.rearmed + ChordsAt(typed, output.used)
  }

  // A fired action is bound to its chords, or is the unlock chord's in locked
  // mode; a passed chord begins no binding, in a mode that passes such chords.
  predicate IsOutputSound(keymap: Keymap, typed: seq<KeyChord>, output: Output) {
    && AreIndices(UsedBy(output), |typed|)
    && UsedBy(output) != []
    && match output
       case Fired(action, rearmed, used) =>
         var chords := rearmed + ChordsAt(typed, used);
         || (chords in keymap.bindings && keymap.bindings[chords] == action)
         || (rearmed == [] && |used| == 1 && IsUnlock(keymap, ChordsAt(typed, used)[0]) && action == keymap.unlockAction)
       case Passed(index) =>
         keymap.shouldPassUnbound && forall bound :: bound in keymap.bindings ==> !(ChordsAt(typed, [index]) <= bound)
  }

  // Re-armed chords come from a continuous action fired before: all of its
  // chords but the last.
  ghost predicate IsRearmedBy(keymap: Keymap, typed: seq<KeyChord>, earlier: seq<Output>, rearmed: seq<KeyChord>) {
    rearmed == [] ||
    exists i, chords: seq<KeyChord> :: 0 <= i < |earlier| && IsSequenceOf(typed, earlier[i], chords)
      && earlier[i].action in keymap.continuousActions && |chords| >= 2 && rearmed == chords[..|chords| - 1]
  }

  ghost predicate AreRearmingsSound(keymap: Keymap, typed: seq<KeyChord>, outputs: seq<Output>) {
    forall i :: 0 <= i < |outputs| && outputs[i].Fired? ==> IsRearmedBy(keymap, typed, outputs[..i], outputs[i].rearmed)
  }

  predicate AreOutputsSound(keymap: Keymap, typed: seq<KeyChord>, outputs: seq<Output>) {
    forall i :: 0 <= i < |outputs| ==> IsOutputSound(keymap, typed, outputs[i])
  }

  // The open sequence is the re-armed chords and the held ones, in that order.
  predicate IsHeldSound(keymap: Keymap, trace: Trace) {
    && IsOpenSound(keymap, trace.pending)
    && AreIndices(trace.held, |trace.typed|)
    && OpenChords(trace.pending) == trace.rearmed + ChordsAt(trace.typed, trace.held)
    && (trace.pending.None? ==> trace.rearmed == [] && trace.held == [])
    && (trace.pending.Some? && trace.pending.value.ambiguityDeadline.Some? ==> trace.held != [])
  }

  // No typed chord is used twice, or both used and passed, or given out of
  // order: all indices given out, and then those held, rise.
  predicate IsUseRising(trace: Trace) {
    IsRising(UsedByAll(trace.outputs) + trace.held) && AreIndices(UsedByAll(trace.outputs) + trace.held, |trace.typed|)
  }

  ghost predicate IsTraceSound(keymap: Keymap, trace: Trace) {
    && IsHeldSound(keymap, trace)
    && IsUseRising(trace)
    && AreOutputsSound(keymap, trace.typed, trace.outputs)
    && AreRearmingsSound(keymap, trace.typed, trace.outputs)
    && IsRearmedBy(keymap, trace.typed, trace.outputs, trace.rearmed)
  }

  // ---------------------------------------------------------------------
  // Typing one more chord keeps what was said of the others
  // ---------------------------------------------------------------------

  lemma ChordsStay(typed: seq<KeyChord>, chord: KeyChord, indices: seq<nat>)
    requires AreIndices(indices, |typed|)
    ensures AreIndices(indices, |typed + [chord]|) && ChordsAt(typed + [chord], indices) == ChordsAt(typed, indices)
  {
    forall i | 0 <= i < |indices| ensures indices[i] < |typed| && (typed + [chord])[indices[i]] == typed[indices[i]] {
      assert indices[i] in indices;
    }
  }

  lemma ChordsExtend(typed: seq<KeyChord>, chord: KeyChord, indices: seq<nat>)
    requires AreIndices(indices, |typed|)
    ensures AreIndices(indices + [|typed|], |typed + [chord]|)
    ensures ChordsAt(typed + [chord], indices + [|typed|]) == ChordsAt(typed, indices) + [chord]
  {
    ChordsStay(typed, chord, indices);
    var more := indices + [|typed|];
    assert forall index :: index in more ==> index in indices || index == |typed|;
  }

  lemma OutputsStaySound(keymap: Keymap, typed: seq<KeyChord>, chord: KeyChord, outputs: seq<Output>)
    requires AreOutputsSound(keymap, typed, outputs)
    ensures AreOutputsSound(keymap, typed + [chord], outputs)
  {
    forall i | 0 <= i < |outputs| ensures IsOutputSound(keymap, typed + [chord], outputs[i]) {
      assert IsOutputSound(keymap, typed, outputs[i]);
      ChordsStay(typed, chord, UsedBy(outputs[i]));
    }
  }

  lemma RearmingStays(keymap: Keymap, typed: seq<KeyChord>, chord: KeyChord, earlier: seq<Output>, rearmed: seq<KeyChord>)
    requires IsRearmedBy(keymap, typed, earlier, rearmed)
    ensures IsRearmedBy(keymap, typed + [chord], earlier, rearmed)
  {
    if rearmed != [] {
      var i, chords: seq<KeyChord> :| 0 <= i < |earlier| && IsSequenceOf(typed, earlier[i], chords)
        && earlier[i].action in keymap.continuousActions && |chords| >= 2 && rearmed == chords[..|chords| - 1];
      ChordsStay(typed, chord, earlier[i].used);
      assert IsSequenceOf(typed + [chord], earlier[i], chords);
    }
  }

  lemma RearmingsStay(keymap: Keymap, typed: seq<KeyChord>, chord: KeyChord, outputs: seq<Output>)
    requires AreRearmingsSound(keymap, typed, outputs)
    ensures AreRearmingsSound(keymap, typed + [chord], outputs)
  {
    forall i | 0 <= i < |outputs| && outputs[i].Fired? ensures IsRearmedBy(keymap, typed + [chord], outputs[..i], outputs[i].rearmed) {
      RearmingStays(keymap, typed, chord, outputs[..i], outputs[i].rearmed);
    }
  }

  lemma RearmingsExtend(keymap: Keymap, typed: seq<KeyChord>, outputs: seq<Output>, output: Output)
    requires AreRearmingsSound(keymap, typed, outputs)
    requires output.Fired? ==> IsRearmedBy(keymap, typed, outputs, output.rearmed)
    ensures AreRearmingsSound(keymap, typed, outputs + [output])
  {
    var all := outputs + [output];
    forall i | 0 <= i < |all| && all[i].Fired? ensures IsRearmedBy(keymap, typed, all[..i], all[i].rearmed) {
      if i < |outputs| { assert all[..i] == outputs[..i] && all[i] == outputs[i]; } else { assert all[..i] == outputs; }
    }
  }

  // A fired continuous action is what re-arms its own prefix.
  lemma FiringRearms(keymap: Keymap, typed: seq<KeyChord>, outputs: seq<Output>, fired: Output, chords: seq<KeyChord>, hint: Option<nat>)
    requires IsSequenceOf(typed, fired, chords)
    ensures IsRearmedBy(keymap, typed, outputs + [fired], OpenChords(Rearmed(keymap, fired.action, chords, hint)))
  {
    assert (outputs + [fired])[|outputs|] == fired;
  }

  // ---------------------------------------------------------------------
  // One event
  // ---------------------------------------------------------------------

  // The trace after one more chord was typed, before anything comes of it.
  lemma TypingKeepsTrace(keymap: Keymap, trace: Trace, chord: KeyChord)
    requires IsTraceSound(keymap, trace)
    ensures IsTraceSound(keymap, trace.(typed := trace.typed + [chord]))
  {
    ChordsStay(trace.typed, chord, trace.held);
    OutputsStaySound(keymap, trace.typed, chord, trace.outputs);
    RearmingsStay(keymap, trace.typed, chord, trace.outputs);
    RearmingStays(keymap, trace.typed, chord, trace.outputs, trace.rearmed);
  }

  lemma RisingPrefix(first: seq<nat>, second: seq<nat>, length: nat)
    requires IsRising(first + second) && AreIndices(first + second, length)
    ensures IsRising(first + []) && AreIndices(first + [], length)
  {
    assert first + [] == first;
    assert first == (first + second)[..|first|];
    assert forall index :: index in first ==> index in first + second;
  }

  lemma DroppingKeepsTrace(keymap: Keymap, trace: Trace)
    requires IsTraceSound(keymap, trace)
    ensures IsTraceSound(keymap, trace.(pending := None, rearmed := [], held := []))
  {
    var dropped := trace.(pending := None, rearmed := [], held := []);
    assert IsUseRising(dropped) by { RisingPrefix(UsedByAll(trace.outputs), trace.held, |trace.typed|); }
    assert IsHeldSound(keymap, dropped) by { assert [] + ChordsAt(trace.typed, []) == []; }
    assert IsRearmedBy(keymap, trace.typed, trace.outputs, []);
  }

  // Giving out the held chords, with the newest typed one after them or not.
  lemma GivingOutRises(trace: Trace, output: Output)
    requires IsUseRising(trace) && UsedByAll(trace.outputs + [output]) == UsedByAll(trace.outputs) + UsedBy(output)
    requires || UsedBy(output) == trace.held
             || (|trace.typed| > 0 && UsedBy(output) == trace.held + [|trace.typed| - 1] && |trace.typed| - 1 !in UsedByAll(trace.outputs) + trace.held)
             || (|trace.typed| > 0 && UsedBy(output) == [|trace.typed| - 1] && |trace.typed| - 1 !in UsedByAll(trace.outputs) + trace.held)
    ensures IsUseRising(trace.(held := [], outputs := trace.outputs + [output]))
  {
    hide UsedByAll;
    var before, after := UsedByAll(trace.outputs) + trace.held, UsedByAll(trace.outputs) + UsedBy(output);
    assert UsedByAll(trace.outputs + [output]) + [] == after;
    if UsedBy(output) == trace.held {
      assert after == before;
    } else if UsedBy(output) == trace.held + [|trace.typed| - 1] {
      assert after == before + [|trace.typed| - 1];
      RisingExtends(before, |trace.typed| - 1);
    } else {
      var all := UsedByAll(trace.outputs);
      assert all == before[..|all|];
      assert forall index :: index in all ==> index in before;
      RisingExtends(all, |trace.typed| - 1);
    }
  }

  lemma RisingExtends(indices: seq<nat>, newest: nat)
    requires IsRising(indices) && AreIndices(indices, newest + 1) && newest !in indices
    ensures IsRising(indices + [newest]) && AreIndices(indices + [newest], newest + 1)
  {
    assert forall i :: 0 <= i < |indices| ==> indices[i] in indices;
  }

  lemma UsedByOneMore(outputs: seq<Output>, output: Output)
    ensures UsedByAll(outputs + [output]) == UsedByAll(outputs) + UsedBy(output)
  {
    assert (outputs + [output])[..|outputs|] == outputs;
  }

  // An output that stands for `chords` is given out, and what its action
  // re-arms is open next.
  lemma FiringKeepsTrace(keymap: Keymap, trace: Trace, fired: Output, chords: seq<KeyChord>, hint: Option<nat>, after: Option<PendingKeySequence>)
    requires IsTraceSound(keymap, trace) && IsSequenceOf(trace.typed, fired, chords) && IsOutputSound(keymap, trace.typed, fired)
    requires IsRearmedBy(keymap, trace.typed, trace.outputs, fired.rearmed)
    requires || fired.used == trace.held
             || (|trace.typed| > 0 && fired.used == trace.held + [|trace.typed| - 1] && |trace.typed| - 1 !in UsedByAll(trace.outputs) + trace.held)
             || (|trace.typed| > 0 && fired.used == [|trace.typed| - 1] && |trace.typed| - 1 !in UsedByAll(trace.outputs) + trace.held)
    requires IsOpenSound(keymap, after) && OpenChords(after) == OpenChords(Rearmed(keymap, fired.action, chords, hint))
    requires after.Some? ==> after.value.ambiguityDeadline.None?
    ensures IsTraceSound(keymap, trace.(pending := after, rearmed := OpenChords(after), held := [], outputs := trace.outputs + [fired]))
  {
    hide IsRising, UsedByAll, IsOutputSound;
    UsedByOneMore(trace.outputs, fired);
    GivingOutRises(trace, fired);
    RearmingsExtend(keymap, trace.typed, trace.outputs, fired);
    FiringRearms(keymap, trace.typed, trace.outputs, fired, chords, hint);
    assert OpenChords(after) + ChordsAt(trace.typed, []) == OpenChords(after);
  }

  lemma NewestIsUnused(trace: Trace)
    requires IsUseRising(trace)
    ensures |trace.typed| !in UsedByAll(trace.outputs) + trace.held
  {
  }

  lemma UnlockKeepsTrace(keymap: Keymap, trace: Trace, chord: KeyChord)
    requires IsTraceSound(keymap, trace) && IsUnlock(keymap, chord)
    ensures var fired := Fired(keymap.unlockAction, [], [|trace.typed|]);
            IsTraceSound(keymap, trace.(pending := None, rearmed := [], held := [], typed := trace.typed + [chord], outputs := trace.outputs + [fired]))
  {
    var typed, index := trace.(typed := trace.typed + [chord]), |trace.typed|;
    var fired := Fired(keymap.unlockAction, [], [index]);
    TypingKeepsTrace(keymap, trace, chord);
    NewestIsUnused(trace);
    assert [] + ChordsAt(typed.typed, [index]) == [chord];
    assert IsOutputSound(keymap, typed.typed, fired);
    assert IsRearmedBy(keymap, typed.typed, trace.outputs, []);
    hide IsTraceSound, IsUseRising, IsHeldSound, IsOutputSound, IsRearmedBy;
    FiringKeepsTrace(keymap, typed, fired, [chord], None, None);
  }

  lemma BoundKeepsTrace(keymap: Keymap, trace: Trace, chord: KeyChord, hint: Option<nat>)
    requires IsTraceSound(keymap, trace) && OpenChords(trace.pending) + [chord] in keymap.bindings
    ensures var chords := OpenChords(trace.pending) + [chord];
            var after := Rearmed(keymap, keymap.bindings[chords], chords, hint);
            var fired := Fired(keymap.bindings[chords], trace.rearmed, trace.held + [|trace.typed|]);
            IsTraceSound(keymap, trace.(pending := after, rearmed := OpenChords(after), held := [],
              typed := trace.typed + [chord], outputs := trace.outputs + [fired]))
  {
    hide IsRising, HasLonger, AreRearmingsSound, AreOutputsSound, UsedByAll, IsRearmedBy, IsOpenSound;
    var typed, index, chords := trace.(typed := trace.typed + [chord]), |trace.typed|, OpenChords(trace.pending) + [chord];
    var fired := Fired(keymap.bindings[chords], trace.rearmed, trace.held + [index]);
    TypingKeepsTrace(keymap, trace, chord);
    NewestIsUnused(trace);
    RearmedIsSound(keymap, keymap.bindings[chords], chords, hint);
    ChordsExtend(trace.typed, chord, trace.held);
    assert chords == trace.rearmed + ChordsAt(typed.typed, fired.used);
    assert IsRearmedBy(keymap, typed.typed, trace.outputs, trace.rearmed);
    assert IsOutputSound(keymap, typed.typed, fired);
    hide IsTraceSound, IsUseRising, IsHeldSound, IsOutputSound, IsRearmedBy;
    FiringKeepsTrace(keymap, typed, fired, chords, hint, Rearmed(keymap, fired.action, chords, hint));
  }

  lemma FireKeepsTrace(keymap: Keymap, trace: Trace, chord: KeyChord, typedAt: nat, isHandleHeld: bool)
    requires IsTraceSound(keymap, trace) && ResolveKey(keymap, trace.pending, chord, typedAt, isHandleHeld).0.Fire?
    ensures IsTraceSound(keymap, TraceTyped(keymap, trace, chord, typedAt, isHandleHeld))
  {
    hide IsTraceSound, Rearmed;
    if IsUnlock(keymap, chord) {
      UnlockKeepsTrace(keymap, trace, chord);
    } else {
      BoundKeepsTrace(keymap, trace, chord, HintFor(keymap, trace.pending, typedAt));
    }
  }

  lemma OutputsExtend(keymap: Keymap, typed: seq<KeyChord>, outputs: seq<Output>, output: Output)
    requires AreOutputsSound(keymap, typed, outputs) && IsOutputSound(keymap, typed, output)
    ensures AreOutputsSound(keymap, typed, outputs + [output])
  {
  }

  lemma PassKeepsTrace(keymap: Keymap, trace: Trace, chord: KeyChord, typedAt: nat, isHandleHeld: bool)
    requires IsTraceSound(keymap, trace) && ResolveKey(keymap, trace.pending, chord, typedAt, isHandleHeld).0.PassThrough?
    ensures IsTraceSound(keymap, TraceTyped(keymap, trace, chord, typedAt, isHandleHeld))
  {
    var typed, index := trace.(typed := trace.typed + [chord]), |trace.typed|;
    assert trace.pending.None? && trace.held == [] && trace.rearmed == [];
    var passed := typed.(outputs := trace.outputs + [Passed(index)]);
    assert TraceTyped(keymap, trace, chord, typedAt, isHandleHeld) == passed;
    assert IsTraceSound(keymap, typed) by { TypingKeepsTrace(keymap, trace, chord); }
    assert IsOutputSound(keymap, typed.typed, Passed(index)) by {
      PassesExactlyWhatBeginsNothing(keymap, trace.pending, chord, typedAt, isHandleHeld);
      assert ChordsAt(typed.typed, [index]) == [chord];
    }
    NewestIsUnused(trace);
    PassingKeepsTrace(keymap, typed, index);
  }

  lemma PassingKeepsTrace(keymap: Keymap, trace: Trace, index: nat)
    requires IsTraceSound(keymap, trace) && trace.held == [] && trace.pending.None? && IsOutputSound(keymap, trace.typed, Passed(index))
    requires index + 1 == |trace.typed| && index !in UsedByAll(trace.outputs) + trace.held
    ensures IsTraceSound(keymap, trace.(outputs := trace.outputs + [Passed(index)]))
  {
    var passed := trace.(outputs := trace.outputs + [Passed(index)]);
    assert IsUseRising(passed) by {
      UsedByOneMore(trace.outputs, Passed(index));
      GivingOutRises(trace, Passed(index));
    }
    RearmingsExtend(keymap, trace.typed, trace.outputs, Passed(index));
    OutputsExtend(keymap, trace.typed, trace.outputs, Passed(index));
  }

  // A chord that continues the open sequence is held with the others.
  lemma HoldingKeepsTrace(keymap: Keymap, trace: Trace, chord: KeyChord, after: Option<PendingKeySequence>)
    requires IsTraceSound(keymap, trace) && IsOpenSound(keymap, after)
    requires after.Some? && after.value.chords == OpenChords(trace.pending) + [chord]
    ensures IsTraceSound(keymap, trace.(pending := after, typed := trace.typed + [chord], held := trace.held + [|trace.typed|]))
  {
    TypingKeepsTrace(keymap, trace, chord);
    NewestIsUnused(trace);
    ChordsExtend(trace.typed, chord, trace.held);
    var used := UsedByAll(trace.outputs) + trace.held;
    RisingExtends(used, |trace.typed|);
    assert UsedByAll(trace.outputs) + (trace.held + [|trace.typed|]) == used + [|trace.typed|];
    assert OpenChords(after) == trace.rearmed + (ChordsAt(trace.typed, trace.held) + [chord]);
  }

  lemma TypedKeepsTrace(keymap: Keymap, trace: Trace, chord: KeyChord, typedAt: nat, isHandleHeld: bool)
    requires IsTraceSound(keymap, trace)
    ensures IsTraceSound(keymap, TraceTyped(keymap, trace, chord, typedAt, isHandleHeld))
  {
    var (outcome, after) := ResolveKey(keymap, trace.pending, chord, typedAt, isHandleHeld);
    if outcome.Fire? {
      FireKeepsTrace(keymap, trace, chord, typedAt, isHandleHeld);
    } else if outcome.PassThrough? {
      PassKeepsTrace(keymap, trace, chord, typedAt, isHandleHeld);
    } else {
      TypingKeepsTrace(keymap, trace, chord);
      DroppingKeepsTrace(keymap, trace.(typed := trace.typed + [chord]));
      ResolveKeepsOpenSound(keymap, trace.pending, chord, typedAt, isHandleHeld);
      if outcome.Waiting? && after.Some? && after != trace.pending {
        HoldingKeepsTrace(keymap, trace, chord, after);
      } else if after.Some? {
        assert after == trace.pending;
        var index := |trace.typed|;
        assert TraceTyped(keymap, trace, chord, typedAt, isHandleHeld) == trace.(typed := trace.typed + [chord]);
      }
    }
  }

  lemma ExpiredKeepsTrace(keymap: Keymap, trace: Trace, now: nat)
    requires IsTraceSound(keymap, trace)
    ensures IsTraceSound(keymap, TraceExpired(keymap, trace, now))
  {
    var (fired, after) := ExpireKeys(keymap, trace.pending, now);
    ExpireKeepsOpenSound(keymap, trace.pending, now);
    if fired.Some? {
      var output := Fired(fired.value, trace.rearmed, trace.held);
      FiringKeepsTrace(keymap, trace, output, trace.pending.value.chords, trace.pending.value.hintHiddenUntil, after);
    } else if after.None? {
      DroppingKeepsTrace(keymap, trace);
    } else {
      assert OpenChords(after) == OpenChords(trace.pending);
    }
  }

  // After any list of chords and expiries: every fired action is bound to its
  // re-armed chords and the typed chords it used; a re-armed prefix is that of
  // a continuous action fired before; every passed chord begins no binding;
  // and no typed chord is given out twice or out of order.
  lemma {:induction false} RunsStaySound(keymap: Keymap, events: seq<KeyEvent>)
    ensures IsTraceSound(keymap, TraceRun(keymap, events))
  {
    if events == [] {
      assert UsedByAll([]) + [] == [];
      assert [] + ChordsAt([], []) == [];
    } else {
      var init := events[..|events| - 1];
      RunsStaySound(keymap, init);
      match events[|events| - 1]
      case Typed(chord, typedAt, isHandleHeld) => TypedKeepsTrace(keymap, TraceRun(keymap, init), chord, typedAt, isHandleHeld);
      case Expired(expiredAt) => ExpiredKeepsTrace(keymap, TraceRun(keymap, init), expiredAt);
    }
  }

  // ---------------------------------------------------------------------
  // Which chords are passed
  // ---------------------------------------------------------------------

  // The chords that were typed with nothing open, other than an Escape that
  // dropped a held handle.
  function FreeIndices(keymap: Keymap, events: seq<KeyEvent>): set<nat> {
    if events == [] then {}
    else
      var init, last := events[..|events| - 1], events[|events| - 1];
      var before := TraceRun(keymap, init);
      FreeIndices(keymap, init)
      + (if last.Typed? && before.pending.None? && !(last.chord == keymap.escapeChord && last.isHandleHeld) then {|before.typed|} else {})
  }

  predicate BeginsNothing(keymap: Keymap, chord: KeyChord) {
    keymap.shouldPassUnbound && !IsUnlock(keymap, chord) && forall bound :: bound in keymap.bindings ==> !([chord] <= bound)
  }

  // The passed chords are the free ones that begin no binding.
  ghost predicate IsPassed(keymap: Keymap, trace: Trace, free: set<nat>, index: nat) {
    Passed(index) in trace.outputs <==> index in free && index < |trace.typed| && BeginsNothing(keymap, trace.typed[index])
  }

  lemma TypedPasses(keymap: Keymap, trace: Trace, free: set<nat>, chord: KeyChord, typedAt: nat, isHandleHeld: bool, index: nat)
    requires IsTraceSound(keymap, trace) && IsPassed(keymap, trace, free, index)
    requires Passed(|trace.typed|) !in trace.outputs && |trace.typed| !in free
    ensures var isFree := trace.pending.None? && !(chord == keymap.escapeChord && isHandleHeld);
            IsPassed(keymap, TraceTyped(keymap, trace, chord, typedAt, isHandleHeld), free + (if isFree then {|trace.typed|} else {}), index)
  {
    hide AreOutputsSound, AreRearmingsSound, IsRearmedBy, IsUseRising, HasLonger;
    PassesExactlyWhatBeginsNothing(keymap, trace.pending, chord, typedAt, isHandleHeld);
    hide Rearmed, HintFor, IsOpenSound;
    var after := TraceTyped(keymap, trace, chord, typedAt, isHandleHeld);
    assert after.typed == trace.typed + [chord];
    if index < |trace.typed| {
      assert after.typed[index] == trace.typed[index];
    }
  }

  lemma NothingTypedIsGivenOutEarly(trace: Trace, index: nat)
    requires IsUseRising(trace) && Passed(index) in trace.outputs
    ensures index < |trace.typed|
  {
    PassedIsUsed(trace.outputs, index);
    assert index in UsedByAll(trace.outputs) + trace.held;
  }

  lemma {:induction false} PassedIsUsed(outputs: seq<Output>, index: nat)
    requires Passed(index) in outputs
    ensures index in UsedByAll(outputs)
  {
    if outputs[|outputs| - 1] != Passed(index) {
      PassedIsUsed(outputs[..|outputs| - 1], index);
    } else {
      assert index in UsedBy(outputs[|outputs| - 1]);
    }
  }

  lemma {:induction false} FreeAreTyped(keymap: Keymap, events: seq<KeyEvent>)
    ensures forall index :: index in FreeIndices(keymap, events) ==> index < |TraceRun(keymap, events).typed|
  {
    hide ResolveKey, ExpireKeys;
    if events != [] {
      FreeAreTyped(keymap, events[..|events| - 1]);
    }
  }

  // After any list of chords and expiries: a typed chord was passed on exactly
  // when it was typed with nothing open and begins no binding, in a mode that
  // passes such chords.
  lemma {:induction false} PassedAreTheFree(keymap: Keymap, events: seq<KeyEvent>, index: nat)
    ensures IsPassed(keymap, TraceRun(keymap, events), FreeIndices(keymap, events), index)
  {
    hide IsTraceSound, TraceTyped, IsPassed;
    if events == [] {
      NothingIsPassed(keymap, index);
    } else {
      var init, last := events[..|events| - 1], events[|events| - 1];
      var before, free := TraceRun(keymap, init), FreeIndices(keymap, init);
      PassedAreTheFree(keymap, init, index);
      RunsStaySound(keymap, init);
      FreeAreTyped(keymap, init);
      match last
      case Typed(chord, typedAt, isHandleHeld) =>
        NewestIsNotPassed(keymap, before);
        TypedPasses(keymap, before, free, chord, typedAt, isHandleHeld, index);
      case Expired(expiredAt) =>
        ExpiredPassesNothing(keymap, before, free, expiredAt, index);
    }
  }

  lemma NothingIsPassed(keymap: Keymap, index: nat)
    ensures IsPassed(keymap, NEW_TRACE, {}, index)
  {
  }

  lemma NewestIsNotPassed(keymap: Keymap, trace: Trace)
    requires IsTraceSound(keymap, trace)
    ensures Passed(|trace.typed|) !in trace.outputs
  {
    if Passed(|trace.typed|) in trace.outputs {
      NothingTypedIsGivenOutEarly(trace, |trace.typed|);
    }
  }

  lemma ExpiredPassesNothing(keymap: Keymap, trace: Trace, free: set<nat>, now: nat, index: nat)
    requires IsPassed(keymap, trace, free, index)
    ensures IsPassed(keymap, TraceExpired(keymap, trace, now), free + {}, index)
  {
    hide ExpireKeys, BeginsNothing;
    assert free + {} == free;
  }
}
