// How a typed chord is resolved against one mode's keymap, and how an open key
// sequence waits, fires late, and opens again
// (crates/koshi-client/src/input.rs). Instants count nanoseconds.
module KeyResolution {
  import opened Options

  datatype KeyChord = KeyChord(code: nat)
  datatype BoundAction = BoundAction(name: string)

  // What one active input mode reads: its bindings, the actions that repeat,
  // and what it does with a chord it binds nothing to.
  datatype Keymap = Keymap(
    bindings: map<seq<KeyChord>, BoundAction>,
    continuousActions: set<BoundAction>,
    isLocked: bool,
    unlockChord: KeyChord,
    unlockAction: BoundAction,
    escapeChord: KeyChord,
    shouldPassUnbound: bool,
    chordTimeout: nat,
    whichKeyDelay: nat)

  datatype PendingKeySequence = PendingKeySequence(
    chords: seq<KeyChord>,
    ambiguityDeadline: Option<nat>,
    hintHiddenUntil: Option<nat>)

  datatype KeyOutcome = Fire(action: BoundAction) | Waiting | PassThrough(chord: KeyChord) | Discard

  predicate HasLonger(keymap: Keymap, chords: seq<KeyChord>) {
    exists bound :: bound in keymap.bindings && chords < bound
  }

  predicate IsUnlock(keymap: Keymap, chord: KeyChord) {
    keymap.isLocked && chord == keymap.unlockChord
  }

  // The prefix that a continuous action's sequence opens again.
  function Rearmed(keymap: Keymap, action: BoundAction, chords: seq<KeyChord>, hint: Option<nat>): Option<PendingKeySequence> {
    if action !in keymap.continuousActions || |chords| < 2 then None
    else Some(PendingKeySequence(chords[..|chords| - 1], None, hint))
  }

  function HintFor(keymap: Keymap, pending: Option<PendingKeySequence>, now: nat): Option<nat> {
    match pending
    case Some(open) => open.hintHiddenUntil
    case None => if keymap.whichKeyDelay == 0 then None else Some(now + keymap.whichKeyDelay)
  }

  function OpenChords(pending: Option<PendingKeySequence>): seq<KeyChord> {
    match pending case Some(open) => open.chords case None => []
  }

  // What `chord` does, and the sequence it leaves open. With a floating pane's
  // handle held, Escape drops that drag instead.
  function ResolveKey(keymap: Keymap, pending: Option<PendingKeySequence>, chord: KeyChord, now: nat, isHandleHeld: bool)
    : (KeyOutcome, Option<PendingKeySequence>)
  {
    if chord == keymap.escapeChord && isHandleHeld then (Discard, None)
    else if IsUnlock(keymap, chord) then (Fire(keymap.unlockAction), None)
    else
      var hint := HintFor(keymap, pending, now);
      var chords := OpenChords(pending) + [chord];
      if HasLonger(keymap, chords) then
        var deadline := if chords in keymap.bindings then Some(now + keymap.chordTimeout) else None;
        (Waiting, Some(PendingKeySequence(chords, deadline, hint)))
      else if chords in keymap.bindings then
        (Fire(keymap.bindings[chords]), Rearmed(keymap, keymap.bindings[chords], chords, hint))
      else if pending.Some? then
        (Waiting, if chord == keymap.escapeChord then None else pending)
      else (if keymap.shouldPassUnbound then PassThrough(chord) else Discard, None)
  }

  function IsDue(deadline: Option<nat>, now: nat): bool {
    deadline.Some? && deadline.value <= now
  }

  function ShowHint(pending: Option<PendingKeySequence>, now: nat): Option<PendingKeySequence> {
    if pending.Some? && IsDue(pending.value.hintHiddenUntil, now) then Some(pending.value.(hintHiddenUntil := None)) else pending
  }

  // What the deadlines that `now` reached fire, and the sequence they leave
  // open.
  function ExpireKeys(keymap: Keymap, pending: Option<PendingKeySequence>, now: nat): (Option<BoundAction>, Option<PendingKeySequence>) {
    if pending.None? || !IsDue(pending.value.ambiguityDeadline, now) then (None, ShowHint(pending, now))
    else if pending.value.chords !in keymap.bindings then (None, None)
    else
      var action := keymap.bindings[pending.value.chords];
      (Some(action), ShowHint(Rearmed(keymap, action, pending.value.chords, pending.value.hintHiddenUntil), now))
  }

  function Sooner(a: Option<nat>, b: Option<nat>): Option<nat> {
    if a.None? then b else if b.None? then a else if a.value <= b.value then a else b
  }

  function NextKeyWakeup(pending: Option<PendingKeySequence>, now: nat): Option<nat> {
    if pending.None? then None
    else
      match Sooner(pending.value.ambiguityDeadline, pending.value.hintHiddenUntil)
      case None => None
      case Some(deadline) => Some(if deadline <= now then 0 else deadline - now)
  }

  // ---------------------------------------------------------------------
  // The open sequence
  // ---------------------------------------------------------------------

  // An open sequence is a proper prefix of a binding, and waits with a
  // deadline only if it is bound itself.
  predicate IsOpenSound(keymap: Keymap, pending: Option<PendingKeySequence>) {
    pending.Some? ==>
      && pending.value.chords != []
      && HasLonger(keymap, pending.value.chords)
      && (pending.value.ambiguityDeadline.Some? ==> pending.value.chords in keymap.bindings)
  }

  lemma RearmedIsSound(keymap: Keymap, action: BoundAction, chords: seq<KeyChord>, hint: Option<nat>)
    requires chords in keymap.bindings
    ensures IsOpenSound(keymap, Rearmed(keymap, action, chords, hint))
  {
    if |chords| >= 2 {
      assert chords[..|chords| - 1] < chords;
    }
  }

  lemma ResolveKeepsOpenSound(keymap: Keymap, pending: Option<PendingKeySequence>, chord: KeyChord, now: nat, isHandleHeld: bool)
    requires IsOpenSound(keymap, pending)
    ensures IsOpenSound(keymap, ResolveKey(keymap, pending, chord, now, isHandleHeld).1)
  {
    var chords := OpenChords(pending) + [chord];
    if chords in keymap.bindings {
      RearmedIsSound(keymap, keymap.bindings[chords], chords, HintFor(keymap, pending, now));
    }
  }

  lemma ExpireKeepsOpenSound(keymap: Keymap, pending: Option<PendingKeySequence>, now: nat)
    requires IsOpenSound(keymap, pending)
    ensures IsOpenSound(keymap, ExpireKeys(keymap, pending, now).1)
  {
    if pending.Some? && pending.value.chords in keymap.bindings {
      RearmedIsSound(keymap, keymap.bindings[pending.value.chords], pending.value.chords, pending.value.hintHiddenUntil);
    }
  }

  // A chord is typed at the pane exactly when nothing is open, the mode passes
  // what it does not bind, and the chord begins no binding.
  lemma PassesExactlyWhatBeginsNothing(keymap: Keymap, pending: Option<PendingKeySequence>, chord: KeyChord, now: nat, isHandleHeld: bool)
    requires IsOpenSound(keymap, pending)
    ensures ResolveKey(keymap, pending, chord, now, isHandleHeld).0 == PassThrough(chord) <==>
              && pending.None? && keymap.shouldPassUnbound && !IsUnlock(keymap, chord)
              && !(chord == keymap.escapeChord && isHandleHeld)
              && forall bound :: bound in keymap.bindings ==> !([chord] <= bound)
  {
    assert [] + [chord] == [chord];
    forall bound | bound in keymap.bindings && [chord] <= bound ensures [chord] == bound || HasLonger(keymap, [chord]) {
      assert |bound| > 1 ==> [chord] < bound;
    }
  }

  // Nothing expires before the wakeup, and without a wakeup nothing ever does.
  lemma NothingExpiresBeforeWakeup(keymap: Keymap, pending: Option<PendingKeySequence>, now: nat, later: nat)
    requires now <= later && match NextKeyWakeup(pending, now) case None => true case Some(wait) => later < now + wait
    ensures ExpireKeys(keymap, pending, later) == (None, pending)
  {
  }

  // At the wakeup something does: a binding fires, the sequence closes, or its
  // hint shows.
  lemma SomethingExpiresAtWakeup(keymap: Keymap, pending: Option<PendingKeySequence>, now: nat)
    requires NextKeyWakeup(pending, now).Some?
    ensures ExpireKeys(keymap, pending, now + NextKeyWakeup(pending, now).value) != (None, pending)
  {
  }

  // ---------------------------------------------------------------------
  // The pending sequence as its methods update it
  // ---------------------------------------------------------------------

  class KeyResolver {
    var pendingKeySequence: Option<PendingKeySequence>

    constructor ()
      ensures pendingKeySequence == None
    {
      pendingKeySequence := None;
    }

    method RearmContinuousSequencePrefix(keymap: Keymap, action: BoundAction, chords: seq<KeyChord>, hint: Option<nat>)
      requires pendingKeySequence.None?
      modifies this
      ensures pendingKeySequence == Rearmed(keymap, action, chords, hint)
    {
      if action !in keymap.continuousActions || |chords| < 2 {
        return;
      }
      pendingKeySequence := Some(PendingKeySequence(chords[..|chords| - 1], None, hint));
    }

    method Resolve(keymap: Keymap, chord: KeyChord, now: nat, isHandleHeld: bool) returns (outcome: KeyOutcome)
      modifies this
      ensures (outcome, pendingKeySequence) == ResolveKey(keymap, old(pendingKeySequence), chord, now, isHandleHeld)
    {
      if chord == keymap.escapeChord && isHandleHeld {
        pendingKeySequence := None;
        return Discard;
      }
      var open := pendingKeySequence;
      pendingKeySequence := None;
      if keymap.isLocked && chord == keymap.unlockChord {
        return Fire(keymap.unlockAction);
      }
      var hint := HintFor(keymap, open, now);
      var chords := if open.Some? then open.value.chords + [chord] else [chord];
      assert chords == OpenChords(open) + [chord];
      var hasLonger, isBound := HasLonger(keymap, chords), chords in keymap.bindings;
      if isBound && !hasLonger {
        RearmContinuousSequencePrefix(keymap, keymap.bindings[chords], chords, hint);
        outcome := Fire(keymap.bindings[chords]);
      } else if hasLonger {
        pendingKeySequence := Some(PendingKeySequence(chords, if isBound then Some(now + keymap.chordTimeout) else None, hint));
        outcome := Waiting;
      } else if open.Some? {
        if chord != keymap.escapeChord {
          pendingKeySequence := open;
        }
        outcome := Waiting;
      } else {
        outcome := if keymap.shouldPassUnbound then PassThrough(chord) else Discard;
      }
    }

    method Expire(keymap: Keymap, now: nat) returns (fired: Option<BoundAction>)
      modifies this
      ensures (fired, pendingKeySequence) == ExpireKeys(keymap, old(pendingKeySequence), now)
    {
      fired := None;
      if pendingKeySequence.Some? && IsDue(pendingKeySequence.value.ambiguityDeadline, now) {
        var due := pendingKeySequence.value;
        pendingKeySequence := None;
        if due.chords in keymap.bindings {
          fired := Some(keymap.bindings[due.chords]);
          RearmContinuousSequencePrefix(keymap, keymap.bindings[due.chords], due.chords, due.hintHiddenUntil);
        }
      }
      if pendingKeySequence.Some? && IsDue(pendingKeySequence.value.hintHiddenUntil, now) {
        pendingKeySequence := Some(pendingKeySequence.value.(hintHiddenUntil := None));
      }
    }
  }
}
