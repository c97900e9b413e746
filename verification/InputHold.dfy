// The input a viewer holds while its session restarts, and what it sends once
// it has joined again (crates/koshi-client/src/attach.rs).
module InputHold {
  import opened Options
  import opened Totals

  const MAX_HELD_INPUT_COUNT: nat := 1024
  const MAX_FRAME_BYTE_COUNT: nat := 16 * 1024 * 1024

  datatype LockMode = Normal | Locked

  datatype HeldInput =
    | Keyboard(keys: seq<nat>)
    | FiredBinding(firedAction: string)
    | LockCommand(commandId: nat, lockMode: LockMode, firedAction: string)
    | Paste(bytes: seq<bv8>)

  // The viewer's lock mode, and the lock command it shows ahead of the session.
  datatype LockState = LockState(lockMode: LockMode, pendingCommandId: Option<nat>)

  datatype Hold = Hold(
    heldInputs: seq<HeldInput>,
    heldInputCount: nat,
    heldPasteByteCount: nat,
    lockStateBefore: Option<LockState>)

  const EMPTY_HOLD := Hold([], 0, 0, None)

  function InputCount(input: HeldInput): int {
    match input
    case Keyboard(keys) => |keys|
    case FiredBinding(_) => 1
    case LockCommand(_, _, _) => 1
    case Paste(_) => 1
  }

  function PasteByteCount(input: HeldInput): int {
    if input.Paste? then |input.bytes| else 0
  }

  function AddInput(hold: Hold, input: HeldInput): Option<Hold> {
    var (inputCount, pasteByteCount) := (hold.heldInputCount + InputCount(input), hold.heldPasteByteCount + PasteByteCount(input));
    if inputCount > MAX_HELD_INPUT_COUNT || pasteByteCount > MAX_FRAME_BYTE_COUNT then None
    else Some(hold.(heldInputs := hold.heldInputs + [input], heldInputCount := inputCount, heldPasteByteCount := pasteByteCount))
  }

  // The hold, or `None` after an overflow, and the viewer's lock state.
  datatype Rejoin = Rejoin(hold: Option<Hold>, lock: LockState)

  function HoldInput(rejoin: Rejoin, input: HeldInput, isLocalModeOn: bool): Rejoin {
    if isLocalModeOn || rejoin.hold.None? then rejoin
    else
      var hold := rejoin.hold.value;
      match AddInput(hold, input)
      case None => Rejoin(None, hold.lockStateBefore.GetOr(rejoin.lock))
      case Some(added) =>
        if input.LockCommand? then
          Rejoin(Some(added.(lockStateBefore := Some(hold.lockStateBefore.GetOr(rejoin.lock)))), LockState(input.lockMode, Some(input.commandId)))
        else Rejoin(Some(added), rejoin.lock)
  }

  function PendingAfter(inputs: seq<HeldInput>): Option<nat> {
    if inputs == [] then None
    else if inputs[|inputs| - 1].LockCommand? then Some(inputs[|inputs| - 1].commandId)
    else PendingAfter(inputs[..|inputs| - 1])
  }

  function SentBy(rejoin: Rejoin): seq<HeldInput> {
    match rejoin.hold case Some(hold) => hold.heldInputs case None => []
  }

  // The lock state once the held inputs went up the new connection.
  function LockAfterSend(rejoin: Rejoin): LockState {
    rejoin.lock.(pendingCommandId := PendingAfter(SentBy(rejoin)))
  }

  // ---------------------------------------------------------------------
  // Runs without a link
  // ---------------------------------------------------------------------

  datatype TypedInput = TypedInput(input: HeldInput, isLocalModeOn: bool)

  function RunRejoin(rejoin: Rejoin, typed: seq<TypedInput>): Rejoin {
    if typed == [] then rejoin
    else HoldInput(RunRejoin(rejoin, typed[..|typed| - 1]), typed[|typed| - 1].input, typed[|typed| - 1].isLocalModeOn)
  }

  // What was typed with no viewer-local mode on.
  function TypedForSession(typed: seq<TypedInput>): seq<HeldInput> {
    if typed == [] then []
    else
      TypedForSession(typed[..|typed| - 1])
      + (if typed[|typed| - 1].isLocalModeOn then [] else [typed[|typed| - 1].input])
  }

  predicate DoesFit(inputs: seq<HeldInput>) {
    Total(inputs, InputCount) <= MAX_HELD_INPUT_COUNT && Total(inputs, PasteByteCount) <= MAX_FRAME_BYTE_COUNT
  }

  // The lock state the last of `inputs`' lock commands set.
  function LockAfter(lock: LockState, inputs: seq<HeldInput>): LockState {
    if inputs == [] then lock
    else
      var last := inputs[|inputs| - 1];
      if last.LockCommand? then LockState(last.lockMode, Some(last.commandId)) else LockAfter(lock, inputs[..|inputs| - 1])
  }

  predicate HasLockCommand(inputs: seq<HeldInput>) {
    exists input :: input in inputs && input.LockCommand?
  }

  // The hold keeps every input, in order, with exact counts and the lock state
  // from before; or, past its bounds, nothing, and the lock state is as before.
  predicate IsAllOrNothing(lock: LockState, typed: seq<HeldInput>, rejoin: Rejoin) {
    if DoesFit(typed) then
      && rejoin.hold.Some?
      && rejoin.hold.value.heldInputs == typed
      && rejoin.hold.value.heldInputCount == Total(typed, InputCount)
      && rejoin.hold.value.heldPasteByteCount == Total(typed, PasteByteCount)
      && rejoin.hold.value.lockStateBefore == (if HasLockCommand(typed) then Some(lock) else None)
      && rejoin.lock == LockAfter(lock, typed)
    else rejoin == Rejoin(None, lock)
  }

  lemma CountsAreNotNegative(inputs: seq<HeldInput>)
    ensures Total(inputs, InputCount) >= 0 && Total(inputs, PasteByteCount) >= 0
  {
    TotalNotNegative(inputs, InputCount);
    TotalNotNegative(inputs, PasteByteCount);
  }

  lemma HoldingIsAllOrNothing(lock: LockState, typed: seq<HeldInput>, rejoin: Rejoin, input: HeldInput)
    requires IsAllOrNothing(lock, typed, rejoin)
    ensures IsAllOrNothing(lock, typed + [input], HoldInput(rejoin, input, false))
  {
    var more := typed + [input];
    assert more[..|typed|] == typed;
    assert Total(more, InputCount) == Total(typed, InputCount) + InputCount(input);
    assert Total(more, PasteByteCount) == Total(typed, PasteByteCount) + PasteByteCount(input);
    CountsAreNotNegative(typed);
    assert more[|typed|] == input;
    assert HasLockCommand(more) <==> HasLockCommand(typed) || input.LockCommand? by {
      assert forall other :: other in typed ==> other in more;
    }
    if DoesFit(typed) && !HasLockCommand(typed) { NoLockCommand(lock, typed); }
  }

  lemma {:induction false} NoLockCommand(lock: LockState, inputs: seq<HeldInput>)
    requires !HasLockCommand(inputs)
    ensures LockAfter(lock, inputs) == lock && PendingAfter(inputs) == None
  {
    if inputs != [] {
      assert inputs[|inputs| - 1] in inputs;
      assert forall input :: input in inputs[..|inputs| - 1] ==> input in inputs;
      NoLockCommand(lock, inputs[..|inputs| - 1]);
    }
  }

  lemma {:induction false} RunsAreAllOrNothing(lock: LockState, typed: seq<TypedInput>)
    ensures IsAllOrNothing(lock, TypedForSession(typed), RunRejoin(Rejoin(Some(EMPTY_HOLD), lock), typed))
  {
    if typed != [] {
      var init, last := typed[..|typed| - 1], typed[|typed| - 1];
      RunsAreAllOrNothing(lock, init);
      if last.isLocalModeOn {
        assert TypedForSession(typed) == TypedForSession(init);
      } else {
        HoldingIsAllOrNothing(lock, TypedForSession(init), RunRejoin(Rejoin(Some(EMPTY_HOLD), lock), init), last.input);
      }
    }
  }

  lemma {:induction false} PendingIsLastLock(lock: LockState, inputs: seq<HeldInput>)
    requires HasLockCommand(inputs)
    ensures LockAfter(lock, inputs).pendingCommandId == PendingAfter(inputs) != None
  {
    var last := inputs[|inputs| - 1];
    if !last.LockCommand? {
      assert inputs == inputs[..|inputs| - 1] + [last];
      PendingIsLastLock(lock, inputs[..|inputs| - 1]);
    }
  }

  // The rejoin sends everything typed for the session, in order, exactly when
  // it fits the hold, and then the viewer waits for the last lock command sent
  // in that command's mode. Otherwise it sends nothing, in the lock mode from
  // before. Either way it waits for no command of the connection that ended.
  lemma RejoinSendsAllOrNothing(lock: LockState, typed: seq<TypedInput>)
    ensures var (rejoin, inputs) := (RunRejoin(Rejoin(Some(EMPTY_HOLD), lock), typed), TypedForSession(typed));
            && (DoesFit(inputs) ==> SentBy(rejoin) == inputs)
            && (!DoesFit(inputs) ==> SentBy(rejoin) == [])
            && LockAfterSend(rejoin)
               == if DoesFit(inputs) && HasLockCommand(inputs) then LockAfter(lock, inputs) else LockState(lock.lockMode, None)
  {
    var inputs := TypedForSession(typed);
    RunsAreAllOrNothing(lock, typed);
    if HasLockCommand(inputs) { PendingIsLastLock(lock, inputs); } else { NoLockCommand(lock, inputs); }
  }

  // ---------------------------------------------------------------------
  // The hold as its methods update it
  // ---------------------------------------------------------------------

  class RestartRejoin {
    var isHolding: bool
    var heldInputs: seq<HeldInput>
    var heldInputCount: nat
    var heldPasteByteCount: nat
    var lockStateBefore: Option<LockState>
    var lockMode: LockMode
    var pendingCommandId: Option<nat>

    ghost function State(): Rejoin
      reads this
    {
      Rejoin(if isHolding then Some(Hold(heldInputs, heldInputCount, heldPasteByteCount, lockStateBefore)) else None,
        LockState(lockMode, pendingCommandId))
    }

    constructor (lock: LockState)
      ensures State() == Rejoin(Some(EMPTY_HOLD), lock)
    {
      isHolding, heldInputs, heldInputCount, heldPasteByteCount, lockStateBefore := true, [], 0, 0, None;
      lockMode, pendingCommandId := lock.lockMode, lock.pendingCommandId;
    }

    method Add(input: HeldInput) returns (isHeld: bool)
      requires isHolding
      modifies this`heldInputs, this`heldInputCount, this`heldPasteByteCount
      ensures var added := AddInput(old(State()).hold.value, input);
              isHeld == added.Some? && State().hold == if isHeld then added else old(State()).hold
    {
      var inputCount := heldInputCount + InputCount(input);
      var pasteByteCount := heldPasteByteCount + PasteByteCount(input);
      if inputCount > MAX_HELD_INPUT_COUNT || pasteByteCount > MAX_FRAME_BYTE_COUNT {
        return false;
      }
      heldInputCount, heldPasteByteCount := inputCount, pasteByteCount;
      heldInputs := heldInputs + [input];
      return true;
    }

    method HoldTyped(input: HeldInput, isLocalModeOn: bool)
      modifies this
      ensures State() == HoldInput(old(State()), input, isLocalModeOn)
    {
      if isLocalModeOn || !isHolding {
        return;
      }
      var isHeld := Add(input);
      if !isHeld {
        if lockStateBefore.Some? {
          lockMode, pendingCommandId := lockStateBefore.value.lockMode, lockStateBefore.value.pendingCommandId;
        }
        isHolding := false;
        return;
      }
      if input.LockCommand? {
        lockStateBefore := Some(lockStateBefore.GetOr(LockState(lockMode, pendingCommandId)));
        lockMode, pendingCommandId := input.lockMode, Some(input.commandId);
      }
    }

    // Sends what is held, oldest first, once the client has joined.
    method SendHeldInputs() returns (sent: seq<HeldInput>)
      modifies this`pendingCommandId
      ensures sent == SentBy(old(State()))
      ensures LockState(lockMode, pendingCommandId) == LockAfterSend(old(State()))
    {
      pendingCommandId := None;
      sent := [];
      var held := if isHolding then heldInputs else [];
      for i := 0 to |held|
        invariant sent == held[..i] && pendingCommandId == PendingAfter(held[..i])
      {
        assert held[..i + 1] == held[..i] + [held[i]];
        assert held[..i + 1][..i] == held[..i];
        sent := sent + [held[i]];
        if held[i].LockCommand? {
          pendingCommandId := Some(held[i].commandId);
        }
      }
      assert held[..|held|] == held;
    }
  }
}
