// Every buffered border move keeps the pointer position it was decided at,
// through every fold, answer and re-base.
module BorderPosition {
  import opened Totals
  import opened MouseActions
  import opened MouseFold
  import opened MouseUplink
  import opened BorderDrag
  import opened BorderConvergence
  import opened BorderLanding

  // ---------------------------------------------------------------------
  // A buffered move keeps its position through every answer
  // ---------------------------------------------------------------------

  // No place within the border's limits is more than `MAX_U16` cells from the
  // position a move was decided at.
  predicate IsWithinReach(deltas: seq<int>, known: int, span: BorderSpan) {
    forall delta :: delta in deltas ==>
      known + delta - span.least <= MAX_U16 && span.greatest - (known + delta) <= MAX_U16
  }

  function Shifted(deltas: seq<int>, applied: int): (shifted: seq<int>)
    ensures |shifted| == |deltas|
  {
    seq(|deltas|, i requires 0 <= i < |deltas| => Saturated(deltas[i] - applied))
  }

  lemma {:induction false} RebaseShifts(pile: seq<MouseAction>, moved: Border, applied: int, border: Border)
    ensures MovesOf(RebasedPile(pile, moved, applied), border)
         == if moved == border then Shifted(MovesOf(pile, border), applied) else MovesOf(pile, border)
  {
    if pile != [] {
      var init, last := pile[..|pile| - 1], pile[|pile| - 1];
      var rebased := RebasedPile(pile, moved, applied);
      RebaseShifts(init, moved, applied, border);
      assert rebased[..|rebased| - 1] == RebasedPile(init, moved, applied);
      assert rebased[|rebased| - 1] == RebasedAction(last, moved, applied);
      assert IsMoveOf(RebasedAction(last, moved, applied), border) == IsMoveOf(last, border);
      if moved == border && !IsMoveOf(last, border) {
        assert MovesOf(pile, border) == MovesOf(init, border);
      }
    }
  }

  // The position each buffered move was decided at, counted like `known`.
  function Decided(deltas: seq<int>, known: int): (decided: seq<int>)
    ensures |decided| == |deltas|
  {
    seq(|deltas|, i requires 0 <= i < |deltas| => known + deltas[i])
  }

  // A re-base leaves each move, position by position, where it was decided.
  lemma ShiftKeepsDecided(deltas: seq<int>, known: int, applied: int, span: BorderSpan)
    requires IsWithinReach(deltas, known, span)
    requires span.least <= known + applied <= span.greatest
    ensures IsWithinReach(Shifted(deltas, applied), known + applied, span)
    ensures Decided(Shifted(deltas, applied), known + applied) == Decided(deltas, known)
  {
    forall i | 0 <= i < |deltas|
      ensures Shifted(deltas, applied)[i] == deltas[i] - applied
    {
      assert deltas[i] in deltas;
    }
    forall delta | delta in Shifted(deltas, applied)
      ensures known + applied + delta - span.least <= MAX_U16 && span.greatest - (known + applied + delta) <= MAX_U16
    {
      var i :| 0 <= i < |deltas| && Shifted(deltas, applied)[i] == delta;
      assert deltas[i] in deltas;
    }
  }

  // A narrower list of moves decided a narrower list of positions.
  lemma NarrowingDecides(before: seq<int>, after: seq<int>, known: int)
    requires NarrowsTo(before, after)
    ensures NarrowsTo(Decided(before, known), Decided(after, known))
  {
    forall position | position in Decided(after, known)
      ensures position in Decided(before, known)
    {
      var i :| 0 <= i < |after| && Decided(after, known)[i] == position;
      assert after[i] in after;
      var j :| 0 <= j < |before| && before[j] == after[i];
      assert Decided(before, known)[j] == position;
    }
  }

  lemma NarrowingKeepsDecided(before: seq<int>, after: seq<int>, known: int, span: BorderSpan)
    requires NarrowsTo(before, after) && IsWithinReach(before, known, span)
    ensures KeepsDecided(before, known, after, known, span)
  {
    NarrowingDecides(before, after, known);
  }

  lemma NarrowsItself(deltas: seq<int>)
    ensures NarrowsTo(deltas, deltas)
  {
  }

  lemma QueueKeepsDecided(pile: seq<MouseAction>, actions: seq<MouseAction>, border: Border, known: int, span: BorderSpan)
    requires HasNoBorderMove(actions) && IsWithinReach(MovesOf(pile, border), known, span)
    ensures KeepsDecided(MovesOf(pile, border), known, MovesOf(QueueActions(pile, actions), border), known, span)
  {
    MovesOfNone(actions, border);
    QueueNarrows(pile, actions, border);
    assert MovesOf(pile, border) + [] == MovesOf(pile, border);
    NarrowingKeepsDecided(MovesOf(pile, border), MovesOf(QueueActions(pile, actions), border), known, span);
  }

  function OwnApplied(answer: MouseAnswer, border: Border): int {
    if answer.Resized? && answer.border == border then answer.resizeStep * answer.appliedCellCount else 0
  }

  // An answer that moves a border leaves every buffered move, position by
  // position, where it was decided.
  lemma RebaseKeepsDecided(pile: seq<MouseAction>, moved: Border, applied: int, border: Border, known: int, span: BorderSpan)
    requires IsWithinReach(MovesOf(pile, border), known, span)
    requires span.least <= known + (if moved == border then applied else 0) <= span.greatest
    ensures var moves, reached := MovesOf(RebasedPile(pile, moved, applied), border), known + (if moved == border then applied else 0);
            IsWithinReach(moves, reached, span) && Decided(moves, reached) == Decided(MovesOf(pile, border), known)
  {
    RebaseShifts(pile, moved, applied, border);
    if moved == border {
      ShiftKeepsDecided(MovesOf(pile, border), known, applied, span);
    }
  }

  lemma AnswerKeepsDecided(viewer: Viewer, requestId: nat, answer: MouseAnswer, followUp: ScrollFollowUp,
      border: Border, known: int, span: BorderSpan)
    requires IsLegal(AnswerArrives(followUp))
    requires IsWithinReach(MovesOf(viewer.pendingMouseActions, border), known, span)
    requires span.least <= known + OwnApplied(answer, border) <= span.greatest
    ensures KeepsDecided(MovesOf(viewer.pendingMouseActions, border), known,
              MovesOf(TakeAnswer(viewer, requestId, answer, followUp).pendingMouseActions, border),
              known + OwnApplied(answer, border), span)
  {
    var pile := viewer.pendingMouseActions;
    match answer
    case Scrolled(pane, topRow) =>
      assert HasNoBorderMove(followUp(pane, topRow));
      QueueKeepsDecided(pile, followUp(pane, topRow), border, known, span);
    case Resized(moved, step, count) =>
      RebaseKeepsDecided(pile, moved, step * count, border, known, span);
      NarrowsItself(Decided(MovesOf(pile, border), known));
  }

  lemma FirstApplied(answers: seq<MouseAnswer>, border: Border, known: int, least: int, greatest: int)
    requires answers != [] && StaysInLimits(known, AppliedOf(answers, border), least, greatest)
    ensures var reached := known + OwnApplied(answers[0], border);
            && StaysInLimits(reached, AppliedOf(answers[1..], border), least, greatest)
            && least <= reached <= greatest
            && reached + Sum(AppliedOf(answers[1..], border)) == known + Sum(AppliedOf(answers, border))
  {
    var applied, rest := AppliedOf(answers, border), AppliedOf(answers[1..], border);
    AppliedOfFirst(answers, border);
    if AppliedBy(answers[0], border) != [] {
      assert applied[0] == OwnApplied(answers[0], border) && applied[1..] == rest;
      TotalFirst(applied, Self);
    } else {
      assert applied == rest;
    }
  }

  // `after`, measured from `reached`, holds only positions that `before`,
  // measured from `known`, decided, and the newest of them.
  ghost predicate KeepsDecided(before: seq<int>, known: int, after: seq<int>, reached: int, span: BorderSpan) {
    IsWithinReach(after, reached, span) && NarrowsTo(Decided(before, known), Decided(after, reached))
  }

  lemma KeepsDecidedTwice(first: seq<int>, known: int, second: seq<int>, reached: int, third: seq<int>, end: int, span: BorderSpan)
    requires KeepsDecided(first, known, second, reached, span) && KeepsDecided(second, reached, third, end, span)
    ensures KeepsDecided(first, known, third, end, span)
  {
    NarrowsTwice(Decided(first, known), Decided(second, reached), Decided(third, end));
  }

  lemma {:induction false} AnswersKeepDecided(viewer: Viewer, requestId: nat, answers: seq<MouseAnswer>, followUp: ScrollFollowUp,
      border: Border, known: int, span: BorderSpan)
    requires IsLegal(AnswerArrives(followUp))
    requires IsWithinReach(MovesOf(viewer.pendingMouseActions, border), known, span)
    requires StaysInLimits(known, AppliedOf(answers, border), span.least, span.greatest)
    ensures KeepsDecided(MovesOf(viewer.pendingMouseActions, border), known,
              MovesOf(TakeAnswers(viewer, requestId, answers, followUp).pendingMouseActions, border),
              known + Sum(AppliedOf(answers, border)), span)
    decreases answers
  {
    hide TakeAnswer, MovesOf, StaysInLimits, IsWithinReach, OwnApplied, IsLegal, Decided, NarrowsTo;
    if answers == [] {
      NarrowsItself(Decided(MovesOf(viewer.pendingMouseActions, border), known));
    } else {
      var next := TakeAnswer(viewer, requestId, answers[0], followUp);
      var after := TakeAnswers(next, requestId, answers[1..], followUp);
      var first, second, third :=
        MovesOf(viewer.pendingMouseActions, border), MovesOf(next.pendingMouseActions, border), MovesOf(after.pendingMouseActions, border);
      var reached, end := known + OwnApplied(answers[0], border), known + Sum(AppliedOf(answers, border));
      assert StaysInLimits(reached, AppliedOf(answers[1..], border), span.least, span.greatest)
          && reached + Sum(AppliedOf(answers[1..], border)) == end
          && span.least <= reached <= span.greatest by {
        FirstApplied(answers, border, known, span.least, span.greatest);
      }
      assert KeepsDecided(first, known, second, reached, span) by {
        AnswerKeepsDecided(viewer, requestId, answers[0], followUp, border, known, span);
      }
      assert KeepsDecided(second, reached, third, end, span) by {
        AnswersKeepDecided(next, requestId, answers[1..], followUp, border, reached, span);
      }
      assert TakeAnswers(viewer, requestId, answers, followUp) == after;
      KeepsDecidedTwice(first, known, second, reached, third, end, span);
    }
  }

  // A held drag in good standing: its anchor follows the border, and every
  // buffered move of the border can still be re-based exactly.
  ghost predicate HeldInvariant(system: System, border: Border) {
    && Invariant(system, border)
    && Holds(system.viewer, border)
    && IsGrabOnScreen(system, border)
    && IsWithinReach(MovesOf(system.viewer.pendingMouseActions, border), KnownPosition(system, border), system.session[border])
  }

  // The position each buffered move of the border was decided at, along the
  // border's axis and counted from the pointer's own cells.
  function DecidedPointers(system: System, border: Border): seq<int>
    requires border in system.session && Holds(system.viewer, border)
  {
    Decided(MovesOf(system.viewer.pendingMouseActions, border), Anchor(system.viewer, border))
  }

  // What one more drag event decides.
  function DecidedBy(viewer: Viewer, pointer: Point, border: Border): seq<int>
    requires Holds(viewer, border)
  {
    var cellDelta := DraggedCells(viewer, pointer, border);
    if cellDelta == 0 then [] else [Anchor(viewer, border) + cellDelta]
  }

  // Positions counted from the border are the pointer's, less the grab's offset.
  lemma OffsetNarrows(before: seq<int>, known: int, after: seq<int>, reached: int, offset: int)
    requires NarrowsTo(Decided(before, known), Decided(after, reached))
    ensures NarrowsTo(Decided(before, known + offset), Decided(after, reached + offset))
  {
    assert Decided(before, known + offset) == Decided(Decided(before, known), offset);
    assert Decided(after, reached + offset) == Decided(Decided(after, reached), offset);
    NarrowingDecides(Decided(before, known), Decided(after, reached), offset);
  }

  lemma KnownInLimits(system: System, border: Border)
    requires Invariant(system, border)
    ensures system.session[border].least <= KnownPosition(system, border) <= system.session[border].greatest
  {
  }

  lemma PointerWithinReach(side: Direction, pointer: Point, anchor: int, known: int, span: BorderSpan)
    requires span.least <= known <= span.greatest
    requires IsOnScreen(side, span.least + anchor - known, span.greatest + anchor - known)
    ensures var cellDelta := Clamp(Outward(side, pointer) - anchor, MIN_I16, MAX_I16);
            known + cellDelta - span.least <= MAX_U16 && span.greatest - (known + cellDelta) <= MAX_U16
  {
  }

  lemma DragKeepsPile(pile: seq<MouseAction>, drag: ResizeDrag, pointer: Point, border: Border, known: int, span: BorderSpan)
    requires IsWellFormed(drag) && Grabs(drag, border)
    requires IsWithinReach(MovesOf(pile, border), known, span)
    requires span.least <= known <= span.greatest
    requires var anchor := Outward(border.side, drag.lastAcceptedPosition);
             IsOnScreen(border.side, span.least + anchor - known, span.greatest + anchor - known)
    ensures var cellDelta := ComputeResizeCellDelta(border.side, drag.lastAcceptedPosition, pointer);
            var own := if cellDelta == 0 then [] else [cellDelta as int];
            KeepsDecided(MovesOf(pile, border) + own, known,
              MovesOf(QueueActions(pile, DragResizeTo(drag, pointer)), border), known, span)
  {
    hide QueueActions, DragResizeTo, MovesOf;
    var cellDelta := ComputeResizeCellDelta(border.side, drag.lastAcceptedPosition, pointer);
    var own := if cellDelta == 0 then [] else [cellDelta as int];
    var actions := DragResizeTo(drag, pointer);
    assert MovesOf(actions, border) == own by { DragNames(drag, pointer, border); }
    assert NarrowsTo(MovesOf(pile, border) + own, MovesOf(QueueActions(pile, actions), border)) by {
      QueueNarrows(pile, actions, border);
    }
    PointerWithinReach(border.side, pointer, Outward(border.side, drag.lastAcceptedPosition), known, span);
    NarrowingKeepsDecided(MovesOf(pile, border) + own, MovesOf(QueueActions(pile, actions), border), known, span);
  }

  lemma DragDecides(system: System, pointer: Point, border: Border)
    requires HeldInvariant(system, border)
    ensures var next := Next(system, DragTo(pointer));
            && HeldInvariant(next, border)
            && NarrowsTo(DecidedPointers(system, border) + DecidedBy(system.viewer, pointer, border), DecidedPointers(next, border))
  {
    hide QueueActions, IsWithinReach, IsGrabOnScreen, NarrowsTo, MovesOf;
    var pile, anchor := MovesOf(system.viewer.pendingMouseActions, border), Anchor(system.viewer, border);
    var known, cellDelta := KnownPosition(system, border), DraggedCells(system.viewer, pointer, border);
    var own := if cellDelta == 0 then [] else [cellDelta as int];
    HeldStep(system, DragTo(pointer), border);
    KnownInLimits(system, border);
    DragKeepsPile(system.viewer.pendingMouseActions, system.viewer.leftButtonGesture.value.resizeDrag, pointer, border,
      known, system.session[border]);
    var moves := MovesOf(Next(system, DragTo(pointer)).viewer.pendingMouseActions, border);
    OffsetNarrows(pile + own, known, moves, known, anchor - known);
    assert Decided(pile + own, anchor) == Decided(pile, anchor) + DecidedBy(system.viewer, pointer, border);
  }

  lemma AnswerArrivalKeepsDecided(system: System, followUp: ScrollFollowUp, border: Border)
    requires HeldInvariant(system, border) && IsLegal(AnswerArrives(followUp))
    ensures var next := Next(system, AnswerArrives(followUp));
            HeldInvariant(next, border) && NarrowsTo(DecidedPointers(system, border), DecidedPointers(next, border))
  {
    hide TakeAnswer, StaysInLimits, AppliedOf, IsWithinReach, NarrowsTo, Decided;
    HeldStep(system, AnswerArrives(followUp), border);
    if system.downlink == [] {
      NarrowsItself(DecidedPointers(system, border));
    } else {
      var answer, span, known := system.downlink[0], system.session[border], KnownPosition(system, border);
      var after := TakeAnswers(system.viewer, answer.round.requestId, answer.answers, followUp);
      var reached, anchor := known + Sum(AppliedOf(answer.answers, border)), Anchor(system.viewer, border);
      assert StaysInLimits(known, AppliedOf(answer.answers, border), span.least, span.greatest)
          && KnownPlace(span, system.downlink[1..], border) == reached by {
        AnswerLeaves(span, system.downlink, border);
      }
      assert Anchor(after, border) == anchor + Sum(AppliedOf(answer.answers, border)) by {
        AnswerKeepsHold(system, followUp, border);
      }
      AnswersKeepDecided(system.viewer, answer.round.requestId, answer.answers, followUp, border, known, span);
      OffsetNarrows(MovesOf(system.viewer.pendingMouseActions, border), known, MovesOf(after.pendingMouseActions, border), reached, anchor - known);
      assert Next(system, AnswerArrives(followUp)).viewer == after;
    }
  }

  lemma RoundKeepsDecided(system: System, topRows: TopRows, border: Border)
    requires HeldInvariant(system, border)
    ensures var next := Next(system, SessionRuns(topRows));
            HeldInvariant(next, border) && DecidedPointers(next, border) == DecidedPointers(system, border)
  {
    HeldStep(system, SessionRuns(topRows), border);
    SessionKeepsInvariant(system, topRows, border);
    assert Next(system, SessionRuns(topRows)).viewer == system.viewer;
  }

  lemma QueueingKeepsDecided(system: System, actions: seq<MouseAction>, border: Border)
    requires HeldInvariant(system, border) && HasNoBorderMove(actions)
    ensures var next := Next(system, QueueOther(actions));
            HeldInvariant(next, border) && NarrowsTo(DecidedPointers(system, border), DecidedPointers(next, border))
  {
    hide QueueActions, NarrowsTo, Decided, MovesOf;
    var pile, known, anchor := system.viewer.pendingMouseActions, KnownPosition(system, border), Anchor(system.viewer, border);
    HeldStep(system, QueueOther(actions), border);
    QueueKeepsDecided(pile, actions, border, known, system.session[border]);
    OffsetNarrows(MovesOf(pile, border), known, MovesOf(QueueActions(pile, actions), border), known, anchor - known);
  }

  // Each step of a held drag leaves every buffered move at the pointer position
  // it was decided at: a drag event adds the one it decides, a flush takes all,
  // and folds drop older ones.
  lemma HeldStepKeepsDecided(system: System, step: Step, border: Border)
    requires HeldInvariant(system, border) && IsLegal(step) && KeepsHolding(step)
    ensures var next := Next(system, step);
            && HeldInvariant(next, border)
            && match step
               case DragTo(pointer) =>
                 NarrowsTo(DecidedPointers(system, border) + DecidedBy(system.viewer, pointer, border), DecidedPointers(next, border))
               case Flush => DecidedPointers(next, border) == []
               case SessionRuns(_) => DecidedPointers(next, border) == DecidedPointers(system, border)
               case ForgetSentMoves => DecidedPointers(next, border) == DecidedPointers(system, border)
               case _ => NarrowsTo(DecidedPointers(system, border), DecidedPointers(next, border))
  {
    match step
    case DragTo(pointer) => DragDecides(system, pointer, border);
    case SessionRuns(topRows) => RoundKeepsDecided(system, topRows, border);
    case AnswerArrives(followUp) => AnswerArrivalKeepsDecided(system, followUp, border);
    case QueueOther(actions) => QueueingKeepsDecided(system, actions, border);
    case _ => HeldStep(system, step, border);
  }

  // The position a drag event decides is the pointer's own, unless the pointer
  // is on the anchor or farther than `i16` counts.
  lemma DragDecidesPointer(viewer: Viewer, pointer: Point, border: Border)
    requires Holds(viewer, border)
    ensures var distance := Outward(border.side, pointer) - Anchor(viewer, border);
            DecidedBy(viewer, pointer, border) == [Outward(border.side, pointer)]
            <==> distance != 0 && MIN_I16 <= distance <= MAX_I16
  {
  }

  // The positions drag events decided since the last flush, oldest first.
  function DecisionsNext(system: System, decisions: seq<int>, step: Step, border: Border): seq<int> {
    match step
    case DragTo(pointer) =>
      if Holds(system.viewer, border) then decisions + DecidedBy(system.viewer, pointer, border) else decisions
    case Flush => []
    case _ => decisions
  }

  function DecisionsAfter(system: System, decisions: seq<int>, steps: seq<Step>, border: Border): seq<int>
    decreases steps
  {
    if steps == [] then decisions
    else DecisionsAfter(Next(system, steps[0]), DecisionsNext(system, decisions, steps[0], border), steps[1..], border)
  }

  lemma AppendNarrows(before: seq<int>, after: seq<int>, more: seq<int>)
    requires NarrowsTo(before, after)
    ensures NarrowsTo(before + more, after + more)
  {
  }

  lemma StepNarrowsDecisions(system: System, decisions: seq<int>, step: Step, border: Border)
    requires HeldInvariant(system, border) && IsLegal(step) && KeepsHolding(step)
    requires NarrowsTo(decisions, DecidedPointers(system, border))
    ensures var next := Next(system, step);
            HeldInvariant(next, border)
            && NarrowsTo(DecisionsNext(system, decisions, step, border), DecidedPointers(next, border))
  {
    hide NarrowsTo, DecidedPointers, DecidedBy, Next;
    HeldStepKeepsDecided(system, step, border);
    var before, after := DecidedPointers(system, border), DecidedPointers(Next(system, step), border);
    match step
    case DragTo(pointer) =>
      var own := DecidedBy(system.viewer, pointer, border);
      AppendNarrows(decisions, before, own);
      NarrowsTwice(decisions + own, before + own, after);
    case Flush => NarrowsItself([]);
    case QueueOther(_) => NarrowsTwice(decisions, before, after);
    case AnswerArrives(_) => NarrowsTwice(decisions, before, after);
    case _ =>
  }

  // Over every run of a held drag, whatever folds, answers and rounds come
  // between: every buffered move stands at a pointer position some drag event
  // since the last flush decided, and the newest at the newest of them.
  lemma {:induction false} DecidedStaysOverRuns(system: System, decisions: seq<int>, steps: seq<Step>, border: Border)
    requires HeldInvariant(system, border)
    requires NarrowsTo(decisions, DecidedPointers(system, border))
    requires forall step :: step in steps ==> IsLegal(step) && KeepsHolding(step)
    ensures HeldInvariant(Run(system, steps), border)
    ensures GrabOffset(Run(system, steps), border) == GrabOffset(system, border)
    ensures NarrowsTo(DecisionsAfter(system, decisions, steps, border), DecidedPointers(Run(system, steps), border))
    decreases steps
  {
    if steps != [] {
      assert forall step :: step in steps[1..] ==> step in steps;
      HeldStep(system, steps[0], border);
      StepNarrowsDecisions(system, decisions, steps[0], border);
      DecidedStaysOverRuns(Next(system, steps[0]), DecisionsNext(system, decisions, steps[0], border), steps[1..], border);
    }
  }
}
