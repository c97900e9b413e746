// Border drags against a session that answers every round in order: the
// anchor follows the border through every interleaving, and a settled drag
// puts the border under the pointer (crates/koshi-client/src/attach.rs,
// crates/koshi-client/src/mouse.rs, crates/koshi-runtime/src/runtime/mouse.rs).
module BorderDrag {
  import opened Options
  import opened Totals
  import opened MouseActions
  import opened MouseFold
  import opened MouseUplink

  // ---------------------------------------------------------------------
  // The session as the peer of the protocol
  // ---------------------------------------------------------------------

  // Where a border stands, in cells outward from its pane, and its limits.
  datatype BorderSpan = BorderSpan(position: int, least: int, greatest: int)

  type SessionBorders = map<Border, BorderSpan>
  type TopRows = PaneId -> Option<nat>

  // The cells a border travels when asked for `cellDelta`: at most
  // `MAX_I16`, and as far as its limits allow.
  function Travel(span: BorderSpan, cellDelta: int): int {
    var asked := Clamp(cellDelta, -MAX_I16, MAX_I16);
    if asked > 0 then if span.position + asked <= span.greatest then asked
                      else if span.position <= span.greatest then span.greatest - span.position else 0
    else if asked < 0 then if span.least <= span.position + asked then asked
                           else if span.least <= span.position then span.least - span.position else 0
    else 0
  }

  function Moved(span: BorderSpan, cellDelta: int): BorderSpan {
    span.(position := span.position + Travel(span, cellDelta))
  }

  function Magnitude(cellDelta: int): nat {
    if cellDelta < 0 then -cellDelta else cellDelta
  }

  function RunAction(session: SessionBorders, action: MouseAction, topRows: TopRows): (SessionBorders, seq<MouseAnswer>) {
    match action
    case Scroll(pane, _, _) => (session, [Scrolled(pane, topRows(pane))])
    case Resize(pane, side, step, count) =>
      var border := Border(pane, side);
      if border in session then
        var span := session[border];
        (session[border := Moved(span, step * count)], [Resized(border, step, Magnitude(Travel(span, step * count)))])
      else
        (session, [Resized(border, step, 0)])
    case _ => (session, [])
  }

  // A round's actions run in order, and each scroll and border move answers.
  function RunRound(session: SessionBorders, actions: seq<MouseAction>, topRows: TopRows): (SessionBorders, seq<MouseAnswer>) {
    if actions == [] then (session, [])
    else
      var (before, answers) := RunRound(session, actions[..|actions| - 1], topRows);
      var (after, more) := RunAction(before, actions[|actions| - 1], topRows);
      (after, answers + more)
  }

  // ---------------------------------------------------------------------
  // The system: one viewer, the session, and a queue each way
  // ---------------------------------------------------------------------

  // A round's answers on their way. The viewer reads the round's id only; the
  // round itself is the model's record of what the answers are about.
  datatype RoundAnswer = RoundAnswer(round: Round, answers: seq<MouseAnswer>)

  datatype System = System(viewer: Viewer, uplink: seq<Round>, session: SessionBorders, downlink: seq<RoundAnswer>)

  datatype Step =
    | DragTo(pointer: Point)
    | PressBorder(drag: ResizeDrag)
    | LetGo
    | QueueOther(actions: seq<MouseAction>)
    | Flush
    | SessionRuns(topRows: TopRows)
    | AnswerArrives(followUp: ScrollFollowUp)
    | ForgetSentMoves

  predicate HasNoBorderMove(actions: seq<MouseAction>) {
    forall action :: action in actions ==> !action.Resize?
  }

  // Only a border drag decides border moves, and the two borders of a grabbed
  // corner lie on different axes.
  ghost predicate IsLegal(step: Step) {
    match step
    case PressBorder(drag) => IsWellFormed(drag)
    case QueueOther(actions) => HasNoBorderMove(actions)
    case AnswerArrives(followUp) => forall pane, topRow :: HasNoBorderMove(followUp(pane, topRow))
    case _ => true
  }

  predicate IsWellFormed(drag: ResizeDrag) {
    drag.cornerHorizontalSide.Some? ==>
      IsHorizontalAxis(drag.borderSide) != IsHorizontalAxis(drag.cornerHorizontalSide.value)
  }

  function Next(system: System, step: Step): System {
    match step
    case DragTo(pointer) => system.(viewer := DragViewerTo(system.viewer, pointer))
    case PressBorder(drag) => system.(viewer := system.viewer.(leftButtonGesture := Some(BorderResize(drag))))
    case LetGo => system.(viewer := system.viewer.(leftButtonGesture := None))
    case QueueOther(actions) =>
      system.(viewer := system.viewer.(pendingMouseActions := QueueActions(system.viewer.pendingMouseActions, actions)))
    case Flush =>
      var (viewer, round) := FlushRound(system.viewer);
      system.(viewer := viewer, uplink := system.uplink + (if round.Some? then [round.value] else []))
    case SessionRuns(topRows) =>
      if system.uplink == [] then system
      else
        var (session, answers) := RunRound(system.session, system.uplink[0].actions, topRows);
        system.(uplink := system.uplink[1..], session := session,
          downlink := system.downlink + [RoundAnswer(system.uplink[0], answers)])
    case AnswerArrives(followUp) =>
      if system.downlink == [] then system
      else
        system.(viewer := TakeAnswers(system.viewer, system.downlink[0].round.requestId, system.downlink[0].answers, followUp),
          downlink := system.downlink[1..])
    case ForgetSentMoves => system.(viewer := system.viewer.(sentBorderMoves := []))
  }

  function Run(system: System, steps: seq<Step>): System
    decreases steps
  {
    if steps == [] then system else Run(Next(system, steps[0]), steps[1..])
  }

  lemma RunFirst(system: System, step: Step, rest: seq<Step>)
    ensures Run(system, [step] + rest) == Run(Next(system, step), rest)
  {
    assert ([step] + rest)[1..] == rest;
  }

  // ---------------------------------------------------------------------
  // One border's part of a list: sums and projections
  // ---------------------------------------------------------------------

  function Self(delta: int): int { delta }

  function Sum(deltas: seq<int>): int {
    Total(deltas, Self)
  }

  lemma SumAppend(first: seq<int>, second: seq<int>)
    ensures Sum(first + second) == Sum(first) + Sum(second)
  {
    TotalAppend(first, second, Self);
  }

  // The distances `actions` name for `border`, oldest first.
  function MovesOf(actions: seq<MouseAction>, border: Border): seq<int> {
    if actions == [] then []
    else MovesOf(actions[..|actions| - 1], border)
         + (if IsMoveOf(actions[|actions| - 1], border) then [NamedDelta(actions[|actions| - 1])] else [])
  }

  lemma {:induction false} MovesOfAppend(first: seq<MouseAction>, second: seq<MouseAction>, border: Border)
    ensures MovesOf(first + second, border) == MovesOf(first, border) + MovesOf(second, border)
    decreases |second|
  {
    if second == [] {
      assert first + second == first;
    } else {
      var init := second[..|second| - 1];
      assert (first + second)[..|first + second| - 1] == first + init;
      MovesOfAppend(first, init, border);
    }
  }

  lemma {:induction false} MovesOfNone(actions: seq<MouseAction>, border: Border)
    requires HasNoBorderMove(actions)
    ensures MovesOf(actions, border) == []
  {
    if actions != [] {
      assert actions[|actions| - 1] in actions;
      assert forall action :: action in actions[..|actions| - 1] ==> action in actions;
      MovesOfNone(actions[..|actions| - 1], border);
    }
  }

  lemma {:induction false} LastNamedIsLastMove(actions: seq<MouseAction>, border: Border)
    ensures var moves := MovesOf(actions, border);
            LastNamed(actions, border) == if moves == [] then None else Some(moves[|moves| - 1])
  {
    if actions != [] {
      LastNamedIsLastMove(actions[..|actions| - 1], border);
    }
  }

  // The signed cells `answers` report for `border`, oldest first.
  function AppliedOf(answers: seq<MouseAnswer>, border: Border): seq<int> {
    if answers == [] then []
    else AppliedOf(answers[..|answers| - 1], border) + AppliedBy(answers[|answers| - 1], border)
  }

  function AppliedBy(answer: MouseAnswer, border: Border): seq<int> {
    if answer.Resized? && answer.border == border then [answer.resizeStep * answer.appliedCellCount] else []
  }

  lemma {:induction false} AppliedOfAppend(first: seq<MouseAnswer>, second: seq<MouseAnswer>, border: Border)
    ensures AppliedOf(first + second, border) == AppliedOf(first, border) + AppliedOf(second, border)
    decreases |second|
  {
    if second == [] {
      assert first + second == first;
    } else {
      var init := second[..|second| - 1];
      assert (first + second)[..|first + second| - 1] == first + init;
      AppliedOfAppend(first, init, border);
    }
  }

  lemma AppliedOfFirst(answers: seq<MouseAnswer>, border: Border)
    requires answers != []
    ensures AppliedOf(answers, border) == AppliedBy(answers[0], border) + AppliedOf(answers[1..], border)
  {
    assert answers == [answers[0]] + answers[1..];
    AppliedOfAppend([answers[0]], answers[1..], border);
    assert [answers[0]][..0] == [];
    assert AppliedOf([answers[0]], border) == AppliedBy(answers[0], border);
  }

  // The cells reported for `border` by every answer still on its way.
  function OnTheWay(downlink: seq<RoundAnswer>, border: Border): seq<int> {
    if downlink == [] then []
    else OnTheWay(downlink[..|downlink| - 1], border) + AppliedOf(downlink[|downlink| - 1].answers, border)
  }

  lemma {:induction false} OnTheWayAppend(first: seq<RoundAnswer>, second: seq<RoundAnswer>, border: Border)
    ensures OnTheWay(first + second, border) == OnTheWay(first, border) + OnTheWay(second, border)
    decreases |second|
  {
    if second == [] {
      assert first + second == first;
    } else {
      var init := second[..|second| - 1];
      assert (first + second)[..|first + second| - 1] == first + init;
      OnTheWayAppend(first, init, border);
    }
  }

  lemma OnTheWayOne(answer: RoundAnswer, border: Border)
    ensures OnTheWay([answer], border) == AppliedOf(answer.answers, border)
  {
    assert [answer][..0] == [];
  }

  // A border that starts at `start` and travels `deltas` in turn never leaves
  // its limits.
  predicate StaysInLimits(start: int, deltas: seq<int>, least: int, greatest: int)
    decreases deltas
  {
    least <= start <= greatest && (deltas == [] || StaysInLimits(start + deltas[0], deltas[1..], least, greatest))
  }

  lemma {:induction false} StaysInLimitsAppend(start: int, first: seq<int>, second: seq<int>, least: int, greatest: int)
    ensures StaysInLimits(start, first + second, least, greatest)
       <==> StaysInLimits(start, first, least, greatest) && StaysInLimits(start + Sum(first), second, least, greatest)
    decreases |first|
  {
    if first == [] {
      assert first + second == second;
    } else {
      assert (first + second)[1..] == first[1..] + second;
      assert first == [first[0]] + first[1..];
      SumAppend([first[0]], first[1..]);
      TotalOne(first[0], Self);
      StaysInLimitsAppend(start + first[0], first[1..], second, least, greatest);
    }
  }

  // ---------------------------------------------------------------------
  // The session's side: positions and answers of one border
  // ---------------------------------------------------------------------

  predicate HasUnitSteps(actions: seq<MouseAction>) {
    forall action :: action in actions && action.Resize? ==> action.resizeStep == -1 || action.resizeStep == 1
  }

  lemma TravelBounds(span: BorderSpan, cellDelta: int)
    requires span.least <= span.position <= span.greatest
    ensures Moved(span, cellDelta).position
         == Clamp(span.position + Clamp(cellDelta, -MAX_I16, MAX_I16), span.least, span.greatest)
    ensures Travel(span, cellDelta) * cellDelta >= 0 && Magnitude(Travel(span, cellDelta)) <= Magnitude(cellDelta)
  {
    var asked := Clamp(cellDelta, -MAX_I16, MAX_I16);
    assert (cellDelta > 0 ==> Travel(span, cellDelta) >= 0) && (cellDelta < 0 ==> Travel(span, cellDelta) <= 0);
  }

  lemma ActionReportsTravel(session: SessionBorders, action: MouseAction, topRows: TopRows, border: Border)
    requires border in session && session[border].least <= session[border].position <= session[border].greatest
    requires action.Resize? ==> action.resizeStep == -1 || action.resizeStep == 1
    ensures var (after, answers) := RunAction(session, action, topRows);
            var span := session[border];
            var travelled := if IsMoveOf(action, border) then Travel(span, NamedDelta(action)) else 0;
            && border in after
            && after[border] == span.(position := span.position + travelled)
            && AppliedOf(answers, border) == (if IsMoveOf(action, border) then [travelled] else [])
            && span.least <= span.position + travelled <= span.greatest
  {
    var span := session[border];
    var (after, answers) := RunAction(session, action, topRows);
    if answers != [] {
      assert |answers| == 1 && answers[..0] == [];
      assert AppliedOf(answers, border) == AppliedBy(answers[0], border);
    }
    if IsMoveOf(action, border) {
      var travelled := Travel(span, NamedDelta(action));
      TravelBounds(span, NamedDelta(action));
      assert Border(action.paneId, action.borderSide) == border;
      assert action.resizeStep * Magnitude(travelled) == travelled by {
        if action.resizeStep == 1 {
          assert NamedDelta(action) == action.requestedCellCount && travelled >= 0;
        } else {
          assert NamedDelta(action) == -(action.requestedCellCount as int) && travelled <= 0;
        }
      }
    }
  }

  lemma StaysInLimitsOne(start: int, delta: int, least: int, greatest: int)
    requires least <= start <= greatest && least <= start + delta <= greatest
    ensures StaysInLimits(start, [delta], least, greatest)
    ensures Sum([delta]) == delta
  {
    TotalOne(delta, Self);
  }

  lemma TravelExtends(start: int, applied: seq<int>, extra: seq<int>, least: int, greatest: int)
    requires StaysInLimits(start, applied, least, greatest)
    requires |extra| <= 1
    requires least <= start + Sum(applied) <= greatest
    requires extra != [] ==> least <= start + Sum(applied) + extra[0] <= greatest
    ensures Sum(applied + extra) == Sum(applied) + (if extra == [] then 0 else extra[0])
    ensures StaysInLimits(start, applied + extra, least, greatest)
  {
    if extra == [] {
      assert applied + extra == applied;
    } else {
      assert extra == [extra[0]];
      SumAppend(applied, extra);
      StaysInLimitsOne(start + Sum(applied), extra[0], least, greatest);
      StaysInLimitsAppend(start, applied, extra, least, greatest);
    }
  }

  // One border after a round: where it stands and what is reported for it.
  ghost predicate ReportsTravel(span: BorderSpan, moveCount: nat, after: SessionBorders, applied: seq<int>, border: Border) {
    && border in after
    && after[border] == span.(position := span.position + Sum(applied))
    && span.least <= after[border].position <= span.greatest
    && StaysInLimits(span.position, applied, span.least, span.greatest)
    && |applied| == moveCount
  }

  lemma RoundExtends(span: BorderSpan, moveCount: nat, before: SessionBorders, answers: seq<MouseAnswer>,
      action: MouseAction, topRows: TopRows, border: Border)
    requires ReportsTravel(span, moveCount, before, AppliedOf(answers, border), border)
    requires action.Resize? ==> action.resizeStep == -1 || action.resizeStep == 1
    ensures var (after, more) := RunAction(before, action, topRows);
            ReportsTravel(span, moveCount + (if IsMoveOf(action, border) then 1 else 0), after, AppliedOf(answers + more, border), border)
  {
    var more := RunAction(before, action, topRows).1;
    ActionReportsTravel(before, action, topRows, border);
    AppliedOfAppend(answers, more, border);
    TravelExtends(span.position, AppliedOf(answers, border), AppliedOf(more, border), span.least, span.greatest);
  }

  // A run of a round keeps the border in its limits, reports exactly the cells
  // it travelled, and answers each of the border's moves once.
  lemma {:induction false} RoundReportsTravel(session: SessionBorders, actions: seq<MouseAction>, topRows: TopRows, border: Border)
    requires border in session && session[border].least <= session[border].position <= session[border].greatest
    requires HasUnitSteps(actions)
    ensures var (after, answers) := RunRound(session, actions, topRows);
            ReportsTravel(session[border], |MovesOf(actions, border)|, after, AppliedOf(answers, border), border)
  {
    if actions != [] {
      var init, last := actions[..|actions| - 1], actions[|actions| - 1];
      assert last in actions && forall action :: action in init ==> action in actions;
      RoundReportsTravel(session, init, topRows, border);
      var (before, answers) := RunRound(session, init, topRows);
      RoundExtends(session[border], |MovesOf(init, border)|, before, answers, last, topRows, border);
    }
  }

  function TravelAll(span: BorderSpan, deltas: seq<int>): BorderSpan {
    if deltas == [] then span else Moved(TravelAll(span, deltas[..|deltas| - 1]), deltas[|deltas| - 1])
  }

  // A border travels the moves a round names for it, and nothing else moves it.
  lemma {:induction false} RoundTravels(session: SessionBorders, actions: seq<MouseAction>, topRows: TopRows, border: Border)
    requires border in session
    ensures var after := RunRound(session, actions, topRows).0;
            border in after && after[border] == TravelAll(session[border], MovesOf(actions, border))
  {
    if actions != [] {
      var init, last := actions[..|actions| - 1], actions[|actions| - 1];
      RoundTravels(session, init, topRows, border);
      if IsMoveOf(last, border) {
        var moves := MovesOf(actions, border);
        assert moves[..|moves| - 1] == MovesOf(init, border);
        assert Border(last.paneId, last.borderSide) == border;
      } else {
        assert MovesOf(actions, border) == MovesOf(init, border);
      }
    }
  }
}
