// The viewer's side of the mouse uplink: border drags name whole distances
// from an anchor, a flush asks only for the cells not yet asked for, and an
// answer moves the anchor, re-bases the pile and retires what it answers
// (crates/koshi-client/src/attach.rs, crates/koshi-client/src/mouse.rs).
module MouseUplink {
  import opened Options
  import opened Totals
  import opened MouseActions
  import opened MouseFold

  // One border move written and not yet answered.
  datatype SentBorderMove = SentBorderMove(requestId: nat, border: Border, requestedCellDelta: int)

  // What the session did with one scroll or one border move of a round.
  datatype MouseAnswer =
    | Scrolled(paneId: PaneId, topRowNumber: Option<nat>)
    | Resized(border: Border, resizeStep: i16, appliedCellCount: u16)

  datatype Round = Round(requestId: nat, actions: seq<MouseAction>)

  // What a viewer does with a scroll's answer: the selection change of a
  // selection drag that the scroll's timer pulls along.
  type ScrollFollowUp = (PaneId, Option<nat>) -> seq<MouseAction>

  datatype Viewer = Viewer(
    leftButtonGesture: Option<LeftButtonGesture>,
    pendingMouseActions: seq<MouseAction>,
    sentBorderMoves: seq<SentBorderMove>,
    nextRequestId: nat)

  // ---------------------------------------------------------------------
  // Geometry of a border drag
  // ---------------------------------------------------------------------

  // A point along the axis `side` moves on, growing outward from the pane.
  function Outward(side: Direction, point: Point): int {
    match side
    case Right => point.column
    case Left => -(point.column as int)
    case Down => point.row
    case Up => -(point.row as int)
  }

  function ComputeResizeCellDelta(side: Direction, start: Point, end: Point): i16 {
    Clamp(Outward(side, end) - Outward(side, start), MIN_I16, MAX_I16)
  }

  function ShiftCellCoordinate(coordinate: u16, cellDelta: int): u16 {
    Clamp(coordinate + cellDelta, 0, MAX_U16)
  }

  function AdvanceResizeAnchor(side: Direction, start: Point, resizeStep: i16, acceptedCellCount: u16): Point {
    var moved := resizeStep * acceptedCellCount;
    match side
    case Right => start.(column := ShiftCellCoordinate(start.column, moved))
    case Left => start.(column := ShiftCellCoordinate(start.column, -moved))
    case Down => start.(row := ShiftCellCoordinate(start.row, moved))
    case Up => start.(row := ShiftCellCoordinate(start.row, -moved))
  }

  function DragBorderTo(paneId: PaneId, side: Direction, anchor: Point, pointer: Point): seq<MouseAction> {
    var cellDelta := ComputeResizeCellDelta(side, anchor, pointer);
    if cellDelta == 0 then [] else [BorderMove(Border(paneId, side), cellDelta)]
  }

  // One move for each grabbed border the pointer moved along. A pointer back
  // on the anchor names no move.
  function DragResizeTo(drag: ResizeDrag, pointer: Point): seq<MouseAction> {
    DragBorderTo(drag.paneId, drag.borderSide, drag.lastAcceptedPosition, pointer)
    + (if drag.cornerHorizontalSide.Some?
       then DragBorderTo(drag.paneId, drag.cornerHorizontalSide.value, drag.lastAcceptedPosition, pointer)
       else [])
  }

  function DragViewerTo(viewer: Viewer, pointer: Point): Viewer {
    match viewer.leftButtonGesture
    case Some(BorderResize(drag)) =>
      viewer.(pendingMouseActions := QueueActions(viewer.pendingMouseActions, DragResizeTo(drag, pointer)))
    case _ => viewer
  }

  predicate Grabs(drag: ResizeDrag, border: Border) {
    drag.paneId == border.paneId
    && (drag.borderSide == border.side || drag.cornerHorizontalSide == Some(border.side))
  }

  function NoteResizeApplied(gesture: Option<LeftButtonGesture>, border: Border, resizeStep: i16, appliedCellCount: u16)
    : Option<LeftButtonGesture>
  {
    match gesture
    case Some(BorderResize(drag)) =>
      if !Grabs(drag, border) || appliedCellCount == 0 then gesture
      else Some(BorderResize(drag.(lastAcceptedPosition :=
        AdvanceResizeAnchor(border.side, drag.lastAcceptedPosition, resizeStep, appliedCellCount))))
    case _ => gesture
  }

  // ---------------------------------------------------------------------
  // Answers
  // ---------------------------------------------------------------------

  function RebasedAction(action: MouseAction, border: Border, appliedCellDelta: int): MouseAction {
    if IsMoveOf(action, border) then BorderMove(border, NamedDelta(action) - appliedCellDelta) else action
  }

  function RebasedPile(pile: seq<MouseAction>, border: Border, appliedCellDelta: int): (rebased: seq<MouseAction>)
    ensures |rebased| == |pile|
  {
    seq(|pile|, i requires 0 <= i < |pile| => RebasedAction(pile[i], border, appliedCellDelta))
  }

  function RetireSentMove(sent: seq<SentBorderMove>, requestId: nat, border: Border): seq<SentBorderMove> {
    if sent == [] then []
    else if sent[0].requestId == requestId && sent[0].border == border then sent[1..]
    else [sent[0]] + RetireSentMove(sent[1..], requestId, border)
  }

  function TakeAnswer(viewer: Viewer, requestId: nat, answer: MouseAnswer, followUp: ScrollFollowUp): Viewer {
    match answer
    case Scrolled(pane, topRow) =>
      viewer.(pendingMouseActions := QueueActions(viewer.pendingMouseActions, followUp(pane, topRow)))
    case Resized(border, step, count) =>
      viewer.(
        leftButtonGesture := NoteResizeApplied(viewer.leftButtonGesture, border, step, count),
        pendingMouseActions := RebasedPile(viewer.pendingMouseActions, border, step * count),
        sentBorderMoves := RetireSentMove(viewer.sentBorderMoves, requestId, border))
  }

  function TakeAnswers(viewer: Viewer, requestId: nat, answers: seq<MouseAnswer>, followUp: ScrollFollowUp): Viewer
    decreases answers
  {
    if answers == [] then viewer
    else TakeAnswers(TakeAnswer(viewer, requestId, answers[0], followUp), requestId, answers[1..], followUp)
  }

  // ---------------------------------------------------------------------
  // Flush
  // ---------------------------------------------------------------------

  datatype AskedMove = AskedMove(border: Border, cellDelta: int)
  datatype NettedRound = NettedRound(actions: seq<MouseAction>, asked: seq<AskedMove>)

  function SentCells(border: Border): SentBorderMove -> int {
    (sent: SentBorderMove) => if sent.border == border then sent.requestedCellDelta else 0
  }

  function AskedCells(border: Border): AskedMove -> int {
    (asked: AskedMove) => if asked.border == border then asked.cellDelta else 0
  }

  // The signed cells every written and unanswered move asks `border` for.
  function SentCellDelta(sent: seq<SentBorderMove>, border: Border): int {
    Total(sent, SentCells(border))
  }

  function AskedCellDelta(asked: seq<AskedMove>, border: Border): int {
    Total(asked, AskedCells(border))
  }

  // The move of `action` without the cells in flight and the cells this
  // round's earlier moves ask for.
  function NetMove(action: MouseAction, sent: seq<SentBorderMove>, asked: seq<AskedMove>): MouseAction
    requires action.Resize?
  {
    var border := Border(action.paneId, action.borderSide);
    BorderMove(border, NamedDelta(action) - SentCellDelta(sent, border) - AskedCellDelta(asked, border))
  }

  function NetPush(earlier: NettedRound, action: MouseAction, sent: seq<SentBorderMove>): NettedRound {
    if action.Resize? then
      var net := NetMove(action, sent, earlier.asked);
      NettedRound(earlier.actions + [net],
        if net.requestedCellCount != 0
        then earlier.asked + [AskedMove(Border(action.paneId, action.borderSide), NamedDelta(net))]
        else earlier.asked)
    else
      NettedRound(earlier.actions + [action], earlier.asked)
  }

  function NetRound(round: seq<MouseAction>, sent: seq<SentBorderMove>): (net: NettedRound)
    ensures |net.actions| == |round|
  {
    if round == [] then NettedRound([], [])
    else NetPush(NetRound(round[..|round| - 1], sent), round[|round| - 1], sent)
  }

  predicate IsUnspent(action: MouseAction) {
    action.Resize? ==> action.requestedCellCount != 0
  }

  function RecordAsked(requestId: nat, asked: seq<AskedMove>): (sent: seq<SentBorderMove>)
    ensures |sent| == |asked|
  {
    seq(|asked|, i requires 0 <= i < |asked| => SentBorderMove(requestId, asked[i].border, asked[i].cellDelta))
  }

  // The newest `MAX_PENDING_MOUSE_ACTION_COUNT` of `sent`.
  function ForgetOldest(sent: seq<SentBorderMove>): seq<SentBorderMove> {
    if |sent| > MAX_PENDING_MOUSE_ACTION_COUNT then sent[|sent| - MAX_PENDING_MOUSE_ACTION_COUNT..] else sent
  }

  // The viewer after a flush, and the round it writes, if any.
  function FlushRound(viewer: Viewer): (Viewer, Option<Round>) {
    if viewer.pendingMouseActions == [] then (viewer, None)
    else
      var net := NetRound(Coalesce(viewer.pendingMouseActions), viewer.sentBorderMoves);
      var written := Keep(net.actions, IsUnspent);
      var emptied := viewer.(pendingMouseActions := []);
      if written == [] then (emptied, None)
      else
        (emptied.(
          sentBorderMoves := ForgetOldest(viewer.sentBorderMoves + RecordAsked(viewer.nextRequestId, net.asked)),
          nextRequestId := viewer.nextRequestId + 1),
        Some(Round(viewer.nextRequestId, written)))
  }

  // ---------------------------------------------------------------------
  // The viewer as the attach loop keeps it
  // ---------------------------------------------------------------------

  class MouseLink {
    var leftButtonGesture: Option<LeftButtonGesture>
    var pendingMouseActions: seq<MouseAction>
    var sentBorderMoves: seq<SentBorderMove>
    var nextRequestId: nat
    var writtenRounds: seq<Round>

    ghost function State(): Viewer
      reads this
    {
      Viewer(leftButtonGesture, pendingMouseActions, sentBorderMoves, nextRequestId)
    }

    constructor (firstRequestId: nat)
      ensures State() == Viewer(None, [], [], firstRequestId) && writtenRounds == []
    {
      leftButtonGesture, pendingMouseActions, sentBorderMoves := None, [], [];
      nextRequestId, writtenRounds := firstRequestId, [];
    }

    method QueueMouseActions(mouseActions: seq<MouseAction>)
      modifies this`pendingMouseActions
      ensures State() == old(State()).(pendingMouseActions := QueueActions(old(pendingMouseActions), mouseActions))
    {
      pendingMouseActions := pendingMouseActions + mouseActions;
      if |pendingMouseActions| <= MAX_PENDING_MOUSE_ACTION_COUNT {
        return;
      }
      pendingMouseActions := CoalesceMouseActions(pendingMouseActions);
      pendingMouseActions := RetainUnderCap(pendingMouseActions);
    }

    method DragTo(pointer: Point)
      modifies this`pendingMouseActions
      ensures State() == DragViewerTo(old(State()), pointer)
    {
      match leftButtonGesture
      case Some(BorderResize(drag)) => QueueMouseActions(DragResizeTo(drag, pointer));
      case _ =>
    }

    method RebaseBorderMoves(border: Border, resizeStep: i16, appliedCellCount: u16)
      modifies this`pendingMouseActions
      ensures State() == old(State()).(pendingMouseActions :=
                RebasedPile(old(pendingMouseActions), border, resizeStep * appliedCellCount))
    {
      var appliedCellDelta := resizeStep * appliedCellCount;
      for i := 0 to |pendingMouseActions|
        invariant |pendingMouseActions| == |old(pendingMouseActions)|
        invariant forall j :: 0 <= j < i ==>
                    pendingMouseActions[j] == RebasedAction(old(pendingMouseActions)[j], border, appliedCellDelta)
        invariant forall j :: i <= j < |pendingMouseActions| ==> pendingMouseActions[j] == old(pendingMouseActions)[j]
      {
        var action := pendingMouseActions[i];
        if action.Resize? && action.paneId == border.paneId && action.borderSide == border.side {
          var remaining := action.resizeStep * action.requestedCellCount - appliedCellDelta;
          pendingMouseActions := pendingMouseActions[i := BorderMove(border, remaining)];
        }
      }
    }

    method ApplyMouseAnswers(requestId: nat, answers: seq<MouseAnswer>, followUp: ScrollFollowUp)
      modifies this`leftButtonGesture, this`pendingMouseActions, this`sentBorderMoves
      ensures State() == TakeAnswers(old(State()), requestId, answers, followUp)
    {
      for i := 0 to |answers|
        invariant TakeAnswers(State(), requestId, answers[i..], followUp)
               == TakeAnswers(old(State()), requestId, answers, followUp)
      {
        label before:
        assert answers[i..][1..] == answers[i + 1..];
        match answers[i]
        case Scrolled(pane, topRow) =>
          QueueMouseActions(followUp(pane, topRow));
        case Resized(border, step, count) =>
          leftButtonGesture := NoteResizeApplied(leftButtonGesture, border, step, count);
          RebaseBorderMoves(border, step, count);
          sentBorderMoves := RetireSentMove(sentBorderMoves, requestId, border);
        assert State() == TakeAnswer(old@before(State()), requestId, answers[i], followUp);
      }
    }

    // The in-place pass over a folded round: each border move keeps the cells
    // not asked for yet.
    method NetMouseRound(folded: seq<MouseAction>) returns (mouseRound: seq<MouseAction>, asked: seq<AskedMove>)
      ensures NettedRound(mouseRound, asked) == NetRound(folded, sentBorderMoves)
    {
      mouseRound, asked := folded, [];
      for i := 0 to |folded|
        invariant |mouseRound| == |folded|
        invariant NettedRound(mouseRound[..i], asked) == NetRound(folded[..i], sentBorderMoves)
        invariant mouseRound[i..] == folded[i..]
      {
        assert folded[..i + 1][..i] == folded[..i];
        var action := mouseRound[i];
        assert action == folded[i];
        ghost var before := mouseRound;
        if action.Resize? {
          var border := Border(action.paneId, action.borderSide);
          var remaining := action.resizeStep * action.requestedCellCount
            - SentCellDelta(sentBorderMoves, border)
            - AskedCellDelta(asked, border);
          var net := BorderMove(border, remaining);
          mouseRound := mouseRound[i := net];
          if net.requestedCellCount != 0 {
            asked := asked + [AskedMove(border, NamedDelta(net))];
          }
        }
        assert mouseRound[..i + 1] == before[..i] + [mouseRound[i]];
      }
      assert folded[..|folded|] == folded && mouseRound[..|mouseRound|] == mouseRound;
    }

    method FlushMouseRound()
      modifies this`pendingMouseActions, this`sentBorderMoves, this`nextRequestId, this`writtenRounds
      ensures State() == FlushRound(old(State())).0
      ensures writtenRounds == old(writtenRounds)
                + (match FlushRound(old(State())).1 case Some(round) => [round] case None => [])
    {
      if pendingMouseActions == [] {
        return;
      }
      var mouseRound := CoalesceMouseActions(pendingMouseActions);
      pendingMouseActions := [];
      var asked;
      mouseRound, asked := NetMouseRound(mouseRound);
      mouseRound := Keep(mouseRound, IsUnspent);
      if mouseRound == [] {
        return;
      }
      var requestId := nextRequestId;
      writtenRounds := writtenRounds + [Round(requestId, mouseRound)];
      nextRequestId := nextRequestId + 1;
      sentBorderMoves := sentBorderMoves + RecordAsked(requestId, asked);
      if |sentBorderMoves| > MAX_PENDING_MOUSE_ACTION_COUNT {
        sentBorderMoves := sentBorderMoves[|sentBorderMoves| - MAX_PENDING_MOUSE_ACTION_COUNT..];
      }
    }
  }
}
