// A run of a new link to a flush that saturates its count and falls short of
// the distance it names.
module BorderSaturation {
  import opened Options
  import opened Totals
  import opened MouseActions
  import opened MouseFold
  import opened MouseUplink
  import opened BorderDrag
  import opened BorderConvergence
  import opened BorderLanding
  import opened BorderLedger

  // A viewer holding the right border of a pane, grabbed at `column`.
  predicate IsGrabbedAt(viewer: Viewer, column: u16) {
    viewer.leftButtonGesture == Some(BorderResize(ResizeDrag(PANE, Right, None, Point(column, 0))))
  }

  lemma DragNamesOneMove(viewer: Viewer, column: u16, pointer: u16)
    requires IsGrabbedAt(viewer, column) && viewer.pendingMouseActions == [] && pointer != column
    ensures DragViewerTo(viewer, Point(pointer, 0))
         == viewer.(pendingMouseActions := [BorderMove(RIGHT_BORDER, Clamp(pointer - column, MIN_I16, MAX_I16))])
  {
    var move := BorderMove(RIGHT_BORDER, Clamp(pointer - column, MIN_I16, MAX_I16));
    assert DragResizeTo(ResizeDrag(PANE, Right, None, Point(column, 0)), Point(pointer, 0)) == [move];
    assert [] + [move] == [move];
  }

  lemma LoneMoveNets(move: MouseAction, cellDelta: int, sent: seq<SentBorderMove>, border: Border)
    requires move == BorderMove(border, cellDelta) && -MAX_U16 <= cellDelta <= MAX_U16
    requires cellDelta != SentCellDelta(sent, border)
    ensures var net := BorderMove(border, cellDelta - SentCellDelta(sent, border));
            NetRound([move], sent) == NettedRound([net], [AskedMove(border, NamedDelta(net))]) && Keep([net], IsUnspent) == [net]
  {
    hide SentCellDelta;
    var net := BorderMove(border, cellDelta - SentCellDelta(sent, border));
    assert [move][..0] == [] && [net][..0] == [] && AskedCellDelta([], border) == 0;
    assert NetMove(move, sent, []) == net;
    assert [] + [net] == [net] && [] + [AskedMove(border, NamedDelta(net))] == [AskedMove(border, NamedDelta(net))];
  }

  // A flush of one buffered move writes one: the distance it names less the
  // cells in flight, saturated.
  lemma LoneMoveFlushes(viewer: Viewer, cellDelta: int, border: Border)
    requires viewer.pendingMouseActions == [BorderMove(border, cellDelta)] && -MAX_U16 <= cellDelta <= MAX_U16
    requires |viewer.sentBorderMoves| < MAX_PENDING_MOUSE_ACTION_COUNT
    requires cellDelta != SentCellDelta(viewer.sentBorderMoves, border)
    ensures var net := BorderMove(border, cellDelta - SentCellDelta(viewer.sentBorderMoves, border));
            FlushRound(viewer)
            == (viewer.(pendingMouseActions := [], nextRequestId := viewer.nextRequestId + 1,
                  sentBorderMoves := viewer.sentBorderMoves + [SentBorderMove(viewer.nextRequestId, border, NamedDelta(net))]),
                Some(Round(viewer.nextRequestId, [net])))
  {
    hide SentCellDelta, NetRound, Keep, Coalesce, BorderMove, NamedDelta;
    var net := BorderMove(border, cellDelta - SentCellDelta(viewer.sentBorderMoves, border));
    OnlyMoveFolds(viewer.pendingMouseActions[0], border);
    LoneMoveNets(viewer.pendingMouseActions[0], cellDelta, viewer.sentBorderMoves, border);
    assert RecordAsked(viewer.nextRequestId, [AskedMove(border, NamedDelta(net))])
        == [SentBorderMove(viewer.nextRequestId, border, NamedDelta(net))];
  }

  lemma MoveAtLimitIsRefused(session: SessionBorders, cellDelta: nat, topRows: TopRows, border: Border)
    requires border in session && session[border].position == session[border].greatest && cellDelta <= MAX_U16
    ensures RunRound(session, [BorderMove(border, cellDelta)], topRows) == (session, [Resized(border, 1, 0)])
  {
    var move := BorderMove(border, cellDelta);
    assert [move][..0] == [] && RunRound(session, [], topRows) == (session, []);
    assert NamedDelta(move) == cellDelta && Travel(session[border], cellDelta) == 0;
    assert session[border := session[border]] == session;
    assert RunAction(session, move, topRows) == (session, [Resized(border, 1, 0)]);
    assert [] + [Resized(border, 1, 0)] == [Resized(border, 1, 0)];
  }

  lemma RefusalRetires(viewer: Viewer, column: u16, sent: SentBorderMove, rest: seq<SentBorderMove>, followUp: ScrollFollowUp)
    requires IsGrabbedAt(viewer, column) && viewer.pendingMouseActions == []
    requires viewer.sentBorderMoves == [sent] + rest && sent.border == RIGHT_BORDER
    ensures TakeAnswers(viewer, sent.requestId, [Resized(RIGHT_BORDER, 1, 0)], followUp) == viewer.(sentBorderMoves := rest)
  {
    var answer := Resized(RIGHT_BORDER, 1, 0);
    assert viewer.sentBorderMoves[1..] == rest && [answer][1..] == [];
    assert RebasedPile([], RIGHT_BORDER, 0) == [];
    assert TakeAnswer(viewer, sent.requestId, answer, followUp) == viewer.(sentBorderMoves := rest);
  }

  // The link of a border at its limit, column 40000, grabbed there.
  function Linked(pile: seq<MouseAction>, sent: seq<SentBorderMove>, nextRequestId: nat, uplink: seq<Round>, downlink: seq<RoundAnswer>)
    : System
  {
    var viewer := Grabbed(40000, BorderSpan(40000, 0, 40000), pile).viewer.(sentBorderMoves := sent, nextRequestId := nextRequestId);
    System(viewer, uplink, map[RIGHT_BORDER := BorderSpan(40000, 0, 40000)], downlink)
  }

  const OUTWARD := BorderMove(RIGHT_BORDER, 25535)
  const INWARD := BorderMove(RIGHT_BORDER, -58303)
  const OUTWARD_SENT := SentBorderMove(0, RIGHT_BORDER, 25535)
  const INWARD_SENT := SentBorderMove(1, RIGHT_BORDER, -58303)

  function BothInFlight(): System {
    Linked([], [OUTWARD_SENT, INWARD_SENT], 2, [Round(0, [OUTWARD]), Round(1, [INWARD])], [])
  }

  function OutwardRefused(pile: seq<MouseAction>): System {
    Linked(pile, [INWARD_SENT], 2, [Round(1, [INWARD])], [])
  }

  lemma RunThree(system: System, first: Step, second: Step, third: Step, rest: seq<Step>)
    ensures Run(system, [first, second, third] + rest) == Run(Next(Next(Next(system, first), second), third), rest)
  {
    hide Next;
    assert [first, second, third] + rest == [first] + ([second] + ([third] + rest));
    RunFirst(system, first, [second] + ([third] + rest));
    RunFirst(Next(system, first), second, [third] + rest);
    RunFirst(Next(Next(system, first), second), third, rest);
  }

  function OutwardInFlight(pile: seq<MouseAction>): System {
    Linked(pile, [OUTWARD_SENT], 1, [Round(0, [OUTWARD])], [])
  }

  lemma Out()
    ensures Next(Next(Linked([], [], 0, [], []), DragTo(Point(65535, 0))), Flush) == OutwardInFlight([])
  {
    hide FlushRound, DragViewerTo;
    var start, dragged := Linked([], [], 0, [], []), Linked([OUTWARD], [], 0, [], []);
    DragNamesOneMove(start.viewer, 40000, 65535);
    assert Next(start, DragTo(Point(65535, 0))) == dragged;
    LoneMoveFlushes(dragged.viewer, 25535, RIGHT_BORDER);
  }

  // The pointer goes out to column 65535 and in to column 0, each drag flushed:
  // the second move asks for the 32768 cells it may name and the 25535 in flight.
  lemma In()
    ensures Next(Next(OutwardInFlight([]), DragTo(Point(0, 0))), Flush) == BothInFlight()
  {
    hide FlushRound, DragViewerTo;
    var start, dragged := OutwardInFlight([]), OutwardInFlight([BorderMove(RIGHT_BORDER, MIN_I16)]);
    DragNamesOneMove(start.viewer, 40000, 0);
    assert Next(start, DragTo(Point(0, 0))) == dragged;
    TotalOne(OUTWARD_SENT, SentCells(RIGHT_BORDER));
    LoneMoveFlushes(dragged.viewer, MIN_I16, RIGHT_BORDER);
  }

  // The first round runs and is refused, the viewer takes the refusal, and the
  // pointer comes back out.
  lemma RefusedAndOutAgain(topRows: TopRows, followUp: ScrollFollowUp)
    ensures Next(Next(Next(BothInFlight(), SessionRuns(topRows)), AnswerArrives(followUp)), DragTo(Point(65535, 0)))
         == OutwardRefused([OUTWARD])
  {
    hide RunRound, TakeAnswers, DragViewerTo;
    var system := BothInFlight();
    var answered := Linked([], [OUTWARD_SENT, INWARD_SENT], 2, [Round(1, [INWARD])], [RoundAnswer(Round(0, [OUTWARD]), [Resized(RIGHT_BORDER, 1, 0)])]);
    MoveAtLimitIsRefused(system.session, 25535, topRows, RIGHT_BORDER);
    assert Next(system, SessionRuns(topRows)) == answered;
    assert [OUTWARD_SENT, INWARD_SENT] == [OUTWARD_SENT] + [INWARD_SENT];
    RefusalRetires(answered.viewer, 40000, OUTWARD_SENT, [INWARD_SENT], followUp);
    assert Next(answered, AnswerArrives(followUp)) == OutwardRefused([]);
    DragNamesOneMove(OutwardRefused([]).viewer, 40000, 65535);
  }

  function SaturatingSteps(topRows: TopRows, followUp: ScrollFollowUp): seq<Step> {
    [DragTo(Point(65535, 0)), Flush, DragTo(Point(0, 0))]
    + ([Flush, SessionRuns(topRows), AnswerArrives(followUp)] + [DragTo(Point(65535, 0))])
  }

  lemma SaturatingRun(topRows: TopRows, followUp: ScrollFollowUp)
    ensures Run(Linked([], [], 0, [], []), SaturatingSteps(topRows, followUp)) == OutwardRefused([OUTWARD])
  {
    hide Next;
    var out, inward, again := DragTo(Point(65535, 0)), DragTo(Point(0, 0)), [DragTo(Point(65535, 0))];
    var start := Linked([], [], 0, [], []);
    var dragged := Next(Next(Next(start, out), Flush), inward);
    var answered := Next(Next(Next(dragged, Flush), SessionRuns(topRows)), AnswerArrives(followUp));
    Out();
    In();
    RefusedAndOutAgain(topRows, followUp);
    RunThree(start, out, Flush, inward, [Flush, SessionRuns(topRows), AnswerArrives(followUp)] + again);
    RunThree(dragged, Flush, SessionRuns(topRows), AnswerArrives(followUp), again);
    RunFirst(answered, again[0], []);
    assert [again[0]] + [] == again;
  }

  // A new link, the grab on screen and every step one the source takes, comes
  // to a flush that names 25535 cells with 58303 inward cells in flight, asks
  // for 65535 of the 83838 between, and leaves 7232 cells in flight.
  lemma SaturatedFlushFallsShort(topRows: TopRows, followUp: ScrollFollowUp)
    ensures var start := Grabbed(40000, BorderSpan(40000, 0, 40000), []);
            var viewer := Run(start, SaturatingSteps(topRows, followUp)).viewer;
            && Invariant(start, RIGHT_BORDER) && Holds(start.viewer, RIGHT_BORDER) && IsGrabOnScreen(start, RIGHT_BORDER)
            && start.viewer.sentBorderMoves == [] && start.uplink == [] && start.downlink == []
            && LastNamed(viewer.pendingMouseActions, RIGHT_BORDER) == Some(25535)
            && SentCellDelta(viewer.sentBorderMoves, RIGHT_BORDER) == -58303
            && WrittenMoves(viewer, RIGHT_BORDER) == [MAX_U16]
            && SentCellDelta(FlushRound(viewer).0.sentBorderMoves, RIGHT_BORDER) == 7232
  {
    var start, viewer := Grabbed(40000, BorderSpan(40000, 0, 40000), []), OutwardRefused([OUTWARD]).viewer;
    GrabbedIsNew(40000, BorderSpan(40000, 0, 40000), []);
    assert OnTheWay([], RIGHT_BORDER) == [];
    assert start == Linked([], [], 0, [], []);
    SaturatingRun(topRows, followUp);
    OnlyMoveFolds(OUTWARD, RIGHT_BORDER);
    hide Run, Next, Invariant, FlushRound, Coalesce;
    LastNamedIsLastMove([OUTWARD], RIGHT_BORDER);
    TotalOne(INWARD_SENT, SentCells(RIGHT_BORDER));
    LoneMoveFlushes(viewer, 25535, RIGHT_BORDER);
    var written := BorderMove(RIGHT_BORDER, MAX_U16);
    OnlyMoveFolds(written, RIGHT_BORDER);
    var flushed := SentBorderMove(2, RIGHT_BORDER, MAX_U16);
    TotalAppend([INWARD_SENT], [flushed], SentCells(RIGHT_BORDER));
    TotalOne(flushed, SentCells(RIGHT_BORDER));
  }
}
