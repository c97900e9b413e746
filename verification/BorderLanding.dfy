// Where a settled drag leaves the border, and which positions the buffered,
// written and refused cells of a border add up to.
module BorderLanding {
  import opened Options
  import opened Totals
  import opened MouseActions
  import opened MouseFold
  import opened MouseUplink
  import opened BorderDrag
  import opened BorderConvergence

  // ---------------------------------------------------------------------
  // The pile keeps a border's moves
  // ---------------------------------------------------------------------

  // `after` holds no more moves than `before`, only distances `before` held,
  // and the same newest one.
  predicate NarrowsTo(before: seq<int>, after: seq<int>) {
    && |after| <= |before|
    && (forall delta :: delta in after ==> delta in before)
    && (before == [] <==> after == [])
    && (before != [] ==> after[|after| - 1] == before[|before| - 1])
  }

  lemma {:induction false} ReplaceKeepsMoves(actions: seq<MouseAction>, i: nat, merged: MouseAction, border: Border)
    requires i < |actions| && IsMoveOf(actions[i], border) == IsMoveOf(merged, border)
    ensures |MovesOf(actions[i := merged], border)| == |MovesOf(actions, border)|
    ensures forall delta :: delta in MovesOf(actions[i := merged], border) ==>
              delta in MovesOf(actions, border) || (IsMoveOf(merged, border) && delta == NamedDelta(merged))
  {
    var n := |actions|;
    var replaced := actions[i := merged];
    if i == n - 1 {
      assert replaced[..n - 1] == actions[..n - 1];
    } else {
      ReplaceKeepsMoves(actions[..n - 1], i, merged, border);
      assert replaced[..n - 1] == actions[..n - 1][i := merged];
    }
  }

  lemma PushNarrows(folded: seq<MouseAction>, next: MouseAction, border: Border)
    ensures |MovesOf(PushFolded(folded, next), border)| <= |MovesOf(folded + [next], border)|
    ensures forall delta :: delta in MovesOf(PushFolded(folded, next), border) ==> delta in MovesOf(folded + [next], border)
  {
    var n := |folded|;
    assert (folded + [next])[..n] == folded;
    if n >= 2 && IsOtherAxisBorderMove(folded[n - 1], next) && FoldMouseAction(folded[n - 2], next).Some? {
      ReplaceKeepsMoves(folded, n - 2, FoldMouseAction(folded[n - 2], next).value, border);
    } else if n >= 1 && !IsOtherAxisBorderMove(folded[n - 1], next) && FoldMouseAction(folded[n - 1], next).Some? {
      ReplaceKeepsMoves(folded, n - 1, FoldMouseAction(folded[n - 1], next).value, border);
    }
  }

  lemma {:induction false} FoldNarrowsWeakly(actions: seq<MouseAction>, border: Border)
    ensures |MovesOf(Coalesce(actions), border)| <= |MovesOf(actions, border)|
    ensures forall delta :: delta in MovesOf(Coalesce(actions), border) ==> delta in MovesOf(actions, border)
  {
    if actions != [] {
      var init, last := actions[..|actions| - 1], actions[|actions| - 1];
      FoldNarrowsWeakly(init, border);
      PushNarrows(Coalesce(init), last, border);
      assert (Coalesce(init) + [last])[..|Coalesce(init)|] == Coalesce(init);
    }
  }

  lemma FoldNarrows(actions: seq<MouseAction>, border: Border)
    ensures NarrowsTo(MovesOf(actions, border), MovesOf(Coalesce(actions), border))
  {
    FoldNarrowsWeakly(actions, border);
    FoldKeeps(actions, border);
    LastNamedIsLastMove(actions, border);
    LastNamedIsLastMove(Coalesce(actions), border);
  }

  lemma {:induction false} DroppingScrollsKeepsMoves(actions: seq<MouseAction>, excess: nat, border: Border)
    ensures MovesOf(DropOldestScrolls(actions, excess), border) == MovesOf(actions, border)
    decreases actions
  {
    if actions != [] {
      var rest := actions[1..];
      assert actions == [actions[0]] + rest;
      MovesOfAppend([actions[0]], rest, border);
      assert [actions[0]][..0] == [];
      if excess > 0 && actions[0].Scroll? {
        DroppingScrollsKeepsMoves(rest, excess - 1, border);
      } else {
        DroppingScrollsKeepsMoves(rest, excess, border);
        MovesOfAppend([actions[0]], DropOldestScrolls(rest, excess), border);
      }
    }
  }

  lemma QueueNarrows(pile: seq<MouseAction>, actions: seq<MouseAction>, border: Border)
    ensures NarrowsTo(MovesOf(pile, border) + MovesOf(actions, border), MovesOf(QueueActions(pile, actions), border))
  {
    MovesOfAppend(pile, actions, border);
    FoldNarrows(pile + actions, border);
    if |pile + actions| > MAX_PENDING_MOUSE_ACTION_COUNT {
      DroppingScrollsKeepsMoves(Coalesce(pile + actions), Excess(Coalesce(pile + actions)), border);
    }
  }

  lemma DragNames(drag: ResizeDrag, pointer: Point, border: Border)
    requires IsWellFormed(drag) && Grabs(drag, border)
    ensures var cellDelta := ComputeResizeCellDelta(border.side, drag.lastAcceptedPosition, pointer);
            MovesOf(DragResizeTo(drag, pointer), border) == if cellDelta == 0 then [] else [cellDelta]
  {
    var first := DragBorderTo(drag.paneId, drag.borderSide, drag.lastAcceptedPosition, pointer);
    var second := if drag.cornerHorizontalSide.Some?
                  then DragBorderTo(drag.paneId, drag.cornerHorizontalSide.value, drag.lastAcceptedPosition, pointer)
                  else [];
    MovesOfAppend(first, second, border);
    if first != [] { assert first[..0] == []; }
    if second != [] { assert second[..0] == []; }
  }

  // ---------------------------------------------------------------------
  // A settled drag lands under the pointer
  // ---------------------------------------------------------------------

  lemma {:induction false} NothingRemembered(sent: seq<SentBorderMove>, border: Border)
    requires forall requestId: nat :: IsAwaited(sent, [], [], requestId, border)
    ensures SentCellDelta(sent, border) == 0
  {
    if sent != [] {
      var init, last := sent[..|sent| - 1], sent[|sent| - 1];
      assert IsAwaited(sent, [], [], last.requestId, border);
      TotalNotNegative(init, SentUnder(last.requestId, border));
      forall requestId: nat
        ensures IsAwaited(init, [], [], requestId, border)
      {
        assert IsAwaited(sent, [], [], requestId, border);
      }
      NothingRemembered(init, border);
    }
  }

  // What one flush writes for a border.
  lemma FlushWrites(viewer: Viewer, border: Border)
    ensures var folded := MovesOf(Coalesce(viewer.pendingMouseActions), border);
            var written := NonZero(NetDeltas(folded, SentCellDelta(viewer.sentBorderMoves, border)));
            match FlushRound(viewer).1
            case Some(round) => MovesOf(round.actions, border) == written
            case None => written == []
  {
    if viewer.pendingMouseActions != [] {
      var folded := Coalesce(viewer.pendingMouseActions);
      var net := NetRound(folded, viewer.sentBorderMoves);
      NetProjects(folded, viewer.sentBorderMoves, border);
      UnspentProjects(net.actions, border);
    }
  }

  // The border's moves in the folded pile: the newest names the whole distance,
  // and an older one is there only when something kept it apart.
  function FoldedMoves(viewer: Viewer, border: Border): seq<int> {
    MovesOf(Coalesce(viewer.pendingMouseActions), border)
  }

  lemma {:induction false} SpentMovesTravelNothing(span: BorderSpan, deltas: seq<int>)
    ensures TravelAll(span, NonZero(deltas)) == TravelAll(span, deltas)
  {
    if deltas != [] {
      var init, last := deltas[..|deltas| - 1], deltas[|deltas| - 1];
      SpentMovesTravelNothing(span, init);
      if last != 0 {
        assert NonZero(deltas)[..|NonZero(init)|] == NonZero(init);
      } else {
        assert NonZero(deltas) == NonZero(init);
      }
    }
  }

  lemma {:induction false} TravelAllInLimits(span: BorderSpan, deltas: seq<int>)
    requires span.least <= span.position <= span.greatest
    ensures var after := TravelAll(span, deltas);
            after.least == span.least && after.greatest == span.greatest && span.least <= after.position <= span.greatest
  {
    if deltas != [] {
      TravelAllInLimits(span, deltas[..|deltas| - 1]);
      TravelBounds(TravelAll(span, deltas[..|deltas| - 1]), deltas[|deltas| - 1]);
    }
  }

  // A flush and its round take the border along the moves it asks for.
  lemma FlushTravels(viewer: Viewer, session: SessionBorders, topRows: TopRows, border: Border)
    requires border in session
    ensures var round := FlushRound(viewer).1;
            var landed := if round.Some? then RunRound(session, round.value.actions, topRows).0 else session;
            && border in landed
            && landed[border] == TravelAll(session[border], NetDeltas(FoldedMoves(viewer, border), SentCellDelta(viewer.sentBorderMoves, border)))
  {
    FlushWrites(viewer, border);
    SpentMovesTravelNothing(session[border], NetDeltas(FoldedMoves(viewer, border), SentCellDelta(viewer.sentBorderMoves, border)));
    var round := FlushRound(viewer).1;
    if round.Some? {
      RoundTravels(session, round.value.actions, topRows, border);
    }
  }

  // Where the moves leave the border when none of its cells is in flight, and
  // how many of the cells they asked it refused.
  function Reached(span: BorderSpan, deltas: seq<int>): int {
    TravelAll(span, NetDeltas(deltas, 0)).position
  }

  function Shortfall(span: BorderSpan, deltas: seq<int>): int {
    Sum(NetDeltas(deltas, 0)) - (Reached(span, deltas) - span.position)
  }

  lemma ReachedInLimits(span: BorderSpan, deltas: seq<int>)
    requires span.least <= span.position <= span.greatest
    ensures span.least <= Reached(span, deltas) <= span.greatest
  {
    TravelAllInLimits(span, NetDeltas(deltas, 0));
  }

  // The newest move makes for the place it names, less what the moves before it
  // were refused, by at most `MAX_I16` cells from where they left the border.
  lemma NewestMoveTravels(span: BorderSpan, deltas: seq<int>)
    requires deltas != [] && span.least <= span.position <= span.greatest
    ensures var earlier, named := deltas[..|deltas| - 1], deltas[|deltas| - 1];
            var left, goal := Reached(span, earlier), span.position + named - Shortfall(span, earlier);
            Reached(span, deltas) == Clamp(Clamp(goal, left - MAX_I16, left + MAX_I16), span.least, span.greatest)
  {
    var earlier, named := deltas[..|deltas| - 1], deltas[|deltas| - 1];
    var nets := NetDeltas(earlier, 0);
    var own := Saturated(named - Sum(nets));
    assert NetDeltas(deltas, 0) == nets + [own];
    assert (nets + [own])[..|nets|] == nets;
    TravelAllInLimits(span, nets);
    TravelBounds(TravelAll(span, nets), own);
  }

  lemma SettledRemembersNothing(system: System, border: Border)
    requires Invariant(system, border) && system.uplink == [] && system.downlink == []
    ensures SentCellDelta(system.viewer.sentBorderMoves, border) == 0
    ensures KnownPosition(system, border) == system.session[border].position
    ensures system.session[border].least <= system.session[border].position <= system.session[border].greatest
  {
    var sent := system.viewer.sentBorderMoves;
    forall requestId: nat
      ensures IsAwaited(sent, [], [], requestId, border)
    {
      assert IsAwaited(sent, system.uplink, system.downlink, requestId, border);
    }
    NothingRemembered(sent, border);
  }

  // The cells one more drag event asks of a border, counted from its anchor.
  function DraggedCells(viewer: Viewer, pointer: Point, border: Border): int
    requires Holds(viewer, border)
  {
    ComputeResizeCellDelta(border.side, viewer.leftButtonGesture.value.resizeDrag.lastAcceptedPosition, pointer)
  }

  // The session's borders once one drag event was flushed and its round run.
  function Landed(system: System, pointer: Point, topRows: TopRows): SessionBorders {
    Next(Next(Next(system, DragTo(pointer)), Flush), SessionRuns(topRows)).session
  }

  lemma LandedIsRun(system: System, pointer: Point, topRows: TopRows)
    requires system.uplink == []
    ensures var round := FlushRound(DragViewerTo(system.viewer, pointer)).1;
            Landed(system, pointer, topRows)
            == if round.Some? then RunRound(system.session, round.value.actions, topRows).0 else system.session
  {
    hide FlushRound, RunRound, DragViewerTo;
    var round := FlushRound(DragViewerTo(system.viewer, pointer)).1;
    var flushed := Next(Next(system, DragTo(pointer)), Flush);
    assert flushed.session == system.session;
    assert flushed.uplink == if round.Some? then [round.value] else [];
  }

  // The moves of the border that one more drag event and the pile fold to.
  function DraggedMoves(viewer: Viewer, pointer: Point, border: Border): seq<int> {
    FoldedMoves(DragViewerTo(viewer, pointer), border)
  }

  lemma NarrowsTwice(first: seq<int>, second: seq<int>, third: seq<int>)
    requires NarrowsTo(first, second) && NarrowsTo(second, third)
    ensures NarrowsTo(first, third)
  {
  }

  lemma DragNarrows(viewer: Viewer, pointer: Point, border: Border)
    requires Holds(viewer, border)
    ensures var cellDelta := DraggedCells(viewer, pointer, border);
            NarrowsTo(MovesOf(viewer.pendingMouseActions, border) + (if cellDelta == 0 then [] else [cellDelta]),
              DraggedMoves(viewer, pointer, border))
  {
    hide QueueActions, DragResizeTo, Coalesce, NarrowsTo, ComputeResizeCellDelta, MovesOf;
    var drag := viewer.leftButtonGesture.value.resizeDrag;
    var actions := DragResizeTo(drag, pointer);
    var queued := QueueActions(viewer.pendingMouseActions, actions);
    DragNames(drag, pointer, border);
    QueueNarrows(viewer.pendingMouseActions, actions, border);
    FoldNarrows(queued, border);
    NarrowsTwice(MovesOf(viewer.pendingMouseActions, border) + MovesOf(actions, border), MovesOf(queued, border), MovesOf(Coalesce(queued), border));
  }

  // What they are: the newest is the drag event's own, or, for a pointer back
  // on the anchor, the one already buffered; and with none buffered it is alone.
  lemma DragFolds(viewer: Viewer, pointer: Point, border: Border)
    requires Holds(viewer, border)
    ensures var moves, cellDelta := DraggedMoves(viewer, pointer, border), DraggedCells(viewer, pointer, border);
            var buffered := LastNamed(viewer.pendingMouseActions, border);
            && (moves == [] <==> cellDelta == 0 && buffered == None)
            && (moves != [] ==> moves[|moves| - 1] == if cellDelta != 0 then cellDelta else buffered.GetOr(0))
            && (buffered == None ==> |moves| <= 1)
  {
    hide DraggedMoves, DraggedCells, LastNamed, MovesOf;
    DragNarrows(viewer, pointer, border);
    LastNamedIsLastMove(viewer.pendingMouseActions, border);
  }

  // Where the pointer holds the border, held to its limits.
  function Landing(system: System, pointer: Point, border: Border): int
    requires border in system.session && Holds(system.viewer, border)
  {
    var span := system.session[border];
    Clamp(Outward(border.side, pointer) - GrabOffset(system, border), span.least, span.greatest)
  }

  // Counted from the anchor, which stands off the border by the grab's offset.
  lemma LandingFromAnchor(system: System, pointer: Point, border: Border)
    requires Invariant(system, border) && Holds(system.viewer, border)
    requires system.uplink == [] && system.downlink == []
    ensures border in system.session
    ensures var span, cells := system.session[border], Outward(border.side, pointer) - Anchor(system.viewer, border);
            && Landing(system, pointer, border) == Clamp(span.position + cells, span.least, span.greatest)
            && DraggedCells(system.viewer, pointer, border) == Clamp(cells, MIN_I16, MAX_I16)
            && span.least <= span.position <= span.greatest
  {
    SettledRemembersNothing(system, border);
  }

  lemma AloneTravels(span: BorderSpan, delta: int)
    ensures Reached(span, []) == span.position && Shortfall(span, []) == 0
    ensures span.least <= span.position <= span.greatest ==> Reached(span, [delta]) == span.position + Travel(span, delta)
  {
    assert [delta][..0] == [];
    assert NetDeltas([delta], 0) == [] + [Saturated(delta)];
    assert ([] + [Saturated(delta)])[..0] == [];
  }

  lemma LandedTravels(system: System, pointer: Point, topRows: TopRows, border: Border)
    requires Invariant(system, border) && Holds(system.viewer, border)
    requires system.uplink == [] && system.downlink == []
    ensures var landed := Landed(system, pointer, topRows);
            border in landed && landed[border].position == Reached(system.session[border], DraggedMoves(system.viewer, pointer, border))
  {
    hide Landed, RunRound, FlushRound;
    var dragged := DragViewerTo(system.viewer, pointer);
    assert dragged.sentBorderMoves == system.viewer.sentBorderMoves;
    SettledRemembersNothing(system, border);
    LandedIsRun(system, pointer, topRows);
    FlushTravels(dragged, system.session, topRows, border);
  }

  // A move lands on `landing` when that is in reach of where the border was
  // left, and the goal, held to the limits, is `landing` too, or lies past it
  // at the end of the reach.
  predicate DoesLand(span: BorderSpan, left: int, goal: int, landing: int) {
    && -MAX_I16 <= landing - left <= MAX_I16
    && (Clamp(goal, span.least, span.greatest) == landing
        || (landing == left + MAX_I16 && goal > landing)
        || (landing == left - MAX_I16 && goal < landing))
  }

  // The newest of the moves, seen from where those before it left the border.
  predicate LastMoveLands(span: BorderSpan, deltas: seq<int>, landing: int)
    requires deltas != []
  {
    var earlier, named := deltas[..|deltas| - 1], deltas[|deltas| - 1];
    DoesLand(span, Reached(span, earlier), span.position + named - Shortfall(span, earlier), landing)
  }

  lemma LandsInReach(span: BorderSpan, left: int, goal: int, landing: int)
    requires span.least <= left <= span.greatest && span.least <= landing <= span.greatest
    ensures Clamp(Clamp(goal, left - MAX_I16, left + MAX_I16), span.least, span.greatest) == landing
       <==> DoesLand(span, left, goal, landing)
  {
  }

  lemma NewestMoveLands(span: BorderSpan, deltas: seq<int>, landing: int)
    requires deltas != [] && span.least <= span.position <= span.greatest && span.least <= landing <= span.greatest
    ensures var earlier, named := deltas[..|deltas| - 1], deltas[|deltas| - 1];
            var left, goal := Reached(span, earlier), span.position + named - Shortfall(span, earlier);
            && Reached(span, deltas) == Clamp(Clamp(goal, left - MAX_I16, left + MAX_I16), span.least, span.greatest)
            && (Reached(span, deltas) == landing <==> LastMoveLands(span, deltas, landing))
  {
    var earlier, named := deltas[..|deltas| - 1], deltas[|deltas| - 1];
    NewestMoveTravels(span, deltas);
    ReachedInLimits(span, earlier);
    hide Reached, Shortfall;
    LandsInReach(span, Reached(span, earlier), span.position + named - Shortfall(span, earlier), landing);
  }

  // Every round answered: one drag event, flushed and run, puts the border
  // where the newest of its folded moves makes for. That is where the pointer
  // holds it exactly when it is in reach of where the moves before left the
  // border, and what they were refused does not show. A pointer back on its
  // anchor names no move, so a buffered one takes the border its own way.
  lemma SettledDragLands(system: System, pointer: Point, topRows: TopRows, border: Border)
    requires Invariant(system, border) && Holds(system.viewer, border)
    requires system.uplink == [] && system.downlink == []
    ensures var span, landed := system.session[border], Landed(system, pointer, topRows);
            var landing, moves := Landing(system, pointer, border), DraggedMoves(system.viewer, pointer, border);
            && border in landed
            && (moves == [] ==> landed[border].position == landing == span.position)
            && (moves != [] ==>
                 var earlier, named := moves[..|moves| - 1], moves[|moves| - 1];
                 var left, goal := Reached(span, earlier), span.position + named - Shortfall(span, earlier);
                 && landed[border].position == Clamp(Clamp(goal, left - MAX_I16, left + MAX_I16), span.least, span.greatest)
                 && (landed[border].position == landing <==> LastMoveLands(span, moves, landing)))
  {
    hide Landed, DraggedMoves, Invariant, LastNamed, Landing, DraggedCells, Reached, Shortfall, LastMoveLands, Outward, Anchor;
    LandingFromAnchor(system, pointer, border);
    var span, moves := system.session[border], DraggedMoves(system.viewer, pointer, border);
    DragFolds(system.viewer, pointer, border);
    LandedTravels(system, pointer, topRows, border);
    if moves == [] {
      AloneTravels(span, 0);
    } else {
      NewestMoveLands(span, moves, Landing(system, pointer, border));
    }
  }

  // With no move kept apart, as when nothing was buffered: the drag lands under
  // the pointer exactly when the border has at most `MAX_I16` cells to go, and
  // the pointer is off its anchor or the buffered move travels nothing.
  lemma SettledDragLandsUnderPointer(system: System, pointer: Point, topRows: TopRows, border: Border)
    requires Invariant(system, border) && Holds(system.viewer, border)
    requires system.uplink == [] && system.downlink == []
    requires |DraggedMoves(system.viewer, pointer, border)| <= 1
    ensures var span, landed := system.session[border], Landed(system, pointer, topRows);
            var landing, buffered := Landing(system, pointer, border), LastNamed(system.viewer.pendingMouseActions, border);
            && border in landed
            && (landed[border].position == landing <==>
                 && -MAX_I16 <= landing - span.position <= MAX_I16
                 && (DraggedCells(system.viewer, pointer, border) != 0 || buffered == None || Travel(span, buffered.value) == 0))
  {
    hide Landed, DraggedMoves, Invariant, LastNamed, Landing, DraggedCells, Reached;
    LandingFromAnchor(system, pointer, border);
    var span, moves := system.session[border], DraggedMoves(system.viewer, pointer, border);
    DragFolds(system.viewer, pointer, border);
    LandedTravels(system, pointer, topRows, border);
    AloneTravels(span, 0);
    if moves != [] {
      assert moves == [moves[0]];
      AloneTravels(span, moves[0]);
      TravelBounds(span, moves[0]);
    }
  }

  // With moves kept apart: where the limits do not stop it and the pointer and
  // the border are in reach, the drag lands exactly when the moves before its
  // own were refused nothing.
  lemma KeptApartMovesLand(system: System, pointer: Point, topRows: TopRows, border: Border)
    requires Invariant(system, border) && Holds(system.viewer, border)
    requires system.uplink == [] && system.downlink == []
    requires DraggedMoves(system.viewer, pointer, border) != [] && DraggedCells(system.viewer, pointer, border) != 0
    requires MIN_I16 <= Outward(border.side, pointer) - Anchor(system.viewer, border) <= MAX_I16
    requires var moves := DraggedMoves(system.viewer, pointer, border);
             var landing, left := Landing(system, pointer, border), Reached(system.session[border], moves[..|moves| - 1]);
             system.session[border].least < landing < system.session[border].greatest && -MAX_I16 < landing - left < MAX_I16
    ensures var moves, landed := DraggedMoves(system.viewer, pointer, border), Landed(system, pointer, topRows);
            && border in landed
            && (landed[border].position == Landing(system, pointer, border)
                <==> Shortfall(system.session[border], moves[..|moves| - 1]) == 0)
  {
    hide Landed, DraggedMoves, Invariant, LastNamed, Landing, DraggedCells, Reached, Shortfall;
    LandingFromAnchor(system, pointer, border);
    SettledDragLands(system, pointer, topRows, border);
    DragFolds(system.viewer, pointer, border);
  }

  // ---------------------------------------------------------------------
  // Two drags that do not land
  // ---------------------------------------------------------------------

  const PANE := PaneId(0)
  const RIGHT_BORDER := Border(PANE, Right)

  // A new link with the right border of a pane grabbed at `column`, and `pile`
  // buffered since.
  function Grabbed(column: u16, span: BorderSpan, pile: seq<MouseAction>): System {
    System(Viewer(Some(BorderResize(ResizeDrag(PANE, Right, None, Point(column, 0)))), pile, [], 0), [],
      map[RIGHT_BORDER := span], [])
  }

  lemma GrabbedIsNew(column: u16, span: BorderSpan, pile: seq<MouseAction>)
    requires span.least <= span.position <= span.greatest
    ensures var system := Grabbed(column, span, pile);
            Invariant(system, RIGHT_BORDER) && Holds(system.viewer, RIGHT_BORDER)
  {
    ForgettingAllKeeps([], [], RIGHT_BORDER);
    assert OnTheWay([], RIGHT_BORDER) == [];
  }

  lemma GrabbedDrags(column: u16, span: BorderSpan, pile: seq<MouseAction>, pointer: u16)
    requires |pile| < MAX_PENDING_MOUSE_ACTION_COUNT && pointer != column && -MAX_I16 <= pointer - column <= MAX_I16
    ensures Next(Grabbed(column, span, pile), DragTo(Point(pointer, 0)))
         == Grabbed(column, span, pile + [BorderMove(RIGHT_BORDER, pointer - column)])
    ensures DragViewerTo(Grabbed(column, span, pile).viewer, Point(pointer, 0))
         == Grabbed(column, span, pile + [BorderMove(RIGHT_BORDER, pointer - column)]).viewer
  {
    var drag := ResizeDrag(PANE, Right, None, Point(column, 0));
    assert DragResizeTo(drag, Point(pointer, 0)) == [BorderMove(RIGHT_BORDER, pointer - column)];
  }

  lemma GrabbedQueues(column: u16, span: BorderSpan, pile: seq<MouseAction>, actions: seq<MouseAction>)
    requires |pile + actions| <= MAX_PENDING_MOUSE_ACTION_COUNT
    ensures Next(Grabbed(column, span, pile), QueueOther(actions)) == Grabbed(column, span, pile + actions)
  {
  }

  lemma GrabbedStays(column: u16, span: BorderSpan, pile: seq<MouseAction>)
    requires |pile| <= MAX_PENDING_MOUSE_ACTION_COUNT
    ensures DragViewerTo(Grabbed(column, span, pile).viewer, Point(column, 0)) == Grabbed(column, span, pile).viewer
  {
    assert DragResizeTo(ResizeDrag(PANE, Right, None, Point(column, 0)), Point(column, 0)) == [];
    assert pile + [] == pile;
  }

  lemma OnlyMoveFolds(action: MouseAction, border: Border)
    requires IsMoveOf(action, border)
    ensures Coalesce([action]) == [action] && MovesOf([action], border) == [NamedDelta(action)]
  {
    assert [action][..0] == [];
    assert Coalesce([]) == [];
  }

  // A drag to column 55 and back to the anchor, in one flush: the second event
  // names no move, and the first takes the border to 55.
  lemma DragBackToAnchorLeavesBorder(topRows: TopRows)
    ensures var system := Run(Grabbed(50, BorderSpan(50, 0, 100), []), [DragTo(Point(55, 0))]);
            var landed := Landed(system, Point(50, 0), topRows);
            && Invariant(system, RIGHT_BORDER) && Holds(system.viewer, RIGHT_BORDER)
            && system.uplink == [] && system.downlink == []
            && RIGHT_BORDER in landed
            && Landing(system, Point(50, 0), RIGHT_BORDER) == 50
            && landed[RIGHT_BORDER].position == 55
  {
    hide Landed, Invariant, Reached, Coalesce, Next, QueueActions, DragResizeTo;
    var span, move := BorderSpan(50, 0, 100), BorderMove(RIGHT_BORDER, 5);
    var step, system := DragTo(Point(55, 0)), Grabbed(50, span, [move]);
    assert Run(Grabbed(50, span, []), [step]) == system by {
      GrabbedDrags(50, span, [], 55);
      assert [] + [move] == [move] && [step] + [] == [step];
      RunFirst(Grabbed(50, span, []), step, []);
    }
    GrabbedIsNew(50, span, [move]);
    GrabbedStays(50, span, [move]);
    OnlyMoveFolds(move, RIGHT_BORDER);
    hide Run;
    LandedTravels(system, Point(50, 0), topRows, RIGHT_BORDER);
    AloneTravels(span, 5);
  }

  lemma ScrollKeepsMovesApart(first: MouseAction, scroll: MouseAction, second: MouseAction, border: Border)
    requires IsMoveOf(first, border) && scroll.Scroll? && IsMoveOf(second, border)
    ensures MovesOf(Coalesce([first, scroll, second]), border) == [NamedDelta(first), NamedDelta(second)]
  {
    OnlyMoveFolds(first, border);
    assert [first, scroll][..1] == [first] && [first, scroll, second][..2] == [first, scroll];
    assert Coalesce([first, scroll]) == [first, scroll];
    assert Coalesce([first, scroll, second]) == [first, scroll, second];
    assert MovesOf([first, scroll], border) == [NamedDelta(first)];
  }

  lemma TenThenTwoOutOfFive()
    ensures Reached(BorderSpan(50, 0, 55), [10, 2]) == 47
  {
    assert [10, 2][..1] == [10] && [10][..0] == [];
    assert NetDeltas([10], 0) == [10];
    TotalOne(10, Self);
    assert NetDeltas([10, 2], 0) == [10, -8];
    assert [10, -8][..1] == [10];
  }

  // Drags to columns 60 and 52 with a scroll between, in one flush, and no room
  // past column 55: the first asks 10 and gets 5, the second takes 8 of them
  // back, and the border ends at 47.
  lemma RefusedMoveLeavesBorderShort(topRows: TopRows)
    ensures var steps := [DragTo(Point(60, 0)), QueueOther([Scroll(PANE, true, 1)])];
            var system := Run(Grabbed(50, BorderSpan(50, 0, 55), []), steps);
            var landed := Landed(system, Point(52, 0), topRows);
            && Invariant(system, RIGHT_BORDER) && Holds(system.viewer, RIGHT_BORDER)
            && system.uplink == [] && system.downlink == []
            && RIGHT_BORDER in landed
            && Landing(system, Point(52, 0), RIGHT_BORDER) == 52
            && landed[RIGHT_BORDER].position == 47
  {
    hide Landed, Invariant, Reached, Coalesce, Next, QueueActions, DragResizeTo;
    var span, scroll := BorderSpan(50, 0, 55), Scroll(PANE, true, 1);
    var first, second := BorderMove(RIGHT_BORDER, 10), BorderMove(RIGHT_BORDER, 2);
    var steps := [DragTo(Point(60, 0)), QueueOther([scroll])];
    var system := Grabbed(50, span, [first, scroll]);
    assert Run(Grabbed(50, span, []), steps) == system by {
      GrabbedDrags(50, span, [], 60);
      assert [] + [first] == [first] && [first] + [scroll] == [first, scroll];
      GrabbedQueues(50, span, [first], [scroll]);
      assert steps == [steps[0]] + [steps[1]] && [steps[1]] == [steps[1]] + [];
      RunFirst(Grabbed(50, span, []), steps[0], [steps[1]]);
      RunFirst(Grabbed(50, span, [first]), steps[1], []);
    }
    GrabbedIsNew(50, span, [first, scroll]);
    GrabbedDrags(50, span, [first, scroll], 52);
    assert [first, scroll] + [second] == [first, scroll, second];
    ScrollKeepsMovesApart(first, scroll, second, RIGHT_BORDER);
    TenThenTwoOutOfFive();
    hide Run;
    LandedTravels(system, Point(52, 0), topRows, RIGHT_BORDER);
  }

  // ---------------------------------------------------------------------
  // Every interleaving
  // ---------------------------------------------------------------------

  // Through every interleaving that ends with every round answered: the anchor
  // has moved exactly as far as the border, and the border still stands the
  // grab's own offset from it. One more drag event then puts the border where
  // its newest move makes for, which is the offset from the pointer, held to
  // the limits, exactly when that move lands there; with no move kept apart,
  // exactly when it is in reach and the drag event names a move or the buffered
  // one is spent.
  lemma HeldDragConverges(system: System, steps: seq<Step>, pointer: Point, topRows: TopRows, border: Border)
    requires Invariant(system, border) && Holds(system.viewer, border) && IsGrabOnScreen(system, border)
    requires forall step :: step in steps ==> KeepsHolding(step)
    requires var after := Run(system, steps); after.uplink == [] && after.downlink == []
    ensures var after := Run(system, steps);
            && Invariant(after, border) && Holds(after.viewer, border)
            && var span, landed := after.session[border], Landed(after, pointer, topRows);
            var landing, moves := Landing(after, pointer, border), DraggedMoves(after.viewer, pointer, border);
            var buffered := LastNamed(after.viewer.pendingMouseActions, border);
            && border in landed
            && (system.downlink == [] ==>
                 Anchor(after.viewer, border) - Anchor(system.viewer, border) == span.position - system.session[border].position)
            && landing == Clamp(Outward(border.side, pointer) - GrabOffset(system, border),
                                system.session[border].least, system.session[border].greatest)
            && landed[border].position == Reached(span, moves)
            && (moves != [] ==> (landed[border].position == landing <==> LastMoveLands(span, moves, landing)))
            && (|moves| <= 1 ==>
                 (landed[border].position == landing <==>
                   && -MAX_I16 <= landing - span.position <= MAX_I16
                   && (DraggedCells(after.viewer, pointer, border) != 0 || buffered == None || Travel(span, buffered.value) == 0)))
  {
    var after := Run(system, steps);
    AnchorFollowsBorder(system, steps, border);
    hide Run, Reached, LastMoveLands, Travel, DraggedMoves, LastNamed, DraggedCells, Landed;
    LandedTravels(after, pointer, topRows, border);
    SettledDragLands(after, pointer, topRows, border);
    if |DraggedMoves(after.viewer, pointer, border)| <= 1 {
      SettledDragLandsUnderPointer(after, pointer, topRows, border);
    }
  }
}
