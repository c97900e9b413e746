// The vocabulary of the mouse uplink: what a viewer asks the session to do for
// a mouse event, and the gesture the held left button drives.
module MouseActions {
  import opened Options

  type u16 = n: nat | n <= 0xffff
  type i16 = n: int | -0x8000 <= n <= 0x7fff

  const MAX_U16: int := 0xffff
  const MAX_I16: int := 0x7fff
  const MIN_I16: int := -0x8000

  datatype PaneId = PaneId(number: nat)
  datatype FloatingPaneId = FloatingPaneId(number: nat)
  datatype Point = Point(column: u16, row: u16)
  datatype Direction = Left | Right | Up | Down

  datatype MouseButton = LeftButton | MiddleButton | RightButton
  datatype MouseKind =
    | Press(button: MouseButton)
    | Release(button: MouseButton)
    | Drag(button: MouseButton)
    | Motion
    | Wheel(direction: Direction)

  datatype SelectionKind = Character | Word | Line | Block
  datatype GridPosition = GridPosition(rowIndex: nat, columnIndex: nat)
  datatype Selection = Selection(selectionKind: SelectionKind, anchor: GridPosition, cursor: GridPosition)

  // The commands a mouse event can run. Only a selection change is told apart
  // from the others: it alone folds.
  datatype Command =
    | SetSelection(selectionPaneId: PaneId, selection: Selection)
    | OtherCommand(commandNumber: nat)

  datatype MouseAction =
    | Scroll(paneId: PaneId, isScrollingUp: bool, scrollLineCount: nat)
    | Forward(paneId: PaneId, mouseKind: MouseKind, modifierFlags: nat, paneLocalCell: Point)
    | AlternateScrollArrows(paneId: PaneId, isScrollingUp: bool, arrowCount: nat)
    | RunCommand(command: Command)
    | MoveFloatingPane(commandId: nat, floatingPaneId: FloatingPaneId, topLeftCell: Point)
    | Resize(paneId: PaneId, borderSide: Direction, resizeStep: i16, requestedCellCount: u16)

  // A border drag under way. `cornerHorizontalSide` is the second border of a
  // grabbed corner; `lastAcceptedPosition` is the drag's anchor.
  datatype ResizeDrag = ResizeDrag(
    paneId: PaneId,
    borderSide: Direction,
    cornerHorizontalSide: Option<Direction>,
    lastAcceptedPosition: Point)

  datatype LeftButtonGesture =
    | SelectionGesture(paneId: PaneId, isOnAlternateScreen: bool)
    | BorderResize(resizeDrag: ResizeDrag)
    | TablinePeek
    | FloatingPaneMove(floatingPaneId: FloatingPaneId)

  // A border as the protocol names it: one side of one pane.
  datatype Border = Border(paneId: PaneId, side: Direction)

  predicate IsHorizontalAxis(side: Direction) {
    side.Left? || side.Right?
  }

  predicate IsMoveOf(action: MouseAction, border: Border) {
    action.Resize? && action.paneId == border.paneId && action.borderSide == border.side
  }

  // The signed cells a border move names, positive to grow the pane.
  function NamedDelta(action: MouseAction): int
    requires action.Resize?
  {
    action.resizeStep * action.requestedCellCount
  }

  function Clamp(value: int, least: int, greatest: int): int {
    if value < least then least else if value > greatest then greatest else value
  }

  // A border move of `cellDelta` cells. Past u16 the count saturates.
  function BorderMove(border: Border, cellDelta: int): (action: MouseAction)
    ensures IsMoveOf(action, border)
    ensures NamedDelta(action) == Clamp(cellDelta, -MAX_U16, MAX_U16)
    ensures action.requestedCellCount == 0 <==> cellDelta == 0
    ensures action.resizeStep == -1 || action.resizeStep == 1
  {
    var magnitude := if cellDelta < 0 then -cellDelta else cellDelta;
    Resize(border.paneId, border.side,
      if cellDelta < 0 then -1 else 1,
      if magnitude <= MAX_U16 then magnitude else MAX_U16)
  }

  // The actions of `actions` that `keep` holds of, in order.
  function Keep(actions: seq<MouseAction>, keep: MouseAction -> bool): seq<MouseAction> {
    if actions == [] then []
    else Keep(actions[..|actions| - 1], keep) + (if keep(actions[|actions| - 1]) then [actions[|actions| - 1]] else [])
  }

  lemma {:induction false} KeepAppend(first: seq<MouseAction>, second: seq<MouseAction>, keep: MouseAction -> bool)
    ensures Keep(first + second, keep) == Keep(first, keep) + Keep(second, keep)
    decreases |second|
  {
    if second == [] {
      assert first + second == first;
    } else {
      var init, last := second[..|second| - 1], second[|second| - 1];
      assert (first + second)[..|first + second| - 1] == first + init;
      KeepAppend(first, init, keep);
    }
  }

  lemma {:induction false} KeepHolds(actions: seq<MouseAction>, keep: MouseAction -> bool)
    ensures forall action :: action in Keep(actions, keep) <==> action in actions && keep(action)
  {
    if actions != [] {
      KeepHolds(actions[..|actions| - 1], keep);
      assert actions == actions[..|actions| - 1] + [actions[|actions| - 1]];
    }
  }
}
