// Which mouse events reach a pane's program: the capture a forwarded press
// takes, the releases koshi owes for captures it ended, and the stream of
// reports one link writes (crates/koshi-client/src/mouse.rs).
module MouseCapture {
  import opened Options
  import opened MouseActions
  import opened MouseFold
  import opened MouseUplink

  datatype MouseInput = MouseInput(mouseKind: MouseKind, position: Point, modifierFlags: nat)

  // The pane and button of a forwarded gesture, and the last cell it named.
  datatype Capture = Capture(paneId: PaneId, button: MouseButton, lastPaneLocalCell: Point)

  datatype MouseState = MouseState(
    mouseCapture: Option<Capture>,
    unreleasedMouseCapture: Option<Capture>,
    leftButtonGesture: Option<LeftButtonGesture>,
    isFloatingPaneMoveModeOn: bool)

  // What a left press does on the region under the pointer.
  datatype PressRegion =
    | ContentRegion(paneId: PaneId, selectionGesture: Option<LeftButtonGesture>, selectionActions: seq<MouseAction>)
    | GestureRegion(gesture: Option<LeftButtonGesture>, actions: seq<MouseAction>)
    | TrayRegion(doesTrayOpen: bool)

  // What the frame and the pointer decide about one event: which panes are
  // drawn, what their programs report, and what koshi's own gestures send.
  datatype FrameView = FrameView(
    focusedPaneId: Option<PaneId>,
    focusedContentPaneId: Option<PaneId>,
    isKindReported: (PaneId, MouseKind) -> bool,
    clampedCell: PaneId -> Option<Point>,
    isPaneDrawn: PaneId -> bool,
    isOnAlternateScreen: PaneId -> Option<bool>,
    isFloatingPaneDrawn: FloatingPaneId -> bool,
    isSelectionForced: bool,
    pressRegion: PressRegion,
    wheelAction: Option<MouseAction>,
    focusAction: MouseAction,
    selectionDragActions: seq<MouseAction>,
    releaseActions: seq<MouseAction>,
    moveModeGesture: Option<LeftButtonGesture>,
    moveModeActions: seq<MouseAction>)

  predicate IsButtonReport(action: MouseAction) {
    action.Forward? && (action.mouseKind.Press? || action.mouseKind.Drag? || action.mouseKind.Release?)
  }

  predicate HasNoButtonReport(actions: seq<MouseAction>) {
    forall action :: action in actions ==> !IsButtonReport(action)
  }

  // Only `ForwardMouseInput` and owed releases report a button.
  predicate IsLegalFrame(frame: FrameView) {
    && (frame.pressRegion.ContentRegion? ==> HasNoButtonReport(frame.pressRegion.selectionActions))
    && (frame.pressRegion.GestureRegion? ==> HasNoButtonReport(frame.pressRegion.actions))
    && (frame.wheelAction.Some? ==> !IsButtonReport(frame.wheelAction.value))
    && !IsButtonReport(frame.focusAction)
    && HasNoButtonReport(frame.selectionDragActions)
    && HasNoButtonReport(frame.releaseActions)
    && HasNoButtonReport(frame.moveModeActions)
  }

  // ---------------------------------------------------------------------
  // The automaton
  // ---------------------------------------------------------------------

  function EndCapture(state: MouseState): MouseState {
    if state.mouseCapture.Some? then state.(mouseCapture := None, unreleasedMouseCapture := state.mouseCapture) else state
  }

  function OwedRelease(state: MouseState): seq<MouseAction> {
    match state.unreleasedMouseCapture
    case Some(Capture(pane, button, cell)) => [Forward(pane, Release(button), 0, cell)]
    case None => []
  }

  function EndHeldGestures(state: MouseState): MouseState {
    EndCapture(state.(leftButtonGesture := None))
  }

  // The pane a press, a drag or a bare move goes to, and the kind it is
  // reported as: a captured drag names the button its press named.
  function ForwardTarget(state: MouseState, kind: MouseKind, frame: FrameView): Option<(PaneId, MouseKind)> {
    if kind.Drag? then
      if state.mouseCapture.Some?
      then Some((state.mouseCapture.value.paneId, Drag(state.mouseCapture.value.button)))
      else None
    else if (kind.Press? || kind.Motion?) && frame.focusedContentPaneId.Some? then
      Some((frame.focusedContentPaneId.value, kind))
    else None
  }

  function ForwardRelease(state: MouseState, input: MouseInput, frame: FrameView): (MouseState, seq<MouseAction>) {
    match state.mouseCapture
    case None => (state, [])
    case Some(capture) =>
      (state.(mouseCapture := None),
       [Forward(capture.paneId, Release(capture.button), input.modifierFlags,
         frame.clampedCell(capture.paneId).GetOr(capture.lastPaneLocalCell))])
  }

  function ForwardInput(state: MouseState, input: MouseInput, frame: FrameView): (MouseState, seq<MouseAction>) {
    if input.mouseKind.Release? then ForwardRelease(state, input, frame)
    else
      var target := ForwardTarget(state, input.mouseKind, frame);
      if target.None? || !frame.isKindReported(target.value.0, target.value.1) || frame.clampedCell(target.value.0).None?
      then (state, [])
      else
        var (pane, kind) := target.value;
        var cell := frame.clampedCell(pane).value;
        var next :=
          if kind.Press? then EndCapture(state).(mouseCapture := Some(Capture(pane, kind.button, cell)))
          else if kind.Drag? && state.mouseCapture.Some?
          then state.(mouseCapture := Some(state.mouseCapture.value.(lastPaneLocalCell := cell)))
          else state;
        (next, [Forward(pane, kind, input.modifierFlags, cell)])
  }

  function PressLeft(state: MouseState, input: MouseInput, frame: FrameView): (MouseState, seq<MouseAction>) {
    match frame.pressRegion
    case ContentRegion(pane, gesture, actions) =>
      if frame.focusedPaneId != Some(pane) then (state, [frame.focusAction])
      else if frame.isKindReported(pane, input.mouseKind) && !frame.isSelectionForced then ForwardInput(state, input, frame)
      else (state.(leftButtonGesture := gesture), actions)
    case GestureRegion(gesture, actions) => (state.(leftButtonGesture := gesture), actions)
    case TrayRegion(doesTrayOpen) => (if doesTrayOpen then EndHeldGestures(state) else state, [])
  }

  function DragLeft(state: MouseState, input: MouseInput, frame: FrameView): (MouseState, seq<MouseAction>) {
    match state.leftButtonGesture
    case Some(SelectionGesture(_, _)) => (state, frame.selectionDragActions)
    case Some(BorderResize(drag)) => (state, DragResizeTo(drag, input.position))
    case Some(_) => (state, [])
    case None => ForwardInput(state, input, frame)
  }

  function ReleaseLeft(state: MouseState, input: MouseInput, frame: FrameView): (MouseState, seq<MouseAction>) {
    match state.leftButtonGesture
    case Some(gesture) =>
      (state.(leftButtonGesture := None),
       if gesture.SelectionGesture? || gesture.FloatingPaneMove? then frame.releaseActions else [])
    case None => ForwardInput(state, input, frame)
  }

  function HandleOnFrame(state: MouseState, input: MouseInput, frame: FrameView): (MouseState, seq<MouseAction>) {
    match input.mouseKind
    case Wheel(_) => (state, if frame.wheelAction.Some? then [frame.wheelAction.value] else [])
    case Press(LeftButton) => PressLeft(state, input, frame)
    case Drag(LeftButton) => DragLeft(state, input, frame)
    case Release(LeftButton) => ReleaseLeft(state, input, frame)
    case _ => ForwardInput(state, input, frame)
  }

  // A press first ends the gestures its button still holds.
  function EndPressed(state: MouseState, kind: MouseKind): MouseState {
    if !kind.Press? then state
    else
      var dropped := if kind.button == LeftButton then state.(leftButtonGesture := None) else state;
      if dropped.mouseCapture.Some? && dropped.mouseCapture.value.button == kind.button then EndCapture(dropped) else dropped
  }

  function Handle(state: MouseState, input: MouseInput, frame: FrameView): (MouseState, seq<MouseAction>) {
    var pressed := EndPressed(state, input.mouseKind);
    var (handled, actions) :=
      if pressed.isFloatingPaneMoveModeOn
      then (pressed.(leftButtonGesture := frame.moveModeGesture), frame.moveModeActions)
      else HandleOnFrame(pressed, input, frame);
    (handled.(unreleasedMouseCapture := None), OwedRelease(handled) + actions)
  }

  predicate DoesGestureStand(gesture: LeftButtonGesture, frame: FrameView) {
    match gesture
    case SelectionGesture(pane, isOnAlternateScreen) =>
      frame.isPaneDrawn(pane)
      && (frame.isOnAlternateScreen(pane).Some? ==> frame.isOnAlternateScreen(pane).value == isOnAlternateScreen)
    case BorderResize(drag) => frame.isPaneDrawn(drag.paneId)
    case TablinePeek => true
    case FloatingPaneMove(floatingPane) => frame.isFloatingPaneDrawn(floatingPane)
  }

  function DropEnded(state: MouseState, frame: FrameView): MouseState {
    var dropped :=
      if state.leftButtonGesture.Some? && !DoesGestureStand(state.leftButtonGesture.value, frame)
      then state.(leftButtonGesture := None) else state;
    if dropped.mouseCapture.Some? && !frame.isPaneDrawn(dropped.mouseCapture.value.paneId) then EndCapture(dropped) else dropped
  }

  // ---------------------------------------------------------------------
  // The client's mouse fields, as its methods update them
  // ---------------------------------------------------------------------

  class MouseClient {
    var mouseCapture: Option<Capture>
    var unreleasedMouseCapture: Option<Capture>
    var leftButtonGesture: Option<LeftButtonGesture>
    var isFloatingPaneMoveModeOn: bool

    ghost function State(): MouseState
      reads this
    {
      MouseState(mouseCapture, unreleasedMouseCapture, leftButtonGesture, isFloatingPaneMoveModeOn)
    }

    method EndMouseCapture()
      modifies this`mouseCapture, this`unreleasedMouseCapture
      ensures State() == EndCapture(old(State()))
    {
      if mouseCapture.Some? {
        unreleasedMouseCapture := mouseCapture;
        mouseCapture := None;
      }
    }

    method TakeMouseCaptureRelease() returns (release: seq<MouseAction>)
      modifies this`unreleasedMouseCapture
      ensures State() == old(State()).(unreleasedMouseCapture := None)
      ensures release == OwedRelease(old(State()))
    {
      release := [];
      if unreleasedMouseCapture.Some? {
        var capture := unreleasedMouseCapture.value;
        unreleasedMouseCapture := None;
        release := [Forward(capture.paneId, Release(capture.button), 0, capture.lastPaneLocalCell)];
      }
    }

    method EndHeldMouseGestures()
      modifies this`leftButtonGesture, this`mouseCapture, this`unreleasedMouseCapture
      ensures State() == EndHeldGestures(old(State()))
    {
      leftButtonGesture := None;
      EndMouseCapture();
    }

    // A new link drops every gesture with no release owed.
    method EndMouseGestures()
      modifies this`leftButtonGesture, this`mouseCapture, this`unreleasedMouseCapture
      ensures State() == MouseState(None, None, None, isFloatingPaneMoveModeOn)
    {
      EndHeldMouseGestures();
      unreleasedMouseCapture := None;
    }

    method ForwardMouseInput(input: MouseInput, frame: FrameView) returns (actions: seq<MouseAction>)
      modifies this`mouseCapture, this`unreleasedMouseCapture
      ensures (State(), actions) == ForwardInput(old(State()), input, frame)
    {
      actions := [];
      if input.mouseKind.Release? {
        if mouseCapture.Some? {
          var capture := mouseCapture.value;
          mouseCapture := None;
          var cell := frame.clampedCell(capture.paneId).GetOr(capture.lastPaneLocalCell);
          actions := [Forward(capture.paneId, Release(capture.button), input.modifierFlags, cell)];
        }
        return;
      }
      var pane, kind;
      if input.mouseKind.Drag? {
        if mouseCapture.None? {
          return;
        }
        pane, kind := mouseCapture.value.paneId, Drag(mouseCapture.value.button);
      } else {
        if input.mouseKind.Wheel? || frame.focusedContentPaneId.None? {
          return;
        }
        pane, kind := frame.focusedContentPaneId.value, input.mouseKind;
      }
      if !frame.isKindReported(pane, kind) || frame.clampedCell(pane).None? {
        return;
      }
      var cell := frame.clampedCell(pane).value;
      if kind.Press? {
        EndMouseCapture();
        mouseCapture := Some(Capture(pane, kind.button, cell));
      } else if kind.Drag? {
        mouseCapture := Some(mouseCapture.value.(lastPaneLocalCell := cell));
      }
      actions := [Forward(pane, kind, input.modifierFlags, cell)];
    }

    method HandleLeftPress(input: MouseInput, frame: FrameView) returns (actions: seq<MouseAction>)
      modifies this`leftButtonGesture, this`mouseCapture, this`unreleasedMouseCapture
      ensures (State(), actions) == PressLeft(old(State()), input, frame)
    {
      match frame.pressRegion
      case ContentRegion(pane, gesture, selectionActions) =>
        if frame.focusedPaneId != Some(pane) {
          actions := [frame.focusAction];
        } else if frame.isKindReported(pane, input.mouseKind) && !frame.isSelectionForced {
          actions := ForwardMouseInput(input, frame);
        } else {
          leftButtonGesture, actions := gesture, selectionActions;
        }
      case GestureRegion(gesture, pressActions) =>
        leftButtonGesture, actions := gesture, pressActions;
      case TrayRegion(doesTrayOpen) =>
        actions := [];
        if doesTrayOpen {
          EndHeldMouseGestures();
        }
    }

    method HandleMouseEventOnFrame(input: MouseInput, frame: FrameView) returns (actions: seq<MouseAction>)
      modifies this`leftButtonGesture, this`mouseCapture, this`unreleasedMouseCapture
      ensures (State(), actions) == HandleOnFrame(old(State()), input, frame)
    {
      match input.mouseKind
      case Wheel(_) =>
        actions := if frame.wheelAction.Some? then [frame.wheelAction.value] else [];
      case Press(LeftButton) =>
        actions := HandleLeftPress(input, frame);
      case Drag(LeftButton) =>
        match leftButtonGesture {
          case Some(SelectionGesture(_, _)) => actions := frame.selectionDragActions;
          case Some(BorderResize(drag)) => actions := DragResizeTo(drag, input.position);
          case Some(_) => actions := [];
          case None => actions := ForwardMouseInput(input, frame);
        }
      case Release(LeftButton) =>
        match leftButtonGesture {
          case Some(gesture) =>
            leftButtonGesture := None;
            actions := if gesture.SelectionGesture? || gesture.FloatingPaneMove? then frame.releaseActions else [];
          case None => actions := ForwardMouseInput(input, frame);
        }
      case _ =>
        actions := ForwardMouseInput(input, frame);
    }

    method HandleMouse(input: MouseInput, frame: FrameView) returns (actions: seq<MouseAction>)
      modifies this`leftButtonGesture, this`mouseCapture, this`unreleasedMouseCapture
      ensures (State(), actions) == Handle(old(State()), input, frame)
    {
      if input.mouseKind.Press? {
        if input.mouseKind.button == LeftButton {
          leftButtonGesture := None;
        }
        if mouseCapture.Some? && mouseCapture.value.button == input.mouseKind.button {
          EndMouseCapture();
        }
      }
      assert State() == EndPressed(old(State()), input.mouseKind);
      if isFloatingPaneMoveModeOn {
        leftButtonGesture, actions := frame.moveModeGesture, frame.moveModeActions;
      } else {
        actions := HandleMouseEventOnFrame(input, frame);
      }
      var release := TakeMouseCaptureRelease();
      actions := release + actions;
    }

    method DropGesturesTheFrameEnded(frame: FrameView)
      modifies this`leftButtonGesture, this`mouseCapture, this`unreleasedMouseCapture
      ensures State() == DropEnded(old(State()), frame)
    {
      if leftButtonGesture.Some? && !DoesGestureStand(leftButtonGesture.value, frame) {
        leftButtonGesture := None;
      }
      if mouseCapture.Some? && !frame.isPaneDrawn(mouseCapture.value.paneId) {
        EndMouseCapture();
      }
    }
  }
}
