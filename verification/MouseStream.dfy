// The reports one link writes are whole gestures, one after another: a press,
// its drags, its release, all naming one pane and one button.
module MouseStream {
  import opened Options
  import opened MouseActions
  import opened MouseFold
  import opened MouseUplink
  import opened MouseCapture

  // ---------------------------------------------------------------------
  // The grammar of a stream of reports
  // ---------------------------------------------------------------------

  // The gesture a stream has open, with the last cell it named.
  datatype OpenGesture = Closed | Opened(capture: Capture)

  predicate Names(report: MouseAction, open: OpenGesture)
    requires IsButtonReport(report)
  {
    open.Opened? && report.paneId == open.capture.paneId && report.mouseKind.button == open.capture.button
  }

  // A press opens a gesture when none is open; a drag and a release name the
  // pane and button of the open one.
  function FollowReport(open: OpenGesture, report: MouseAction): Option<OpenGesture>
    requires IsButtonReport(report)
  {
    var now := Opened(Capture(report.paneId, report.mouseKind.button, report.paneLocalCell));
    match report.mouseKind
    case Press(_) => if open.Closed? then Some(now) else None
    case Drag(_) => if Names(report, open) then Some(now) else None
    case Release(_) => if Names(report, open) then Some(Closed) else None
  }

  predicate AreButtonReports(reports: seq<MouseAction>) {
    forall report :: report in reports ==> IsButtonReport(report)
  }

  // The gesture open after `reports`, or None when they break the grammar.
  function Follow(open: OpenGesture, reports: seq<MouseAction>): Option<OpenGesture>
    requires AreButtonReports(reports)
    decreases reports
  {
    if reports == [] then Some(open)
    else
      match FollowReport(open, reports[0])
      case None => None
      case Some(next) => Follow(next, reports[1..])
  }

  function Reports(actions: seq<MouseAction>): (reports: seq<MouseAction>)
    ensures AreButtonReports(reports)
  {
    KeepHolds(actions, IsButtonReport);
    Keep(actions, IsButtonReport)
  }

  lemma {:induction false} FollowAppend(open: OpenGesture, first: seq<MouseAction>, second: seq<MouseAction>)
    requires AreButtonReports(first) && AreButtonReports(second)
    ensures AreButtonReports(first + second)
    ensures Follow(open, first + second)
         == (match Follow(open, first) case None => None case Some(next) => Follow(next, second))
    decreases first
  {
    if first == [] {
      assert first + second == second;
    } else {
      assert (first + second)[1..] == first[1..] + second;
      var next := FollowReport(open, first[0]);
      if next.Some? {
        FollowAppend(next.value, first[1..], second);
      }
    }
  }

  lemma FollowOne(open: OpenGesture, report: MouseAction)
    requires IsButtonReport(report)
    ensures AreButtonReports([report])
    ensures Follow(open, [report]) == FollowReport(open, report)
  {
    assert [report][1..] == [];
  }

  lemma {:induction false} ReportsOfNone(actions: seq<MouseAction>)
    requires HasNoButtonReport(actions)
    ensures Reports(actions) == []
  {
    if actions != [] {
      var init := actions[..|actions| - 1];
      assert actions[|actions| - 1] in actions && forall action :: action in init ==> action in actions;
      ReportsOfNone(init);
    }
  }

  lemma ReportsOfOne(action: MouseAction)
    ensures Reports([action]) == if IsButtonReport(action) then [action] else []
  {
    assert [action][..0] == [];
    assert Keep([action], IsButtonReport) == Keep([], IsButtonReport) + (if IsButtonReport(action) then [action] else []);
  }

  lemma ReportsAppend(first: seq<MouseAction>, second: seq<MouseAction>)
    ensures Reports(first + second) == Reports(first) + Reports(second)
  {
    KeepAppend(first, second, IsButtonReport);
  }

  // ---------------------------------------------------------------------
  // One event
  // ---------------------------------------------------------------------

  // The gesture a program still waits to see released.
  function Owes(state: MouseState): OpenGesture {
    if state.mouseCapture.Some? then Opened(state.mouseCapture.value)
    else if state.unreleasedMouseCapture.Some? then Opened(state.unreleasedMouseCapture.value)
    else Closed
  }

  // A held capture and an owed release never coexist between events, so ending
  // a capture overwrites no owed release.
  predicate IsSettled(state: MouseState) {
    !(state.mouseCapture.Some? && state.unreleasedMouseCapture.Some?)
  }

  function Released(state: MouseState): MouseState {
    state.(unreleasedMouseCapture := None)
  }

  // `actions`, behind the release `after` owes, carry on the stream from what
  // `before` owes to what `after` owes once that release is out.
  predicate CarriesOn(before: MouseState, after: MouseState, actions: seq<MouseAction>) {
    Follow(Owes(before), Reports(OwedRelease(after) + actions)) == Some(Owes(Released(after)))
  }

  lemma ReleaseFollows(state: MouseState, open: OpenGesture)
    requires state.unreleasedMouseCapture.Some? && open == Opened(state.unreleasedMouseCapture.value)
    ensures Reports(OwedRelease(state)) == OwedRelease(state)
    ensures Follow(open, Reports(OwedRelease(state))) == Some(Closed)
  {
    ReportsOfOne(OwedRelease(state)[0]);
    FollowOne(open, OwedRelease(state)[0]);
  }

  lemma SilentCarriesOn(before: MouseState, after: MouseState, actions: seq<MouseAction>)
    requires HasNoButtonReport(actions)
    requires IsSettled(after) && Owes(after) == Owes(before)
    ensures CarriesOn(before, after, actions)
  {
    ReportsAppend(OwedRelease(after), actions);
    ReportsOfNone(actions);
    if after.unreleasedMouseCapture.Some? {
      ReleaseFollows(after, Owes(before));
      assert Reports(OwedRelease(after)) + [] == Reports(OwedRelease(after));
    } else {
      ReportsOfNone(OwedRelease(after));
    }
  }

  lemma ReportCarriesOn(before: MouseState, after: MouseState, report: MouseAction)
    requires IsButtonReport(report)
    requires after.unreleasedMouseCapture.Some? ==> Owes(before) == Opened(after.unreleasedMouseCapture.value)
    requires FollowReport(if after.unreleasedMouseCapture.Some? then Closed else Owes(before), report) == Some(Owes(Released(after)))
    ensures CarriesOn(before, after, [report])
  {
    ReportsAppend(OwedRelease(after), [report]);
    ReportsOfOne(report);
    FollowOne(if after.unreleasedMouseCapture.Some? then Closed else Owes(before), report);
    if after.unreleasedMouseCapture.Some? {
      ReleaseFollows(after, Owes(before));
      FollowAppend(Owes(before), Reports(OwedRelease(after)), [report]);
    } else {
      ReportsOfNone(OwedRelease(after));
      assert Reports(OwedRelease(after)) + [report] == [report];
    }
  }

  lemma ForwardCarriesOn(state: MouseState, input: MouseInput, frame: FrameView)
    requires IsSettled(state)
    ensures var (after, actions) := ForwardInput(state, input, frame); CarriesOn(state, after, actions)
  {
    var (after, actions) := ForwardInput(state, input, frame);
    if actions != [] && IsButtonReport(actions[0]) {
      assert actions == [actions[0]];
      ReportCarriesOn(state, after, actions[0]);
    } else {
      SilentCarriesOn(state, after, actions);
    }
  }

  lemma DragNamesNoReport(drag: ResizeDrag, pointer: Point)
    ensures HasNoButtonReport(DragResizeTo(drag, pointer))
  {
  }

  lemma EventCarriesOn(state: MouseState, input: MouseInput, frame: FrameView)
    requires IsSettled(state) && IsLegalFrame(frame)
    ensures var (after, actions) := HandleOnFrame(state, input, frame); CarriesOn(state, after, actions)
  {
    var (after, actions) := HandleOnFrame(state, input, frame);
    if (after, actions) == ForwardInput(state, input, frame) {
      ForwardCarriesOn(state, input, frame);
    } else {
      if input.mouseKind == Drag(LeftButton) && state.leftButtonGesture.Some? && state.leftButtonGesture.value.BorderResize? {
        DragNamesNoReport(state.leftButtonGesture.value.resizeDrag, input.position);
      }
      SilentCarriesOn(state, after, actions);
    }
  }

  lemma EndPressedOwesTheSame(state: MouseState, kind: MouseKind)
    requires IsSettled(state)
    ensures IsSettled(EndPressed(state, kind)) && Owes(EndPressed(state, kind)) == Owes(state)
  {
  }

  // Whatever one mouse event meets, the reports it writes carry the stream on,
  // no release is owed after it, and none that was owed before it is lost.
  lemma HandleCarriesOn(state: MouseState, input: MouseInput, frame: FrameView)
    requires IsSettled(state) && IsLegalFrame(frame)
    ensures var (after, actions) := Handle(state, input, frame);
            && IsSettled(after)
            && after.unreleasedMouseCapture == None
            && Follow(Owes(state), Reports(actions)) == Some(Owes(after))
  {
    var pressed := EndPressed(state, input.mouseKind);
    EndPressedOwesTheSame(state, input.mouseKind);
    if pressed.isFloatingPaneMoveModeOn {
      SilentCarriesOn(pressed, pressed.(leftButtonGesture := frame.moveModeGesture), frame.moveModeActions);
    } else {
      EventCarriesOn(pressed, input, frame);
    }
  }

  // Ending a capture keeps what is owed, with the gesture's own pane, button
  // and last cell, and the release that goes out names them.
  lemma EndingKeepsWhatIsOwed(state: MouseState, frame: FrameView)
    requires IsSettled(state)
    ensures IsSettled(EndHeldGestures(state)) && Owes(EndHeldGestures(state)) == Owes(state)
    ensures IsSettled(DropEnded(state, frame)) && Owes(DropEnded(state, frame)) == Owes(state)
    ensures Follow(Owes(state), Reports(OwedRelease(state))) == Some(Owes(Released(state)))
  {
    if state.unreleasedMouseCapture.Some? {
      ReleaseFollows(state, Owes(state));
    } else {
      ReportsOfNone(OwedRelease(state));
    }
  }

  // ---------------------------------------------------------------------
  // A whole link: events, piles, folds, answers and flushes
  // ---------------------------------------------------------------------

  datatype Link = Link(
    mouse: MouseState,
    pile: seq<MouseAction>,
    sent: seq<SentBorderMove>,
    nextRequestId: nat,
    written: seq<MouseAction>)

  datatype LinkStep =
    | MouseEvent(input: MouseInput, frame: FrameView)
    | FramePainted(frame: FrameView)
    | HeldGesturesEnd
    | SelectionEnds
    | MoveModeChanges(isOn: bool)
    | OtherActions(actions: seq<MouseAction>)
    | AnswersArrive(requestId: nat, answers: seq<MouseAnswer>, followUp: ScrollFollowUp)
    | RoundFlushes
    | PassEnds

  ghost predicate IsLegalStep(step: LinkStep) {
    match step
    case MouseEvent(_, frame) => IsLegalFrame(frame)
    case OtherActions(actions) => HasNoButtonReport(actions)
    case AnswersArrive(_, _, followUp) => forall pane, topRow :: HasNoButtonReport(followUp(pane, topRow))
    case _ => true
  }

  function ViewerOf(link: Link): Viewer {
    Viewer(link.mouse.leftButtonGesture, link.pile, link.sent, link.nextRequestId)
  }

  function FlushLink(link: Link): Link {
    var (viewer, round) := FlushRound(ViewerOf(link));
    link.(pile := viewer.pendingMouseActions, sent := viewer.sentBorderMoves, nextRequestId := viewer.nextRequestId,
      written := link.written + (if round.Some? then round.value.actions else []))
  }

  function NextLink(link: Link, step: LinkStep): Link {
    match step
    case MouseEvent(input, frame) =>
      var (mouse, actions) := Handle(link.mouse, input, frame);
      link.(mouse := mouse, pile := QueueActions(link.pile, actions))
    case FramePainted(frame) => link.(mouse := DropEnded(link.mouse, frame))
    case HeldGesturesEnd => link.(mouse := EndHeldGestures(link.mouse))
    case SelectionEnds =>
      if link.mouse.leftButtonGesture.Some? && link.mouse.leftButtonGesture.value.SelectionGesture?
      then link.(mouse := link.mouse.(leftButtonGesture := None)) else link
    case MoveModeChanges(isOn) => link.(mouse := link.mouse.(isFloatingPaneMoveModeOn := isOn))
    case OtherActions(actions) => link.(pile := QueueActions(link.pile, actions))
    case AnswersArrive(requestId, answers, followUp) =>
      var viewer := TakeAnswers(ViewerOf(link), requestId, answers, followUp);
      link.(mouse := link.mouse.(leftButtonGesture := viewer.leftButtonGesture),
        pile := viewer.pendingMouseActions, sent := viewer.sentBorderMoves)
    case RoundFlushes => FlushLink(link)
    case PassEnds =>
      FlushLink(link.(mouse := Released(link.mouse), pile := QueueActions(link.pile, OwedRelease(link.mouse))))
  }

  // A new link: no capture held, no release owed, nothing piled or written.
  function NewLink(leftButtonGesture: Option<LeftButtonGesture>, isFloatingPaneMoveModeOn: bool, firstRequestId: nat): Link {
    Link(MouseState(None, None, leftButtonGesture, isFloatingPaneMoveModeOn), [], [], firstRequestId, [])
  }

  function RunLink(link: Link, steps: seq<LinkStep>): Link
    decreases steps
  {
    if steps == [] then link else RunLink(NextLink(link, steps[0]), steps[1..])
  }

  // What was written and what is piled follow the grammar up to the gesture
  // whose release is still to come.
  predicate LinkInvariant(link: Link) {
    IsSettled(link.mouse) && Follow(Closed, Reports(link.written) + Reports(link.pile)) == Some(Owes(link.mouse))
  }

  lemma QueueAddsReports(pile: seq<MouseAction>, actions: seq<MouseAction>)
    ensures Reports(QueueActions(pile, actions)) == Reports(pile) + Reports(actions)
  {
    QueueKeeps(pile, actions, Border(PaneId(0), Up));
    KeepOfKeep(QueueActions(pile, actions), IsLoose, IsButtonReport);
    KeepOfKeep(pile, IsLoose, IsButtonReport);
    KeepOfKeep(actions, IsLoose, IsButtonReport);
    KeepAppend(Keep(pile, IsLoose), Keep(actions, IsLoose), IsButtonReport);
  }

  lemma {:induction false} NetKeepsReports(round: seq<MouseAction>, sent: seq<SentBorderMove>)
    ensures Reports(NetRound(round, sent).actions) == Reports(round)
  {
    if round != [] {
      var init, net := round[..|round| - 1], NetRound(round, sent);
      NetKeepsReports(init, sent);
      assert net.actions[..|net.actions| - 1] == NetRound(init, sent).actions;
    }
  }

  lemma FlushMovesReports(link: Link)
    ensures var flushed := FlushLink(link);
            && Reports(flushed.written) + Reports(flushed.pile) == Reports(link.written) + Reports(link.pile)
            && flushed.mouse == link.mouse
            && flushed.pile == []
  {
    var folded := Coalesce(link.pile);
    var net := NetRound(folded, link.sent).actions;
    FoldKeeps(link.pile, Border(PaneId(0), Up));
    KeepOfKeep(folded, IsLoose, IsButtonReport);
    KeepOfKeep(link.pile, IsLoose, IsButtonReport);
    NetKeepsReports(folded, link.sent);
    KeepOfKeep(net, IsUnspent, IsButtonReport);
    assert Reports(Keep(net, IsUnspent)) == Reports(link.pile);
    ReportsAppend(link.written, Keep(net, IsUnspent));
    ReportsOfNone([]);
    assert link.written + [] == link.written;
    assert Reports(link.written) + [] == Reports(link.written);
  }

  lemma {:induction false} RebaseKeepsReports(pile: seq<MouseAction>, border: Border, applied: int)
    ensures Reports(RebasedPile(pile, border, applied)) == Reports(pile)
  {
    if pile != [] {
      var init, rebased := pile[..|pile| - 1], RebasedPile(pile, border, applied);
      RebaseKeepsReports(init, border, applied);
      assert rebased[..|rebased| - 1] == RebasedPile(init, border, applied);
    }
  }

  lemma {:induction false} AnswersKeepReports(viewer: Viewer, requestId: nat, answers: seq<MouseAnswer>, followUp: ScrollFollowUp)
    requires forall pane, topRow :: HasNoButtonReport(followUp(pane, topRow))
    ensures Reports(TakeAnswers(viewer, requestId, answers, followUp).pendingMouseActions) == Reports(viewer.pendingMouseActions)
    decreases answers
  {
    if answers != [] {
      match answers[0] {
        case Scrolled(pane, topRow) =>
          QueueAddsReports(viewer.pendingMouseActions, followUp(pane, topRow));
          ReportsOfNone(followUp(pane, topRow));
        case Resized(border, step, count) =>
          RebaseKeepsReports(viewer.pendingMouseActions, border, step * count);
      }
      AnswersKeepReports(TakeAnswer(viewer, requestId, answers[0], followUp), requestId, answers[1..], followUp);
    }
  }

  lemma PileExtends(link: Link, mouse: MouseState, actions: seq<MouseAction>)
    requires LinkInvariant(link) && IsSettled(mouse)
    requires Follow(Owes(link.mouse), Reports(actions)) == Some(Owes(mouse))
    ensures LinkInvariant(link.(mouse := mouse, pile := QueueActions(link.pile, actions)))
  {
    var before := Reports(link.written) + Reports(link.pile);
    QueueAddsReports(link.pile, actions);
    FollowAppend(Closed, before, Reports(actions));
    assert before + Reports(actions) == Reports(link.written) + (Reports(link.pile) + Reports(actions));
  }

  lemma StepKeepsLinkInvariant(link: Link, step: LinkStep)
    requires LinkInvariant(link) && IsLegalStep(step)
    ensures LinkInvariant(NextLink(link, step))
  {
    match step
    case MouseEvent(input, frame) =>
      HandleCarriesOn(link.mouse, input, frame);
      var (mouse, actions) := Handle(link.mouse, input, frame);
      PileExtends(link, mouse, actions);
    case FramePainted(frame) => EndingKeepsWhatIsOwed(link.mouse, frame);
    case HeldGesturesEnd =>
    case OtherActions(actions) =>
      ReportsOfNone(actions);
      PileExtends(link, link.mouse, actions);
    case AnswersArrive(requestId, answers, followUp) =>
      AnswersKeepReports(ViewerOf(link), requestId, answers, followUp);
    case RoundFlushes => FlushMovesReports(link);
    case PassEnds =>
      if link.mouse.unreleasedMouseCapture.Some? {
        ReleaseFollows(link.mouse, Owes(link.mouse));
      } else {
        ReportsOfNone(OwedRelease(link.mouse));
      }
      PileExtends(link, Released(link.mouse), OwedRelease(link.mouse));
      FlushMovesReports(link.(mouse := Released(link.mouse), pile := QueueActions(link.pile, OwedRelease(link.mouse))));
    case _ =>
  }

  lemma {:induction false} RunKeepsLinkInvariant(link: Link, steps: seq<LinkStep>)
    requires LinkInvariant(link)
    requires forall step :: step in steps ==> IsLegalStep(step)
    ensures LinkInvariant(RunLink(link, steps))
    decreases steps
  {
    if steps != [] {
      assert forall step :: step in steps[1..] ==> step in steps;
      StepKeepsLinkInvariant(link, steps[0]);
      RunKeepsLinkInvariant(NextLink(link, steps[0]), steps[1..]);
    }
  }

  // Over every run of one link, what was written is a prefix of whole gestures,
  // and at a pass's end what is open is exactly the capture still held.
  lemma WrittenReportsAreWholeGestures(leftButtonGesture: Option<LeftButtonGesture>, isFloatingPaneMoveModeOn: bool,
      firstRequestId: nat, steps: seq<LinkStep>)
    requires forall step :: step in steps ==> IsLegalStep(step)
    ensures var link := RunLink(NewLink(leftButtonGesture, isFloatingPaneMoveModeOn, firstRequestId), steps);
            && IsSettled(link.mouse)
            && Follow(Closed, Reports(link.written)).Some?
            && Follow(Closed, Reports(NextLink(link, PassEnds).written))
               == Some(if link.mouse.mouseCapture.Some? then Opened(link.mouse.mouseCapture.value) else Closed)
  {
    var start := NewLink(leftButtonGesture, isFloatingPaneMoveModeOn, firstRequestId);
    ReportsOfNone([]);
    RunKeepsLinkInvariant(start, steps);
    var link := RunLink(start, steps);
    FollowAppend(Closed, Reports(link.written), Reports(link.pile));
    StepKeepsLinkInvariant(link, PassEnds);
    var ended := NextLink(link, PassEnds);
    FlushMovesReports(link.(mouse := Released(link.mouse), pile := QueueActions(link.pile, OwedRelease(link.mouse))));
    assert Reports(ended.written) + [] == Reports(ended.written);
  }
}
