// The pile of mouse actions that wait for the next write: how neighbors fold,
// and what an overfull pile drops (crates/koshi-client/src/attach.rs).
module MouseFold {
  import opened Options
  import opened MouseActions

  const MAX_PENDING_MOUSE_ACTION_COUNT: nat := 256

  // ---------------------------------------------------------------------
  // The fold
  // ---------------------------------------------------------------------

  predicate IsOtherAxisBorderMove(held: MouseAction, next: MouseAction) {
    && held.Resize?
    && next.Resize?
    && held.paneId == next.paneId
    && IsHorizontalAxis(held.borderSide) != IsHorizontalAxis(next.borderSide)
  }

  // The action that replaces `tail` when `next` folds into it, or None.
  function FoldMouseAction(tail: MouseAction, next: MouseAction): Option<MouseAction> {
    match (tail, next)
    case (Scroll(pane, up, count), Scroll(nextPane, nextUp, nextCount)) =>
      if pane == nextPane && up == nextUp then Some(Scroll(pane, up, count + nextCount)) else None
    case (AlternateScrollArrows(pane, up, count), AlternateScrollArrows(nextPane, nextUp, nextCount)) =>
      if pane == nextPane && up == nextUp then Some(AlternateScrollArrows(pane, up, count + nextCount)) else None
    case (Resize(pane, side, _, _), Resize(nextPane, nextSide, nextStep, nextCount)) =>
      if pane == nextPane && side == nextSide then Some(Resize(pane, side, nextStep, nextCount)) else None
    case (RunCommand(SetSelection(pane, _)), RunCommand(SetSelection(nextPane, nextSelection))) =>
      if pane == nextPane then Some(RunCommand(SetSelection(nextPane, nextSelection))) else None
    case (_, _) => None
  }

  // `folded` after `next` joins it: a border move looks past the move of the
  // pane's other axis just before it, and every other action at the tail only.
  function PushFolded(folded: seq<MouseAction>, next: MouseAction): seq<MouseAction> {
    var n := |folded|;
    if n >= 2 && IsOtherAxisBorderMove(folded[n - 1], next) then
      match FoldMouseAction(folded[n - 2], next)
      case Some(merged) => folded[n - 2 := merged]
      case None => folded + [next]
    else if n >= 1 then
      match FoldMouseAction(folded[n - 1], next)
      case Some(merged) => folded[n - 1 := merged]
      case None => folded + [next]
    else
      [next]
  }

  function Coalesce(actions: seq<MouseAction>): seq<MouseAction> {
    if actions == [] then []
    else PushFolded(Coalesce(actions[..|actions| - 1]), actions[|actions| - 1])
  }

  method CoalesceMouseActions(actions: seq<MouseAction>) returns (folded: seq<MouseAction>)
    ensures folded == Coalesce(actions)
  {
    folded := [];
    for i := 0 to |actions|
      invariant folded == Coalesce(actions[..i])
    {
      var action := actions[i];
      var unfolded := Some(action);
      var n := |folded|;
      if n >= 2 && IsOtherAxisBorderMove(folded[n - 1], action) {
        match FoldMouseAction(folded[n - 2], action)
        case Some(merged) => folded, unfolded := folded[n - 2 := merged], None;
        case None =>
      } else if n >= 1 {
        match FoldMouseAction(folded[n - 1], action)
        case Some(merged) => folded, unfolded := folded[n - 1 := merged], None;
        case None =>
      }
      if unfolded.Some? {
        folded := folded + [unfolded.value];
      }
      assert actions[..i + 1][..i] == actions[..i];
    }
    assert actions[..|actions|] == actions;
  }

  // ---------------------------------------------------------------------
  // Folding preserves meaning
  // ---------------------------------------------------------------------

  // What a run of mouse actions acts on. A pane's view is the lines it is
  // scrolled up into its history. `namedBorders` holds the distance last named
  // for each border. `rest` is everything else, of any type.
  datatype SessionView<W> = SessionView(
    views: map<PaneId, nat>,
    histories: map<PaneId, nat>,
    selections: map<PaneId, Selection>,
    namedBorders: map<Border, int>,
    arrowKeys: map<PaneId, seq<bool>>,
    rest: W)

  function Lookup<K, V>(m: map<K, V>, key: K, default: V): V {
    if key in m then m[key] else default
  }

  function ScrolledView(view: nat, history: nat, isScrollingUp: bool, lineCount: nat): nat {
    if isScrollingUp then if view + lineCount <= history then view + lineCount else history
    else if lineCount <= view then view - lineCount else 0
  }

  function RepeatKey(isUp: bool, count: nat): seq<bool> {
    seq(count, _ => isUp)
  }

  // One action against `session`. A forward, a floating pane move and a
  // command other than a selection change run `other`, an arbitrary step that
  // may read and change everything, histories and views included.
  function ApplyAction<W>(session: SessionView<W>, action: MouseAction,
      other: (SessionView<W>, MouseAction) -> SessionView<W>): SessionView<W>
  {
    match action
    case Scroll(pane, up, count) =>
      session.(views := session.views[pane :=
        ScrolledView(Lookup(session.views, pane, 0), Lookup(session.histories, pane, 0), up, count)])
    case AlternateScrollArrows(pane, up, count) =>
      session.(arrowKeys := session.arrowKeys[pane := Lookup(session.arrowKeys, pane, []) + RepeatKey(up, count)])
    case Resize(pane, side, step, count) =>
      session.(namedBorders := session.namedBorders[Border(pane, side) := step * count])
    case RunCommand(SetSelection(pane, selection)) =>
      session.(selections := session.selections[pane := selection])
    case _ => other(session, action)
  }

  function RunActions<W>(session: SessionView<W>, actions: seq<MouseAction>,
      other: (SessionView<W>, MouseAction) -> SessionView<W>): SessionView<W>
  {
    if actions == [] then session
    else ApplyAction(RunActions(session, actions[..|actions| - 1], other), actions[|actions| - 1], other)
  }

  lemma ScrollTwice(view: nat, history: nat, up: bool, first: nat, second: nat)
    ensures ScrolledView(ScrolledView(view, history, up, first), history, up, second)
         == ScrolledView(view, history, up, first + second)
  {
  }

  lemma LastUpdateWins<K, V>(m: map<K, V>, key: K, first: V, second: V)
    ensures m[key := first][key := second] == m[key := second]
  {
  }

  lemma ArrowRunsJoin(keys: seq<bool>, up: bool, first: nat, second: nat)
    ensures keys + RepeatKey(up, first) + RepeatKey(up, second) == keys + RepeatKey(up, first + second)
  {
  }

  // Two neighbors that fold do together what the folded action does.
  lemma FoldedPairRuns<W>(session: SessionView<W>, tail: MouseAction, next: MouseAction, merged: MouseAction,
      other: (SessionView<W>, MouseAction) -> SessionView<W>)
    requires FoldMouseAction(tail, next) == Some(merged)
    ensures ApplyAction(ApplyAction(session, tail, other), next, other) == ApplyAction(session, merged, other)
  {
    if tail.Scroll? {
      var pane, up := tail.paneId, tail.isScrollingUp;
      var view, history := Lookup(session.views, pane, 0), Lookup(session.histories, pane, 0);
      var first := ScrolledView(view, history, up, tail.scrollLineCount);
      ScrollTwice(view, history, up, tail.scrollLineCount, next.scrollLineCount);
      LastUpdateWins(session.views, pane, first, ScrolledView(first, history, up, next.scrollLineCount));
    } else if tail.AlternateScrollArrows? {
      var pane, up := tail.paneId, tail.isScrollingUp;
      var keys := Lookup(session.arrowKeys, pane, []);
      var first := keys + RepeatKey(up, tail.arrowCount);
      ArrowRunsJoin(keys, up, tail.arrowCount, next.arrowCount);
      LastUpdateWins(session.arrowKeys, pane, first, first + RepeatKey(up, next.arrowCount));
    } else if tail.Resize? {
      LastUpdateWins(session.namedBorders, Border(tail.paneId, tail.borderSide), NamedDelta(tail), NamedDelta(next));
    } else {
      LastUpdateWins(session.selections, tail.command.selectionPaneId, tail.command.selection, next.command.selection);
    }
  }

  // Border moves of different borders commute, which lets a corner drag's move
  // fold past the move of the other axis.
  lemma BorderMovesCommute<W>(session: SessionView<W>, first: MouseAction, second: MouseAction,
      other: (SessionView<W>, MouseAction) -> SessionView<W>)
    requires IsOtherAxisBorderMove(first, second)
    ensures ApplyAction(ApplyAction(session, first, other), second, other)
         == ApplyAction(ApplyAction(session, second, other), first, other)
  {
    var one := Border(first.paneId, first.borderSide);
    var two := Border(second.paneId, second.borderSide);
    assert one != two;
    var x, y := NamedDelta(first), NamedDelta(second);
    assert session.namedBorders[one := x][two := y] == session.namedBorders[two := y][one := x];
  }

  lemma PushFoldedRuns<W>(session: SessionView<W>, folded: seq<MouseAction>, next: MouseAction,
      other: (SessionView<W>, MouseAction) -> SessionView<W>)
    ensures RunActions(session, PushFolded(folded, next), other)
         == ApplyAction(RunActions(session, folded, other), next, other)
  {
    hide ApplyAction, FoldMouseAction, IsOtherAxisBorderMove;
    var n := |folded|;
    var pushed := PushFolded(folded, next);
    if pushed == folded + [next] {
      assert pushed[..|pushed| - 1] == folded;
    } else if n >= 2 && IsOtherAxisBorderMove(folded[n - 1], next) {
      var head, earlier, tail := folded[..n - 2], folded[n - 2], folded[n - 1];
      var merged := FoldMouseAction(earlier, next).value;
      assert folded[..n - 1][..n - 2] == head;
      assert pushed[..n - 1][..n - 2] == head;
      assert pushed[..n - 1][n - 2] == merged && pushed[n - 1] == tail;
      var start := RunActions(session, head, other);
      assert RunActions(session, folded[..n - 1], other) == ApplyAction(start, earlier, other);
      BorderMovesCommute(ApplyAction(start, earlier, other), tail, next, other);
      FoldedPairRuns(start, earlier, next, merged, other);
    } else {
      var merged := FoldMouseAction(folded[n - 1], next).value;
      assert pushed[..n - 1] == folded[..n - 1];
      FoldedPairRuns(RunActions(session, folded[..n - 1], other), folded[n - 1], next, merged, other);
    }
  }

  // The folded list does what the original does, from every state and for
  // every meaning of the actions that never fold.
  lemma {:induction false} FoldPreservesMeaning<W>(session: SessionView<W>, actions: seq<MouseAction>,
      other: (SessionView<W>, MouseAction) -> SessionView<W>)
    ensures RunActions(session, Coalesce(actions), other) == RunActions(session, actions, other)
  {
    if actions != [] {
      var init, last := actions[..|actions| - 1], actions[|actions| - 1];
      FoldPreservesMeaning(session, init, other);
      PushFoldedRuns(session, Coalesce(init), last, other);
    }
  }

  // ---------------------------------------------------------------------
  // What the fold keeps, read off its meaning
  // ---------------------------------------------------------------------

  // The actions that never fold: reports, floating pane moves and the commands
  // other than selection changes.
  predicate IsLoose(action: MouseAction) {
    action.Forward? || action.MoveFloatingPane? || (action.RunCommand? && action.command.OtherCommand?)
  }

  function LogLoose(session: SessionView<seq<MouseAction>>, action: MouseAction): SessionView<seq<MouseAction>> {
    session.(rest := session.rest + [action])
  }

  function EmptyView(): SessionView<seq<MouseAction>> {
    SessionView(map[], map[], map[], map[], map[], [])
  }

  // The distance last named for `border`, or None when no action names it.
  function LastNamed(actions: seq<MouseAction>, border: Border): Option<int> {
    if actions == [] then None
    else if IsMoveOf(actions[|actions| - 1], border) then Some(NamedDelta(actions[|actions| - 1]))
    else LastNamed(actions[..|actions| - 1], border)
  }

  // What one action adds to the log, and names.
  lemma LogStep(view: SessionView<seq<MouseAction>>, action: MouseAction, border: Border)
    ensures var next := ApplyAction(view, action, LogLoose);
            && next.rest == (if IsLoose(action) then view.rest + [action] else view.rest)
            && (IsMoveOf(action, border) ==> border in next.namedBorders && next.namedBorders[border] == NamedDelta(action))
            && (!IsMoveOf(action, border) ==> (border in next.namedBorders <==> border in view.namedBorders))
            && (!IsMoveOf(action, border) && border in view.namedBorders ==>
                 border in next.namedBorders && next.namedBorders[border] == view.namedBorders[border])
  {
  }

  lemma {:induction false} RunLogs(actions: seq<MouseAction>, border: Border)
    ensures var run := RunActions(EmptyView(), actions, LogLoose);
            && run.rest == Keep(actions, IsLoose)
            && (border in run.namedBorders <==> LastNamed(actions, border).Some?)
            && (border in run.namedBorders ==> LastNamed(actions, border) == Some(run.namedBorders[border]))
  {
    if actions != [] {
      var init, last := actions[..|actions| - 1], actions[|actions| - 1];
      RunLogs(init, border);
      LogStep(RunActions(EmptyView(), init, LogLoose), last, border);
      hide ApplyAction, LogLoose, NamedDelta, IsMoveOf, IsLoose;
    }
  }

  // Every action that never folds leaves the fold, once and in order, and each
  // border's newest named distance stays its newest.
  lemma FoldKeeps(actions: seq<MouseAction>, border: Border)
    ensures Keep(Coalesce(actions), IsLoose) == Keep(actions, IsLoose)
    ensures LastNamed(Coalesce(actions), border) == LastNamed(actions, border)
  {
    FoldPreservesMeaning(EmptyView(), actions, LogLoose);
    RunLogs(actions, border);
    RunLogs(Coalesce(actions), border);
  }

  // ---------------------------------------------------------------------
  // The fold is idempotent
  // ---------------------------------------------------------------------

  // What decides whether two actions fold: everything but the counts.
  datatype Shape =
    | ScrollShape(paneId: PaneId, isUp: bool)
    | ArrowShape(paneId: PaneId, isUp: bool)
    | BorderShape(border: Border)
    | SelectionShape(paneId: PaneId)
    | LooseShape

  function ShapeOf(action: MouseAction): Shape {
    match action
    case Scroll(pane, up, _) => ScrollShape(pane, up)
    case AlternateScrollArrows(pane, up, _) => ArrowShape(pane, up)
    case Resize(pane, side, _, _) => BorderShape(Border(pane, side))
    case RunCommand(SetSelection(pane, _)) => SelectionShape(pane)
    case _ => LooseShape
  }

  lemma FoldsByShape(tail: MouseAction, next: MouseAction)
    ensures FoldMouseAction(tail, next).Some? <==> ShapeOf(tail) == ShapeOf(next) && ShapeOf(next) != LooseShape
    ensures FoldMouseAction(tail, next).Some? ==> ShapeOf(FoldMouseAction(tail, next).value) == ShapeOf(next)
  {
  }

  // No action of `folded` would fold into the ones before it.
  predicate IsFullyFolded(folded: seq<MouseAction>) {
    forall i {:trigger folded[..i]} :: 0 <= i < |folded| ==> PushFolded(folded[..i], folded[i]) == folded[..i] + [folded[i]]
  }

  lemma PushesByShape(folded: seq<MouseAction>, other: seq<MouseAction>, next: MouseAction, otherNext: MouseAction)
    requires |folded| == |other|
    requires forall i :: 0 <= i < |folded| ==> ShapeOf(folded[i]) == ShapeOf(other[i])
    requires ShapeOf(next) == ShapeOf(otherNext)
    requires PushFolded(folded, next) == folded + [next]
    ensures PushFolded(other, otherNext) == other + [otherNext]
  {
    var n := |folded|;
    if n >= 1 {
      FoldsByShape(folded[n - 1], next);
      FoldsByShape(other[n - 1], otherNext);
      assert IsOtherAxisBorderMove(folded[n - 1], next) == IsOtherAxisBorderMove(other[n - 1], otherNext);
      assert |PushFolded(folded, next)| == n + 1;
    }
    if n >= 2 {
      FoldsByShape(folded[n - 2], next);
      FoldsByShape(other[n - 2], otherNext);
    }
  }

  lemma PushKeepsFullyFolded(folded: seq<MouseAction>, next: MouseAction)
    requires IsFullyFolded(folded)
    ensures IsFullyFolded(PushFolded(folded, next))
  {
    var pushed := PushFolded(folded, next);
    var n := |folded|;
    if n >= 1 { FoldsByShape(folded[n - 1], next); }
    if n >= 2 { FoldsByShape(folded[n - 2], next); }
    if pushed == folded + [next] {
      forall i {:trigger pushed[..i]} | 0 <= i < |pushed|
        ensures PushFolded(pushed[..i], pushed[i]) == pushed[..i] + [pushed[i]]
      {
        assert pushed[..i] == folded[..i];
      }
    } else {
      assert |pushed| == n && forall i :: 0 <= i < n ==> ShapeOf(pushed[i]) == ShapeOf(folded[i]);
      forall i {:trigger pushed[..i]} | 0 <= i < n
        ensures PushFolded(pushed[..i], pushed[i]) == pushed[..i] + [pushed[i]]
      {
        PushesByShape(folded[..i], pushed[..i], folded[i], pushed[i]);
      }
    }
  }

  lemma {:induction false} CoalesceIsFullyFolded(actions: seq<MouseAction>)
    ensures IsFullyFolded(Coalesce(actions))
  {
    if actions != [] {
      CoalesceIsFullyFolded(actions[..|actions| - 1]);
      PushKeepsFullyFolded(Coalesce(actions[..|actions| - 1]), actions[|actions| - 1]);
    }
  }

  lemma PrefixIsFullyFolded(folded: seq<MouseAction>, length: nat)
    requires IsFullyFolded(folded) && length < |folded|
    ensures IsFullyFolded(folded[..length])
    ensures PushFolded(folded[..length], folded[length]) == folded[..length] + [folded[length]]
  {
    var init := folded[..length];
    forall i {:trigger init[..i]} | 0 <= i < |init|
      ensures PushFolded(init[..i], init[i]) == init[..i] + [init[i]]
    {
      assert init[..i] == folded[..i];
    }
  }

  lemma {:induction false} FullyFoldedStays(folded: seq<MouseAction>)
    requires IsFullyFolded(folded)
    ensures Coalesce(folded) == folded
  {
    if folded != [] {
      var last := |folded| - 1;
      PrefixIsFullyFolded(folded, last);
      hide IsFullyFolded, PushFolded;
      FullyFoldedStays(folded[..last]);
      assert folded[..last] + [folded[last]] == folded;
    }
  }

  lemma FoldIsIdempotent(actions: seq<MouseAction>)
    ensures Coalesce(Coalesce(actions)) == Coalesce(actions)
  {
    CoalesceIsFullyFolded(actions);
    FullyFoldedStays(Coalesce(actions));
  }

  // ---------------------------------------------------------------------
  // The cap on the pile
  // ---------------------------------------------------------------------

  predicate IsScroll(action: MouseAction) { action.Scroll? }

  predicate IsNoScroll(action: MouseAction) { !action.Scroll? }

  // `actions` without its `excess` oldest scrolls.
  function DropOldestScrolls(actions: seq<MouseAction>, excess: nat): seq<MouseAction> {
    if actions == [] then []
    else if excess > 0 && actions[0].Scroll? then DropOldestScrolls(actions[1..], excess - 1)
    else [actions[0]] + DropOldestScrolls(actions[1..], excess)
  }

  function Excess(actions: seq<MouseAction>): nat {
    if |actions| > MAX_PENDING_MOUSE_ACTION_COUNT then |actions| - MAX_PENDING_MOUSE_ACTION_COUNT else 0
  }

  function QueueActions(pile: seq<MouseAction>, actions: seq<MouseAction>): seq<MouseAction> {
    var extended := pile + actions;
    if |extended| <= MAX_PENDING_MOUSE_ACTION_COUNT then extended
    else DropOldestScrolls(Coalesce(extended), Excess(Coalesce(extended)))
  }

  // The in-place `retain`: one pass with a count of scrolls still to drop.
  method RetainUnderCap(folded: seq<MouseAction>) returns (kept: seq<MouseAction>)
    ensures kept == DropOldestScrolls(folded, Excess(folded))
  {
    kept := [];
    var excessScrollCount := Excess(folded);
    for i := 0 to |folded|
      invariant kept + DropOldestScrolls(folded[i..], excessScrollCount) == DropOldestScrolls(folded, Excess(folded))
    {
      var shouldDropScroll := excessScrollCount > 0 && folded[i].Scroll?;
      if shouldDropScroll {
        excessScrollCount := excessScrollCount - 1;
      } else {
        assert kept + ([folded[i]] + DropOldestScrolls(folded[i + 1..], excessScrollCount))
            == (kept + [folded[i]]) + DropOldestScrolls(folded[i + 1..], excessScrollCount);
        kept := kept + [folded[i]];
      }
      assert folded[i..][1..] == folded[i + 1..];
    }
    assert folded[|folded|..] == [];
  }

  function Least(a: int, b: int): int {
    if a <= b then a else b
  }

  function FirstIf(actions: seq<MouseAction>, keep: MouseAction -> bool): seq<MouseAction> {
    if actions != [] && keep(actions[0]) then [actions[0]] else []
  }

  lemma KeepFirst(actions: seq<MouseAction>, keep: MouseAction -> bool)
    requires actions != []
    ensures Keep(actions, keep) == FirstIf(actions, keep) + Keep(actions[1..], keep)
  {
    assert actions == [actions[0]] + actions[1..];
    KeepAppend([actions[0]], actions[1..], keep);
    assert [actions[0]][..0] == [];
    assert Keep([actions[0]], keep) == FirstIf(actions, keep);
  }

  lemma {:induction false} DropsOldestScrollsOnly(actions: seq<MouseAction>, excess: nat)
    ensures var kept, scrolls := DropOldestScrolls(actions, excess), Keep(actions, IsScroll);
            && Keep(kept, IsNoScroll) == Keep(actions, IsNoScroll)
            && Keep(kept, IsScroll) == scrolls[Least(excess, |scrolls|)..]
            && |kept| == |actions| - Least(excess, |scrolls|)
  {
    if actions != [] {
      var kept := DropOldestScrolls(actions, excess);
      KeepFirst(actions, IsScroll);
      KeepFirst(actions, IsNoScroll);
      if excess > 0 && actions[0].Scroll? {
        DropsOldestScrollsOnly(actions[1..], excess - 1);
      } else {
        DropsOldestScrollsOnly(actions[1..], excess);
        assert kept[1..] == DropOldestScrolls(actions[1..], excess);
        KeepFirst(kept, IsScroll);
        KeepFirst(kept, IsNoScroll);
      }
    }
  }

  // Joining the pile keeps every action but the oldest scrolls of the fold,
  // drops no more of those than the cap asks, and leaves the pile over the cap
  // only when it holds no scroll.
  lemma QueueDropsOldestScrollsOnly(pile: seq<MouseAction>, actions: seq<MouseAction>)
    ensures |pile + actions| <= MAX_PENDING_MOUSE_ACTION_COUNT ==> QueueActions(pile, actions) == pile + actions
    ensures |pile + actions| > MAX_PENDING_MOUSE_ACTION_COUNT ==>
              var queued, folded := QueueActions(pile, actions), Coalesce(pile + actions);
              var scrolls := Keep(folded, IsScroll);
              var dropped := Least(Excess(folded), |scrolls|);
              && Keep(queued, IsNoScroll) == Keep(folded, IsNoScroll)
              && Keep(queued, IsScroll) == scrolls[dropped..]
              && |queued| == |folded| - dropped
    ensures |QueueActions(pile, actions)| > MAX_PENDING_MOUSE_ACTION_COUNT ==> Keep(QueueActions(pile, actions), IsScroll) == []
  {
    if |pile + actions| > MAX_PENDING_MOUSE_ACTION_COUNT {
      var folded := Coalesce(pile + actions);
      DropsOldestScrollsOnly(folded, Excess(folded));
    }
  }

  lemma {:induction false} KeepOfKeep(actions: seq<MouseAction>, outer: MouseAction -> bool, inner: MouseAction -> bool)
    requires forall action :: inner(action) ==> outer(action)
    ensures Keep(Keep(actions, outer), inner) == Keep(actions, inner)
  {
    if actions != [] {
      var init, last := actions[..|actions| - 1], actions[|actions| - 1];
      KeepOfKeep(init, outer, inner);
      if outer(last) {
        KeepAppend(Keep(init, outer), [last], inner);
        assert [last][..0] == [];
        assert Keep([last], inner) == if inner(last) then [last] else [];
      } else {
        assert !inner(last);
        assert Keep(actions, outer) == Keep(init, outer);
      }
    }
  }

  lemma {:induction false} DropKeepsLastNamed(actions: seq<MouseAction>, excess: nat, border: Border)
    ensures LastNamed(DropOldestScrolls(actions, excess), border) == LastNamed(actions, border)
  {
    DropsOldestScrollsOnly(actions, excess);
    LastNamedIgnoresScrolls(actions, border);
    LastNamedIgnoresScrolls(DropOldestScrolls(actions, excess), border);
  }

  lemma {:induction false} LastNamedIgnoresScrolls(actions: seq<MouseAction>, border: Border)
    ensures LastNamed(Keep(actions, IsNoScroll), border) == LastNamed(actions, border)
  {
    if actions != [] {
      var init, last := actions[..|actions| - 1], actions[|actions| - 1];
      LastNamedIgnoresScrolls(init, border);
      var kept := Keep(actions, IsNoScroll);
      if IsNoScroll(last) {
        assert kept[..|kept| - 1] == Keep(init, IsNoScroll);
      } else {
        assert kept == Keep(init, IsNoScroll);
      }
    }
  }

  // No report and no border distance is lost on the way into the pile.
  lemma QueueKeeps(pile: seq<MouseAction>, actions: seq<MouseAction>, border: Border)
    ensures Keep(QueueActions(pile, actions), IsLoose) == Keep(pile, IsLoose) + Keep(actions, IsLoose)
    ensures LastNamed(QueueActions(pile, actions), border) == LastNamed(pile + actions, border)
  {
    KeepAppend(pile, actions, IsLoose);
    if |pile + actions| > MAX_PENDING_MOUSE_ACTION_COUNT {
      var folded := Coalesce(pile + actions);
      FoldKeeps(pile + actions, border);
      DropKeepsLastNamed(folded, Excess(folded), border);
      DropsOldestScrollsOnly(folded, Excess(folded));
      KeepOfKeep(folded, IsNoScroll, IsLoose);
      KeepOfKeep(QueueActions(pile, actions), IsNoScroll, IsLoose);
    }
  }
}
