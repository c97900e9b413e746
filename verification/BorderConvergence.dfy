// What every run of the border protocol keeps: what is in flight, where the
// anchor stands against the border, and where a settled drag leaves the border.
module BorderConvergence {
  import opened Totals
  import opened MouseActions
  import opened MouseFold
  import opened MouseUplink
  import opened BorderDrag

  // ---------------------------------------------------------------------
  // A flush, seen by one border
  // ---------------------------------------------------------------------

  function Saturated(cellDelta: int): int {
    Clamp(cellDelta, -MAX_U16, MAX_U16)
  }

  // What the moves of one border ask for when `base` cells are in flight.
  function NetDeltas(deltas: seq<int>, base: int): seq<int> {
    if deltas == [] then []
    else
      var earlier := NetDeltas(deltas[..|deltas| - 1], base);
      earlier + [Saturated(deltas[|deltas| - 1] - base - Sum(earlier))]
  }

  function NonZero(deltas: seq<int>): seq<int> {
    if deltas == [] then []
    else NonZero(deltas[..|deltas| - 1]) + (if deltas[|deltas| - 1] != 0 then [deltas[|deltas| - 1]] else [])
  }

  // The cells asked of `border`, in order.
  function AskedOf(asked: seq<AskedMove>, border: Border): seq<int> {
    if asked == [] then []
    else AskedOf(asked[..|asked| - 1], border)
         + (if asked[|asked| - 1].border == border then [asked[|asked| - 1].cellDelta] else [])
  }

  // What one move adds to the border's own part of a round.
  function OwnNet(action: MouseAction, sent: seq<SentBorderMove>, asked: seq<AskedMove>, border: Border): seq<int> {
    if IsMoveOf(action, border)
    then [Saturated(NamedDelta(action) - SentCellDelta(sent, border) - AskedCellDelta(asked, border))]
    else []
  }

  lemma AskedPush(asked: seq<AskedMove>, move: AskedMove, border: Border)
    ensures AskedCellDelta(asked + [move], border)
         == AskedCellDelta(asked, border) + (if move.border == border then move.cellDelta else 0)
    ensures AskedOf(asked + [move], border) == AskedOf(asked, border) + (if move.border == border then [move.cellDelta] else [])
  {
    TotalAppend(asked, [move], AskedCells(border));
    TotalOne(move, AskedCells(border));
    assert (asked + [move])[..|asked|] == asked;
  }

  lemma NetPushProjects(earlier: NettedRound, action: MouseAction, sent: seq<SentBorderMove>, border: Border)
    requires HasUnitSteps(earlier.actions)
    ensures var net, own := NetPush(earlier, action, sent), OwnNet(action, sent, earlier.asked, border);
            && MovesOf(net.actions, border) == MovesOf(earlier.actions, border) + own
            && AskedCellDelta(net.asked, border) == AskedCellDelta(earlier.asked, border) + Sum(own)
            && AskedOf(net.asked, border) == AskedOf(earlier.asked, border) + NonZero(own)
            && HasUnitSteps(net.actions)
  {
    hide AskedOf, AskedCellDelta, SentCellDelta;
    var net := NetPush(earlier, action, sent);
    var pushed := net.actions[|net.actions| - 1];
    var own := OwnNet(action, sent, earlier.asked, border);
    assert net.actions == earlier.actions + [pushed];
    assert net.actions[..|net.actions| - 1] == earlier.actions;
    assert own[..0] == [];
    if own != [] {
      assert own == [own[0]];
      TotalOne(own[0], Self);
      assert Border(action.paneId, action.borderSide) == border;
      assert NamedDelta(pushed) == own[0];
    }
    if net.asked != earlier.asked {
      AskedPush(earlier.asked, net.asked[|net.asked| - 1], border);
    }
  }

  lemma {:induction false} NetProjects(round: seq<MouseAction>, sent: seq<SentBorderMove>, border: Border)
    ensures var net := NetRound(round, sent);
            var deltas := NetDeltas(MovesOf(round, border), SentCellDelta(sent, border));
            && MovesOf(net.actions, border) == deltas
            && AskedCellDelta(net.asked, border) == Sum(deltas)
            && AskedOf(net.asked, border) == NonZero(deltas)
            && HasUnitSteps(net.actions)
  {
    if round != [] {
      var init, action := round[..|round| - 1], round[|round| - 1];
      NetProjects(init, sent, border);
      var earlier := NetRound(init, sent);
      var own := OwnNet(action, sent, earlier.asked, border);
      var deltas := NetDeltas(MovesOf(init, border), SentCellDelta(sent, border));
      NetPushProjects(earlier, action, sent, border);
      if IsMoveOf(action, border) {
        var moves := MovesOf(round, border);
        assert moves[..|moves| - 1] == MovesOf(init, border);
        SumAppend(deltas, own);
        assert (deltas + own)[..|deltas|] == deltas;
        assert own[..0] == [];
      } else {
        assert MovesOf(round, border) == MovesOf(init, border);
        assert deltas + own == deltas;
      }
    }
  }

  lemma {:induction false} UnspentProjects(actions: seq<MouseAction>, border: Border)
    requires HasUnitSteps(actions)
    ensures MovesOf(Keep(actions, IsUnspent), border) == NonZero(MovesOf(actions, border))
    ensures HasUnitSteps(Keep(actions, IsUnspent))
  {
    KeepHolds(actions, IsUnspent);
    if actions != [] {
      var init, last := actions[..|actions| - 1], actions[|actions| - 1];
      assert HasUnitSteps(init) by { assert forall action :: action in init ==> action in actions; }
      assert IsMoveOf(last, border) ==> (IsUnspent(last) <==> NamedDelta(last) != 0) by { assert last in actions; }
      UnspentProjects(init, border);
      hide HasUnitSteps, NamedDelta, IsMoveOf, IsUnspent;
      var moves, kept := MovesOf(init, border), Keep(init, IsUnspent);
      assert IsUnspent(last) ==> Keep(actions, IsUnspent) == kept + [last] && (kept + [last])[..|kept|] == kept;
      assert !IsUnspent(last) ==> Keep(actions, IsUnspent) == kept;
      if IsMoveOf(last, border) {
        assert MovesOf(actions, border) == moves + [NamedDelta(last)];
        assert (moves + [NamedDelta(last)])[..|moves|] == moves;
      } else {
        assert MovesOf(actions, border) == moves;
      }
    }
  }

  lemma {:induction false} NonZeroKeepsSum(deltas: seq<int>)
    ensures Sum(NonZero(deltas)) == Sum(deltas)
  {
    if deltas != [] {
      var init, last := deltas[..|deltas| - 1], deltas[|deltas| - 1];
      NonZeroKeepsSum(init);
      assert deltas == init + [last];
      SumAppend(init, [last]);
      TotalOne(last, Self);
      if last != 0 {
        SumAppend(NonZero(init), [last]);
      } else {
        assert NonZero(deltas) == NonZero(init);
      }
    }
  }

  // ---------------------------------------------------------------------
  // What is in flight
  // ---------------------------------------------------------------------

  function SentUnder(requestId: nat, border: Border): SentBorderMove -> int {
    (sent: SentBorderMove) => if sent.requestId == requestId && sent.border == border then 1 else 0
  }

  function WrittenUnder(requestId: nat, border: Border): Round -> int {
    (round: Round) => if round.requestId == requestId then |MovesOf(round.actions, border)| else 0
  }

  function AnsweredUnder(requestId: nat, border: Border): RoundAnswer -> int {
    (answer: RoundAnswer) => if answer.round.requestId == requestId then |AppliedOf(answer.answers, border)| else 0
  }

  // The moves of `border` under `requestId` whose answer has not arrived.
  function Unanswered(uplink: seq<Round>, downlink: seq<RoundAnswer>, requestId: nat, border: Border): int {
    Total(uplink, WrittenUnder(requestId, border)) + Total(downlink, AnsweredUnder(requestId, border))
  }

  predicate IsAwaited(sent: seq<SentBorderMove>, uplink: seq<Round>, downlink: seq<RoundAnswer>, requestId: nat, border: Border) {
    Total(sent, SentUnder(requestId, border)) <= Unanswered(uplink, downlink, requestId, border)
  }

  // Each remembered move still has its answer to come.
  ghost predicate RemembersOnlyUnanswered(sent: seq<SentBorderMove>, uplink: seq<Round>, downlink: seq<RoundAnswer>, border: Border) {
    forall requestId: nat :: IsAwaited(sent, uplink, downlink, requestId, border)
  }

  // Where the border stood when the last answer that arrived was written.
  function KnownPlace(span: BorderSpan, downlink: seq<RoundAnswer>, border: Border): int {
    span.position - Sum(OnTheWay(downlink, border))
  }

  predicate IsPlaceTracked(span: BorderSpan, downlink: seq<RoundAnswer>, border: Border) {
    StaysInLimits(KnownPlace(span, downlink, border), OnTheWay(downlink, border), span.least, span.greatest)
  }

  function KnownPosition(system: System, border: Border): int
    requires border in system.session
  {
    KnownPlace(system.session[border], system.downlink, border)
  }

  predicate HaveUnitSteps(rounds: seq<Round>) {
    forall round :: round in rounds ==> HasUnitSteps(round.actions)
  }

  ghost predicate Invariant(system: System, border: Border) {
    && border in system.session
    && HaveUnitSteps(system.uplink)
    && IsPlaceTracked(system.session[border], system.downlink, border)
    && RemembersOnlyUnanswered(system.viewer.sentBorderMoves, system.uplink, system.downlink, border)
  }

  lemma {:induction false} InLimitsAtTheEnd(start: int, deltas: seq<int>, least: int, greatest: int)
    requires StaysInLimits(start, deltas, least, greatest)
    ensures least <= start + Sum(deltas) <= greatest
    decreases |deltas|
  {
    if deltas != [] {
      InLimitsAtTheEnd(start + deltas[0], deltas[1..], least, greatest);
      TotalFirst(deltas, Self);
    }
  }

  lemma {:induction false} RecordCounts(requestId: nat, asked: seq<AskedMove>, underId: nat, border: Border)
    ensures SentCellDelta(RecordAsked(requestId, asked), border) == AskedCellDelta(asked, border)
    ensures Total(RecordAsked(requestId, asked), SentUnder(underId, border))
         == if underId == requestId then |AskedOf(asked, border)| else 0
  {
    if asked != [] {
      var init := asked[..|asked| - 1];
      var sent := RecordAsked(requestId, asked);
      RecordCounts(requestId, init, underId, border);
      assert sent[..|sent| - 1] == RecordAsked(requestId, init);
    }
  }

  lemma ForgettingKeepsCount(sent: seq<SentBorderMove>, requestId: nat, border: Border)
    ensures Total(ForgetOldest(sent), SentUnder(requestId, border)) <= Total(sent, SentUnder(requestId, border))
  {
    var kept := ForgetOldest(sent);
    var forgotten := sent[..|sent| - |kept|];
    assert sent == forgotten + kept;
    TotalAppend(forgotten, kept, SentUnder(requestId, border));
    TotalNotNegative(forgotten, SentUnder(requestId, border));
  }

  lemma {:induction false} RetiringTakesOne(sent: seq<SentBorderMove>, requestId: nat, border: Border, underId: nat, other: Border)
    ensures var before, after := Total(sent, SentUnder(underId, other)), Total(RetireSentMove(sent, requestId, border), SentUnder(underId, other));
            && 0 <= after <= before
            && (underId == requestId && other == border ==> after == if before > 0 then before - 1 else 0)
  {
    if sent != [] {
      TotalFirst(sent, SentUnder(underId, other));
      var after := RetireSentMove(sent, requestId, border);
      if sent[0].requestId == requestId && sent[0].border == border {
        TotalNotNegative(sent[1..], SentUnder(underId, other));
      } else {
        RetiringTakesOne(sent[1..], requestId, border, underId, other);
        TotalFirst(after, SentUnder(underId, other));
        assert after[1..] == RetireSentMove(sent[1..], requestId, border);
      }
    }
  }

  // Taking a round's answers retires one remembered move of the border for
  // each of them, while any is remembered under that round.
  lemma {:induction false} AnswersRetire(viewer: Viewer, requestId: nat, answers: seq<MouseAnswer>, followUp: ScrollFollowUp,
      underId: nat, border: Border)
    ensures var before := Total(viewer.sentBorderMoves, SentUnder(underId, border));
            var after := Total(TakeAnswers(viewer, requestId, answers, followUp).sentBorderMoves, SentUnder(underId, border));
            var answered := |AppliedOf(answers, border)|;
            && after <= before
            && (underId == requestId ==> after == if answered <= before then before - answered else 0)
    decreases answers
  {
    TotalNotNegative(viewer.sentBorderMoves, SentUnder(underId, border));
    if answers != [] {
      var next := TakeAnswer(viewer, requestId, answers[0], followUp);
      AppliedOfFirst(answers, border);
      AnswersRetire(next, requestId, answers[1..], followUp, underId, border);
      if answers[0].Resized? {
        RetiringTakesOne(viewer.sentBorderMoves, requestId, answers[0].border, underId, border);
        if underId == requestId && answers[0].border != border {
          RetiringSkipsOthers(viewer.sentBorderMoves, requestId, answers[0].border, underId, border);
        }
      }
    }
  }

  lemma {:induction false} RetiringSkipsOthers(sent: seq<SentBorderMove>, requestId: nat, border: Border, underId: nat, other: Border)
    requires other != border
    ensures Total(RetireSentMove(sent, requestId, border), SentUnder(underId, other)) == Total(sent, SentUnder(underId, other))
    ensures SentCellDelta(RetireSentMove(sent, requestId, border), other) == SentCellDelta(sent, other)
  {
    if sent != [] {
      var after := RetireSentMove(sent, requestId, border);
      TotalFirst(sent, SentUnder(underId, other));
      TotalFirst(sent, SentCells(other));
      if !(sent[0].requestId == requestId && sent[0].border == border) {
        RetiringSkipsOthers(sent[1..], requestId, border, underId, other);
        TotalFirst(after, SentUnder(underId, other));
        TotalFirst(after, SentCells(other));
        assert after[1..] == RetireSentMove(sent[1..], requestId, border);
      }
    }
  }

  // ---------------------------------------------------------------------
  // Every step keeps the invariant
  // ---------------------------------------------------------------------

  // The moves a flush remembers are the moves of the round it writes.
  lemma FlushRemembers(viewer: Viewer, uplink: seq<Round>, downlink: seq<RoundAnswer>, border: Border)
    requires RemembersOnlyUnanswered(viewer.sentBorderMoves, uplink, downlink, border)
    requires FlushRound(viewer).1.Some?
    ensures RemembersOnlyUnanswered(FlushRound(viewer).0.sentBorderMoves, uplink + [FlushRound(viewer).1.value], downlink, border)
    ensures HasUnitSteps(FlushRound(viewer).1.value.actions)
  {
    var sent, round := viewer.sentBorderMoves, FlushRound(viewer).1.value;
    var folded := Coalesce(viewer.pendingMouseActions);
    var net := NetRound(folded, sent);
    var recorded := RecordAsked(viewer.nextRequestId, net.asked);
    NetProjects(folded, sent, border);
    UnspentProjects(net.actions, border);
    assert MovesOf(round.actions, border) == AskedOf(net.asked, border);
    forall requestId: nat
      ensures IsAwaited(ForgetOldest(sent + recorded), uplink + [round], downlink, requestId, border)
    {
      assert IsAwaited(sent, uplink, downlink, requestId, border);
      ForgettingKeepsCount(sent + recorded, requestId, border);
      TotalAppend(sent, recorded, SentUnder(requestId, border));
      RecordCounts(viewer.nextRequestId, net.asked, requestId, border);
      TotalAppend(uplink, [round], WrittenUnder(requestId, border));
      TotalOne(round, WrittenUnder(requestId, border));
    }
  }

  lemma FlushKeepsInvariant(system: System, border: Border)
    requires Invariant(system, border)
    ensures Invariant(Next(system, Flush), border)
  {
    if FlushRound(system.viewer).1.Some? {
      FlushRemembers(system.viewer, system.uplink, system.downlink, border);
    } else {
      assert system.uplink + [] == system.uplink;
    }
  }

  lemma OnTheWayJoins(downlink: seq<RoundAnswer>, answer: RoundAnswer, border: Border)
    ensures OnTheWay(downlink + [answer], border) == OnTheWay(downlink, border) + AppliedOf(answer.answers, border)
  {
    OnTheWayAppend(downlink, [answer], border);
    OnTheWayOne(answer, border);
  }

  lemma AnswerJoins(span: BorderSpan, after: BorderSpan, downlink: seq<RoundAnswer>, answer: RoundAnswer, border: Border)
    requires IsPlaceTracked(span, downlink, border)
    requires after == span.(position := span.position + Sum(AppliedOf(answer.answers, border)))
    requires StaysInLimits(span.position, AppliedOf(answer.answers, border), span.least, span.greatest)
    ensures IsPlaceTracked(after, downlink + [answer], border)
    ensures KnownPlace(after, downlink + [answer], border) == KnownPlace(span, downlink, border)
  {
    var known, onTheWay, applied := KnownPlace(span, downlink, border), OnTheWay(downlink, border), AppliedOf(answer.answers, border);
    assert OnTheWay(downlink + [answer], border) == onTheWay + applied by { OnTheWayJoins(downlink, answer, border); }
    assert KnownPlace(after, downlink + [answer], border) == known by { SumAppend(onTheWay, applied); }
    assert StaysInLimits(known, onTheWay + applied, span.least, span.greatest) by { JoinLimits(span, onTheWay, applied); }
  }

  lemma JoinLimits(span: BorderSpan, onTheWay: seq<int>, applied: seq<int>)
    requires StaysInLimits(span.position - Sum(onTheWay), onTheWay, span.least, span.greatest)
    requires StaysInLimits(span.position, applied, span.least, span.greatest)
    ensures StaysInLimits(span.position - Sum(onTheWay), onTheWay + applied, span.least, span.greatest)
    ensures Sum(onTheWay + applied) == Sum(onTheWay) + Sum(applied)
  {
    SumAppend(onTheWay, applied);
    StaysInLimitsAppend(span.position - Sum(onTheWay), onTheWay, applied, span.least, span.greatest);
  }

  lemma AnswerLeaves(span: BorderSpan, downlink: seq<RoundAnswer>, border: Border)
    requires downlink != [] && IsPlaceTracked(span, downlink, border)
    ensures var applied := AppliedOf(downlink[0].answers, border);
            && IsPlaceTracked(span, downlink[1..], border)
            && KnownPlace(span, downlink[1..], border) == KnownPlace(span, downlink, border) + Sum(applied)
            && StaysInLimits(KnownPlace(span, downlink, border), applied, span.least, span.greatest)
  {
    hide OnTheWay, AppliedOf, StaysInLimits;
    var answer, rest := downlink[0], downlink[1..];
    assert downlink == [answer] + rest;
    OnTheWayAppend([answer], rest, border);
    OnTheWayOne(answer, border);
    SumAppend(AppliedOf(answer.answers, border), OnTheWay(rest, border));
    StaysInLimitsAppend(KnownPlace(span, downlink, border), AppliedOf(answer.answers, border), OnTheWay(rest, border),
      span.least, span.greatest);
  }

  lemma RoundBecomesAnswer(sent: seq<SentBorderMove>, uplink: seq<Round>, downlink: seq<RoundAnswer>, answer: RoundAnswer, border: Border)
    requires uplink != [] && RemembersOnlyUnanswered(sent, uplink, downlink, border)
    requires answer.round.requestId == uplink[0].requestId
    requires |AppliedOf(answer.answers, border)| == |MovesOf(uplink[0].actions, border)|
    ensures RemembersOnlyUnanswered(sent, uplink[1..], downlink + [answer], border)
  {
    forall requestId: nat
      ensures IsAwaited(sent, uplink[1..], downlink + [answer], requestId, border)
    {
      assert IsAwaited(sent, uplink, downlink, requestId, border);
      TotalFirst(uplink, WrittenUnder(requestId, border));
      TotalAppend(downlink, [answer], AnsweredUnder(requestId, border));
      TotalOne(answer, AnsweredUnder(requestId, border));
    }
  }

  lemma AnswerRetiresAwaited(viewer: Viewer, uplink: seq<Round>, downlink: seq<RoundAnswer>, followUp: ScrollFollowUp, border: Border)
    requires downlink != [] && RemembersOnlyUnanswered(viewer.sentBorderMoves, uplink, downlink, border)
    ensures RemembersOnlyUnanswered(TakeAnswers(viewer, downlink[0].round.requestId, downlink[0].answers, followUp).sentBorderMoves,
              uplink, downlink[1..], border)
  {
    var answer := downlink[0];
    var sent := TakeAnswers(viewer, answer.round.requestId, answer.answers, followUp).sentBorderMoves;
    forall requestId: nat
      ensures IsAwaited(sent, uplink, downlink[1..], requestId, border)
    {
      assert IsAwaited(viewer.sentBorderMoves, uplink, downlink, requestId, border);
      TotalFirst(downlink, AnsweredUnder(requestId, border));
      AnswersRetire(viewer, answer.round.requestId, answer.answers, followUp, requestId, border);
      TotalNotNegative(uplink, WrittenUnder(requestId, border));
      TotalNotNegative(downlink[1..], AnsweredUnder(requestId, border));
    }
  }

  lemma SessionKeepsInvariant(system: System, topRows: TopRows, border: Border)
    requires Invariant(system, border)
    ensures var next := Next(system, SessionRuns(topRows));
            && Invariant(next, border)
            && KnownPosition(next, border) == KnownPosition(system, border)
            && next.session[border].least == system.session[border].least
            && next.session[border].greatest == system.session[border].greatest
  {
    if system.uplink != [] {
      var span, round := system.session[border], system.uplink[0];
      var (session, answers) := RunRound(system.session, round.actions, topRows);
      var answer := RoundAnswer(round, answers);
      InLimitsAtTheEnd(KnownPosition(system, border), OnTheWay(system.downlink, border), span.least, span.greatest);
      RoundReportsTravel(system.session, round.actions, topRows, border);
      AnswerJoins(span, session[border], system.downlink, answer, border);
      RoundBecomesAnswer(system.viewer.sentBorderMoves, system.uplink, system.downlink, answer, border);
    }
  }

  lemma AnswerKeepsInvariant(system: System, followUp: ScrollFollowUp, border: Border)
    requires Invariant(system, border)
    ensures Invariant(Next(system, AnswerArrives(followUp)), border)
    ensures system.downlink != [] ==>
              KnownPosition(Next(system, AnswerArrives(followUp)), border)
              == KnownPosition(system, border) + Sum(AppliedOf(system.downlink[0].answers, border))
  {
    if system.downlink != [] {
      AnswerLeaves(system.session[border], system.downlink, border);
      AnswerRetiresAwaited(system.viewer, system.uplink, system.downlink, followUp, border);
    }
  }

  lemma ForgettingAllKeeps(uplink: seq<Round>, downlink: seq<RoundAnswer>, border: Border)
    ensures RemembersOnlyUnanswered([], uplink, downlink, border)
  {
    forall requestId: nat
      ensures IsAwaited([], uplink, downlink, requestId, border)
    {
      TotalNotNegative(uplink, WrittenUnder(requestId, border));
      TotalNotNegative(downlink, AnsweredUnder(requestId, border));
    }
  }

  lemma StepKeepsInvariant(system: System, step: Step, border: Border)
    requires Invariant(system, border)
    ensures Invariant(Next(system, step), border)
  {
    match step
    case Flush => FlushKeepsInvariant(system, border);
    case SessionRuns(topRows) => SessionKeepsInvariant(system, topRows, border);
    case AnswerArrives(followUp) => AnswerKeepsInvariant(system, followUp, border);
    case ForgetSentMoves => ForgettingAllKeeps(system.uplink, system.downlink, border);
    case _ =>
  }

  // ---------------------------------------------------------------------
  // The anchor follows the border
  // ---------------------------------------------------------------------

  predicate Holds(viewer: Viewer, border: Border) {
    match viewer.leftButtonGesture
    case Some(BorderResize(drag)) => IsWellFormed(drag) && Grabs(drag, border)
    case _ => false
  }

  // The drag's anchor along the border's own axis.
  function Anchor(viewer: Viewer, border: Border): int
    requires Holds(viewer, border)
  {
    Outward(border.side, viewer.leftButtonGesture.value.resizeDrag.lastAcceptedPosition)
  }

  // Every place from `least` to `greatest` is a cell coordinate on the axis.
  predicate IsOnScreen(side: Direction, least: int, greatest: int) {
    if side.Right? || side.Down? then 0 <= least && greatest <= MAX_U16 else -MAX_U16 <= least && greatest <= 0
  }

  lemma AnchorAdvances(side: Direction, start: Point, resizeStep: i16, acceptedCellCount: u16, other: Direction)
    requires IsOnScreen(side, Outward(side, start) + resizeStep * acceptedCellCount, Outward(side, start) + resizeStep * acceptedCellCount)
    ensures Outward(side, AdvanceResizeAnchor(side, start, resizeStep, acceptedCellCount))
         == Outward(side, start) + resizeStep * acceptedCellCount
    ensures IsHorizontalAxis(other) != IsHorizontalAxis(side) ==>
              Outward(other, AdvanceResizeAnchor(side, start, resizeStep, acceptedCellCount)) == Outward(other, start)
  {
  }

  lemma OtherBorderLeavesAnchor(viewer: Viewer, requestId: nat, answer: MouseAnswer, followUp: ScrollFollowUp, border: Border)
    requires Holds(viewer, border) && !(answer.Resized? && answer.border == border)
    ensures Holds(TakeAnswer(viewer, requestId, answer, followUp), border)
    ensures Anchor(TakeAnswer(viewer, requestId, answer, followUp), border) == Anchor(viewer, border)
  {
  }

  // Taking answers moves the anchor over exactly the cells they report, as
  // long as the cells it passes are on the screen.
  lemma {:induction false} AnswersMoveAnchor(viewer: Viewer, requestId: nat, answers: seq<MouseAnswer>, followUp: ScrollFollowUp,
      border: Border, least: int, greatest: int)
    requires Holds(viewer, border)
    requires IsOnScreen(border.side, least, greatest)
    requires StaysInLimits(Anchor(viewer, border), AppliedOf(answers, border), least, greatest)
    ensures var after := TakeAnswers(viewer, requestId, answers, followUp);
            Holds(after, border) && Anchor(after, border) == Anchor(viewer, border) + Sum(AppliedOf(answers, border))
    decreases answers
  {
    if answers != [] {
      var answer := answers[0];
      var next := TakeAnswer(viewer, requestId, answer, followUp);
      var applied, rest := AppliedOf(answers, border), AppliedOf(answers[1..], border);
      AppliedOfFirst(answers, border);
      SumAppend(AppliedBy(answer, border), rest);
      if answer.Resized? && answer.border == border {
        var drag := viewer.leftButtonGesture.value.resizeDrag;
        var moved := answer.resizeStep * answer.appliedCellCount;
        assert applied[0] == moved && applied[1..] == rest;
        TotalOne(moved, Self);
        assert StaysInLimits(Anchor(viewer, border) + moved, rest, least, greatest);
        AnchorAdvances(border.side, drag.lastAcceptedPosition, answer.resizeStep, answer.appliedCellCount, border.side);
        assert Holds(next, border) && Anchor(next, border) == Anchor(viewer, border) + moved;
      } else {
        OtherBorderLeavesAnchor(viewer, requestId, answer, followUp, border);
        assert applied == rest;
      }
      AnswersMoveAnchor(next, requestId, answers[1..], followUp, border, least, greatest);
    }
  }

  predicate KeepsHolding(step: Step) {
    !step.PressBorder? && !step.LetGo?
  }

  // How far the anchor lies outward of the border the viewer knows of.
  function GrabOffset(system: System, border: Border): int
    requires border in system.session && Holds(system.viewer, border)
  {
    Anchor(system.viewer, border) - KnownPosition(system, border)
  }

  // The grabbed cell stays on the screen wherever the border may stand.
  predicate IsGrabOnScreen(system: System, border: Border)
    requires border in system.session && Holds(system.viewer, border)
  {
    var offset, span := GrabOffset(system, border), system.session[border];
    IsOnScreen(border.side, span.least + offset, span.greatest + offset)
  }

  lemma {:induction false} ShiftLimits(start: int, deltas: seq<int>, least: int, greatest: int, offset: int)
    requires StaysInLimits(start, deltas, least, greatest)
    ensures StaysInLimits(start + offset, deltas, least + offset, greatest + offset)
    decreases deltas
  {
    if deltas != [] {
      ShiftLimits(start + deltas[0], deltas[1..], least, greatest, offset);
    }
  }

  lemma AnswerKeepsHold(system: System, followUp: ScrollFollowUp, border: Border)
    requires Invariant(system, border) && Holds(system.viewer, border) && IsGrabOnScreen(system, border)
    requires system.downlink != []
    ensures var answer := system.downlink[0];
            var after := TakeAnswers(system.viewer, answer.round.requestId, answer.answers, followUp);
            && Holds(after, border)
            && Anchor(after, border) == Anchor(system.viewer, border) + Sum(AppliedOf(answer.answers, border))
  {
    hide TakeAnswers, AppliedOf, StaysInLimits, IsOnScreen;
    var answer, span, offset := system.downlink[0], system.session[border], GrabOffset(system, border);
    AnswerLeaves(span, system.downlink, border);
    ShiftLimits(KnownPosition(system, border), AppliedOf(answer.answers, border), span.least, span.greatest, offset);
    AnswersMoveAnchor(system.viewer, answer.round.requestId, answer.answers, followUp, border, span.least + offset, span.greatest + offset);
  }

  lemma HeldStep(system: System, step: Step, border: Border)
    requires Invariant(system, border) && Holds(system.viewer, border) && IsGrabOnScreen(system, border)
    requires KeepsHolding(step)
    ensures var next := Next(system, step);
            && Invariant(next, border) && Holds(next.viewer, border)
            && GrabOffset(next, border) == GrabOffset(system, border)
            && next.session[border].least == system.session[border].least
            && next.session[border].greatest == system.session[border].greatest
            && IsGrabOnScreen(next, border)
  {
    StepKeepsInvariant(system, step, border);
    match step
    case SessionRuns(topRows) => SessionKeepsInvariant(system, topRows, border);
    case AnswerArrives(followUp) =>
      AnswerKeepsInvariant(system, followUp, border);
      if system.downlink != [] {
        AnswerKeepsHold(system, followUp, border);
      }
    case _ =>
  }

  // Through every interleaving of drag events, other actions, flushes, rounds,
  // answers and forgotten moves, the anchor keeps its distance from the border
  // the viewer knows of.
  lemma {:induction false} AnchorFollowsBorder(system: System, steps: seq<Step>, border: Border)
    requires Invariant(system, border) && Holds(system.viewer, border) && IsGrabOnScreen(system, border)
    requires forall step :: step in steps ==> KeepsHolding(step)
    ensures var after := Run(system, steps);
            && Invariant(after, border) && Holds(after.viewer, border)
            && GrabOffset(after, border) == GrabOffset(system, border)
            && after.session[border].least == system.session[border].least
            && after.session[border].greatest == system.session[border].greatest
            && IsGrabOnScreen(after, border)
    decreases steps
  {
    if steps != [] {
      assert forall step :: step in steps[1..] ==> step in steps;
      HeldStep(system, steps[0], border);
      AnchorFollowsBorder(Next(system, steps[0]), steps[1..], border);
    }
  }
}
