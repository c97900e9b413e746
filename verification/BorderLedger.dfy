// What a border's written, answered and refused cells add up to: the cells a
// viewer takes off its next move are exactly the ones whose answer has not
// arrived, and a flush commits the position it names.
module BorderLedger {
  import opened Options
  import opened Totals
  import opened MouseActions
  import opened MouseFold
  import opened MouseUplink
  import opened BorderDrag
  import opened BorderConvergence
  import opened BorderLanding

  // ---------------------------------------------------------------------
  // A flush commits the position last named
  // ---------------------------------------------------------------------

  // What the border's newest move asks for, before its count saturates.
  function Remainder(deltas: seq<int>, base: int): int
    requires deltas != []
  {
    var init := deltas[..|deltas| - 1];
    deltas[|deltas| - 1] - base - Sum(NetDeltas(init, base))
  }

  lemma NetSumFallsShort(deltas: seq<int>, base: int)
    requires deltas != []
    ensures var remainder := Remainder(deltas, base);
            base + Sum(NetDeltas(deltas, base)) == deltas[|deltas| - 1] - (remainder - Saturated(remainder))
  {
    var earlier, own := NetDeltas(deltas[..|deltas| - 1], base), Saturated(Remainder(deltas, base));
    SumAppend(earlier, [own]);
    TotalOne(own, Self);
  }

  // What a flush asks for.
  function WrittenMoves(viewer: Viewer, border: Border): seq<int> {
    match FlushRound(viewer).1
    case Some(round) => MovesOf(round.actions, border)
    case None => []
  }

  // The cells in flight and the cells a flush writes come to the distance last
  // named, exactly when the newest move's remainder fits its wire count.
  lemma FlushCommitsLastNamed(viewer: Viewer, border: Border)
    requires LastNamed(viewer.pendingMouseActions, border).Some?
    ensures FoldedMoves(viewer, border) != []
    ensures SentCellDelta(viewer.sentBorderMoves, border) + Sum(WrittenMoves(viewer, border))
              == LastNamed(viewer.pendingMouseActions, border).value
       <==> -MAX_U16 <= Remainder(FoldedMoves(viewer, border), SentCellDelta(viewer.sentBorderMoves, border)) <= MAX_U16
  {
    var base := SentCellDelta(viewer.sentBorderMoves, border);
    FoldKeeps(viewer.pendingMouseActions, border);
    LastNamedIsLastMove(Coalesce(viewer.pendingMouseActions), border);
    FlushWrites(viewer, border);
    NonZeroKeepsSum(NetDeltas(FoldedMoves(viewer, border), base));
    NetSumFallsShort(FoldedMoves(viewer, border), base);
  }

  // ---------------------------------------------------------------------
  // What is remembered is exactly what is in flight
  // ---------------------------------------------------------------------

  datatype Ask = Ask(requestId: nat, cellDelta: int)

  function AsksIn(requestId: nat, deltas: seq<int>): (asks: seq<Ask>)
    ensures |asks| == |deltas|
  {
    seq(|deltas|, i requires 0 <= i < |deltas| => Ask(requestId, deltas[i]))
  }

  // Every move of the border in `rounds`, oldest first.
  function AsksOf(rounds: seq<Round>, border: Border): seq<Ask> {
    if rounds == [] then []
    else AsksIn(rounds[0].requestId, MovesOf(rounds[0].actions, border)) + AsksOf(rounds[1..], border)
  }

  lemma {:induction false} AsksOfAppend(first: seq<Round>, second: seq<Round>, border: Border)
    ensures AsksOf(first + second, border) == AsksOf(first, border) + AsksOf(second, border)
  {
    if first == [] {
      assert first + second == second;
    } else {
      assert (first + second)[1..] == first[1..] + second;
      AsksOfAppend(first[1..], second, border);
    }
  }

  // The remembered moves of the border, oldest first.
  function Remembered(sent: seq<SentBorderMove>, border: Border): seq<Ask> {
    if sent == [] then []
    else (if sent[0].border == border then [Ask(sent[0].requestId, sent[0].requestedCellDelta)] else [])
         + Remembered(sent[1..], border)
  }

  lemma {:induction false} RememberedAppend(first: seq<SentBorderMove>, second: seq<SentBorderMove>, border: Border)
    ensures Remembered(first + second, border) == Remembered(first, border) + Remembered(second, border)
  {
    if first == [] {
      assert first + second == second;
    } else {
      assert (first + second)[1..] == first[1..] + second;
      RememberedAppend(first[1..], second, border);
    }
  }

  function CellsOf(ask: Ask): int { ask.cellDelta }

  lemma {:induction false} SentIsRemembered(sent: seq<SentBorderMove>, border: Border)
    ensures SentCellDelta(sent, border) == Total(Remembered(sent, border), CellsOf)
  {
    if sent != [] {
      TotalFirst(sent, SentCells(border));
      SentIsRemembered(sent[1..], border);
      if sent[0].border == border {
        TotalFirst(Remembered(sent, border), CellsOf);
        assert Remembered(sent, border)[1..] == Remembered(sent[1..], border);
      } else {
        assert Remembered(sent, border) == Remembered(sent[1..], border);
      }
    }
  }

  lemma {:induction false} RecordedAsks(requestId: nat, asked: seq<AskedMove>, border: Border)
    ensures Remembered(RecordAsked(requestId, asked), border) == AsksIn(requestId, AskedOf(asked, border))
  {
    if asked != [] {
      var init, last := asked[..|asked| - 1], asked[|asked| - 1];
      var own := [SentBorderMove(requestId, last.border, last.cellDelta)];
      RecordedAsks(requestId, init, border);
      assert RecordAsked(requestId, asked) == RecordAsked(requestId, init) + own;
      RememberedAppend(RecordAsked(requestId, init), own, border);
      assert own[1..] == [];
      assert Remembered(own, border) == if last.border == border then [Ask(requestId, last.cellDelta)] else [];
    }
  }

  lemma {:induction false} RetireOldest(sent: seq<SentBorderMove>, requestId: nat, border: Border)
    requires Remembered(sent, border) != [] && Remembered(sent, border)[0].requestId == requestId
    ensures Remembered(RetireSentMove(sent, requestId, border), border) == Remembered(sent, border)[1..]
  {
    if sent[0].border != border {
      RetireOldest(sent[1..], requestId, border);
      assert RetireSentMove(sent, requestId, border)[1..] == RetireSentMove(sent[1..], requestId, border);
    }
  }

  lemma {:induction false} RetireOther(sent: seq<SentBorderMove>, requestId: nat, retired: Border, border: Border)
    requires retired != border
    ensures Remembered(RetireSentMove(sent, requestId, retired), border) == Remembered(sent, border)
  {
    if sent != [] && !(sent[0].requestId == requestId && sent[0].border == retired) {
      RetireOther(sent[1..], requestId, retired, border);
      assert RetireSentMove(sent, requestId, retired)[1..] == RetireSentMove(sent[1..], requestId, retired);
    }
  }

  // Taking a round's answers retires exactly that round's moves of the border.
  lemma {:induction false} AnswersRetireRound(viewer: Viewer, requestId: nat, answers: seq<MouseAnswer>, followUp: ScrollFollowUp,
      border: Border, deltas: seq<int>, rest: seq<Ask>)
    requires Remembered(viewer.sentBorderMoves, border) == AsksIn(requestId, deltas) + rest
    requires |AppliedOf(answers, border)| == |deltas|
    ensures Remembered(TakeAnswers(viewer, requestId, answers, followUp).sentBorderMoves, border) == rest
    decreases answers
  {
    if answers == [] {
      assert AsksIn(requestId, deltas) + rest == rest;
    } else {
      var next := TakeAnswer(viewer, requestId, answers[0], followUp);
      AppliedOfFirst(answers, border);
      if AppliedBy(answers[0], border) != [] {
        RetireOldest(viewer.sentBorderMoves, requestId, border);
        assert (AsksIn(requestId, deltas) + rest)[1..] == AsksIn(requestId, deltas[1..]) + rest;
        AnswersRetireRound(next, requestId, answers[1..], followUp, border, deltas[1..], rest);
      } else {
        if answers[0].Resized? {
          RetireOther(viewer.sentBorderMoves, requestId, answers[0].border, border);
        }
        AnswersRetireRound(next, requestId, answers[1..], followUp, border, deltas, rest);
      }
    }
  }

  // ---------------------------------------------------------------------
  // The ledger of a run
  // ---------------------------------------------------------------------

  // Each cell count lies between none and all of what its move asked for.
  predicate IsPartOf(asked: seq<int>, applied: seq<int>) {
    && |applied| == |asked|
    && forall i :: 0 <= i < |asked| ==> 0 <= applied[i] <= asked[i] || asked[i] <= applied[i] <= 0
  }

  lemma PartExtends(asked: seq<int>, applied: seq<int>, ask: int, travelled: int)
    requires IsPartOf(asked, applied)
    requires 0 <= travelled <= ask || ask <= travelled <= 0
    ensures IsPartOf(asked + [ask], applied + [travelled])
  {
  }

  lemma ActionTravelsPart(session: SessionBorders, action: MouseAction, topRows: TopRows, border: Border)
    requires border in session && session[border].least <= session[border].position <= session[border].greatest
    requires action.Resize? ==> action.resizeStep == -1 || action.resizeStep == 1
    ensures var applied := AppliedOf(RunAction(session, action, topRows).1, border);
            if IsMoveOf(action, border)
            then |applied| == 1 && (0 <= applied[0] <= NamedDelta(action) || NamedDelta(action) <= applied[0] <= 0)
            else applied == []
  {
    ActionReportsTravel(session, action, topRows, border);
  }

  lemma {:induction false} RoundTravelsPart(session: SessionBorders, actions: seq<MouseAction>, topRows: TopRows, border: Border)
    requires border in session && session[border].least <= session[border].position <= session[border].greatest
    requires HasUnitSteps(actions)
    ensures IsPartOf(MovesOf(actions, border), AppliedOf(RunRound(session, actions, topRows).1, border))
  {
    if actions != [] {
      var init, last := actions[..|actions| - 1], actions[|actions| - 1];
      assert last in actions && forall action :: action in init ==> action in actions;
      RoundTravelsPart(session, init, topRows, border);
      RoundReportsTravel(session, init, topRows, border);
      var (before, answers) := RunRound(session, init, topRows);
      var more := RunAction(before, last, topRows).1;
      AppliedOfAppend(answers, more, border);
      ActionTravelsPart(before, last, topRows, border);
      if IsMoveOf(last, border) {
        assert AppliedOf(more, border) == [AppliedOf(more, border)[0]];
        PartExtends(MovesOf(init, border), AppliedOf(answers, border), NamedDelta(last), AppliedOf(more, border)[0]);
      } else {
        assert AppliedOf(answers, border) + [] == AppliedOf(answers, border);
        assert MovesOf(actions, border) == MovesOf(init, border);
      }
    }
  }

  function RoundsOf(downlink: seq<RoundAnswer>): (rounds: seq<Round>)
    ensures |rounds| == |downlink|
  {
    seq(|downlink|, i requires 0 <= i < |downlink| => downlink[i].round)
  }

  // What the viewer remembers is what it wrote and no answer has come for.
  predicate IsExact(sent: seq<SentBorderMove>, uplink: seq<Round>, downlink: seq<RoundAnswer>, border: Border) {
    Remembered(sent, border) == AsksOf(RoundsOf(downlink) + uplink, border)
  }

  predicate AnswerParts(downlink: seq<RoundAnswer>, border: Border) {
    forall answer :: answer in downlink ==> IsPartOf(MovesOf(answer.round.actions, border), AppliedOf(answer.answers, border))
  }

  ghost predicate ExactInvariant(system: System, border: Border) {
    && Invariant(system, border)
    && IsExact(system.viewer.sentBorderMoves, system.uplink, system.downlink, border)
    && AnswerParts(system.downlink, border)
  }

  // A step that forgets no remembered move: no resync, and no flush past the
  // `MAX_PENDING_MOUSE_ACTION_COUNT` remembered moves.
  predicate ForgetsNothing(system: System, step: Step) {
    match step
    case ForgetSentMoves => false
    case Flush =>
      |system.viewer.sentBorderMoves|
      + |NetRound(Coalesce(system.viewer.pendingMouseActions), system.viewer.sentBorderMoves).asked| <= MAX_PENDING_MOUSE_ACTION_COUNT
    case _ => true
  }

  lemma FlushStaysExact(viewer: Viewer, uplink: seq<Round>, downlink: seq<RoundAnswer>, border: Border)
    requires IsExact(viewer.sentBorderMoves, uplink, downlink, border)
    requires FlushRound(viewer).1.Some?
    requires |viewer.sentBorderMoves| + |NetRound(Coalesce(viewer.pendingMouseActions), viewer.sentBorderMoves).asked|
             <= MAX_PENDING_MOUSE_ACTION_COUNT
    ensures IsExact(FlushRound(viewer).0.sentBorderMoves, uplink + [FlushRound(viewer).1.value], downlink, border)
  {
    var sent, round := viewer.sentBorderMoves, FlushRound(viewer).1.value;
    var folded := Coalesce(viewer.pendingMouseActions);
    var net := NetRound(folded, sent);
    NetProjects(folded, sent, border);
    UnspentProjects(net.actions, border);
    RememberedAppend(sent, RecordAsked(viewer.nextRequestId, net.asked), border);
    RecordedAsks(viewer.nextRequestId, net.asked, border);
    AsksOfAppend(RoundsOf(downlink) + uplink, [round], border);
    assert [round][1..] == [];
    assert RoundsOf(downlink) + (uplink + [round]) == RoundsOf(downlink) + uplink + [round];
  }

  lemma RoundStaysExact(sent: seq<SentBorderMove>, uplink: seq<Round>, downlink: seq<RoundAnswer>, answer: RoundAnswer, border: Border)
    requires uplink != [] && answer.round == uplink[0] && IsExact(sent, uplink, downlink, border)
    ensures IsExact(sent, uplink[1..], downlink + [answer], border)
  {
    assert RoundsOf(downlink + [answer]) + uplink[1..] == RoundsOf(downlink) + uplink;
  }

  lemma AnswerStaysExact(viewer: Viewer, uplink: seq<Round>, downlink: seq<RoundAnswer>, followUp: ScrollFollowUp, border: Border)
    requires downlink != [] && IsExact(viewer.sentBorderMoves, uplink, downlink, border) && AnswerParts(downlink, border)
    ensures IsExact(TakeAnswers(viewer, downlink[0].round.requestId, downlink[0].answers, followUp).sentBorderMoves,
              uplink, downlink[1..], border)
  {
    var answer, rest := downlink[0], RoundsOf(downlink[1..]) + uplink;
    assert answer in downlink;
    assert (RoundsOf(downlink) + uplink)[1..] == rest;
    AnswersRetireRound(viewer, answer.round.requestId, answer.answers, followUp, border,
      MovesOf(answer.round.actions, border), AsksOf(rest, border));
  }

  lemma RunAddsParts(system: System, topRows: TopRows, border: Border)
    requires ExactInvariant(system, border) && system.uplink != []
    ensures AnswerParts(Next(system, SessionRuns(topRows)).downlink, border)
  {
    hide RunRound, OnTheWay, StaysInLimits;
    var span, round := system.session[border], system.uplink[0];
    InLimitsAtTheEnd(KnownPosition(system, border), OnTheWay(system.downlink, border), span.least, span.greatest);
    RoundTravelsPart(system.session, round.actions, topRows, border);
  }

  lemma StepStaysExact(system: System, step: Step, border: Border)
    requires ExactInvariant(system, border) && ForgetsNothing(system, step)
    ensures ExactInvariant(Next(system, step), border)
  {
    StepKeepsInvariant(system, step, border);
    match step
    case Flush =>
      if FlushRound(system.viewer).1.Some? {
        FlushStaysExact(system.viewer, system.uplink, system.downlink, border);
      } else {
        assert system.uplink + [] == system.uplink;
      }
    case SessionRuns(topRows) =>
      if system.uplink != [] {
        var answers := RunRound(system.session, system.uplink[0].actions, topRows).1;
        RunAddsParts(system, topRows, border);
        RoundStaysExact(system.viewer.sentBorderMoves, system.uplink, system.downlink, RoundAnswer(system.uplink[0], answers), border);
      }
    case AnswerArrives(followUp) =>
      if system.downlink != [] {
        AnswerStaysExact(system.viewer, system.uplink, system.downlink, followUp, border);
      }
    case _ =>
  }

  // The position a border was last flushed to, and the cells refused since.
  datatype Ledger = Ledger(flushedPosition: int, refusedCells: int)

  // The cells a round's answers fall short of what the round asked.
  function Refused(answer: RoundAnswer, border: Border): int {
    Sum(MovesOf(answer.round.actions, border)) - Sum(AppliedOf(answer.answers, border))
  }

  function LedgerNext(system: System, ledger: Ledger, step: Step, border: Border): Ledger
    requires border in system.session
  {
    match step
    case Flush =>
      if LastNamed(system.viewer.pendingMouseActions, border).Some?
      then Ledger(KnownPosition(system, border) + LastNamed(system.viewer.pendingMouseActions, border).value, 0)
      else ledger
    case AnswerArrives(_) =>
      if system.downlink == [] then ledger
      else ledger.(refusedCells := ledger.refusedCells + Refused(system.downlink[0], border))
    case _ => ledger
  }

  // The known border, the cells in flight and the cells refused since the last
  // flush come to the position last flushed.
  predicate Balances(system: System, ledger: Ledger, border: Border)
    requires border in system.session
  {
    KnownPosition(system, border) + SentCellDelta(system.viewer.sentBorderMoves, border) + ledger.refusedCells
    == ledger.flushedPosition
  }

  // A flush whose newest move of the border fits its wire count.
  predicate Fits(system: System, step: Step, border: Border) {
    step.Flush? ==>
      var folded := FoldedMoves(system.viewer, border);
      folded != [] ==> -MAX_U16 <= Remainder(folded, SentCellDelta(system.viewer.sentBorderMoves, border)) <= MAX_U16
  }

  lemma {:induction false} AskedCellsAddUp(requestId: nat, deltas: seq<int>)
    ensures Total(AsksIn(requestId, deltas), CellsOf) == Sum(deltas)
  {
    if deltas != [] {
      AskedCellsAddUp(requestId, deltas[..|deltas| - 1]);
      assert AsksIn(requestId, deltas)[..|deltas| - 1] == AsksIn(requestId, deltas[..|deltas| - 1]);
    }
  }

  lemma FlushAddsWritten(viewer: Viewer, border: Border)
    requires |viewer.sentBorderMoves| + |NetRound(Coalesce(viewer.pendingMouseActions), viewer.sentBorderMoves).asked|
             <= MAX_PENDING_MOUSE_ACTION_COUNT
    ensures SentCellDelta(FlushRound(viewer).0.sentBorderMoves, border)
         == SentCellDelta(viewer.sentBorderMoves, border) + Sum(WrittenMoves(viewer, border))
  {
    if FlushRound(viewer).1.Some? {
      var folded := Coalesce(viewer.pendingMouseActions);
      var net := NetRound(folded, viewer.sentBorderMoves);
      NetProjects(folded, viewer.sentBorderMoves, border);
      UnspentProjects(net.actions, border);
      NonZeroKeepsSum(NetDeltas(MovesOf(folded, border), SentCellDelta(viewer.sentBorderMoves, border)));
      TotalAppend(viewer.sentBorderMoves, RecordAsked(viewer.nextRequestId, net.asked), SentCells(border));
      RecordCounts(viewer.nextRequestId, net.asked, 0, border);
    }
  }

  lemma FlushBalances(system: System, ledger: Ledger, border: Border)
    requires ExactInvariant(system, border) && ForgetsNothing(system, Flush) && Fits(system, Flush, border)
    requires Balances(system, ledger, border)
    ensures Balances(Next(system, Flush), LedgerNext(system, ledger, Flush, border), border)
  {
    var viewer := system.viewer;
    FlushAddsWritten(viewer, border);
    if LastNamed(viewer.pendingMouseActions, border).Some? {
      FlushCommitsLastNamed(viewer, border);
    } else {
      LastNamedIsLastMove(viewer.pendingMouseActions, border);
      FoldNarrows(viewer.pendingMouseActions, border);
      FlushWrites(viewer, border);
    }
  }

  // What a flush asks too little for a border: the part of its newest move past
  // the wire count.
  function SaturatedPart(viewer: Viewer, border: Border): int {
    var folded := FoldedMoves(viewer, border);
    if folded == [] then 0
    else
      var remainder := Remainder(folded, SentCellDelta(viewer.sentBorderMoves, border));
      remainder - Saturated(remainder)
  }

  // The border's cells among the remembered moves a flush lets go of, past the
  // `MAX_PENDING_MOUSE_ACTION_COUNT` newest.
  function ForgottenCells(viewer: Viewer, border: Border): int {
    match FlushRound(viewer).1
    case None => 0
    case Some(_) =>
      var sent := AllRemembered(viewer);
      SentCellDelta(sent[..|sent| - |ForgetOldest(sent)|], border)
  }

  function AllRemembered(viewer: Viewer): seq<SentBorderMove> {
    viewer.sentBorderMoves
    + RecordAsked(viewer.nextRequestId, NetRound(Coalesce(viewer.pendingMouseActions), viewer.sentBorderMoves).asked)
  }

  lemma FlushKeepsUnforgotten(viewer: Viewer, border: Border)
    ensures SentCellDelta(FlushRound(viewer).0.sentBorderMoves, border)
         == SentCellDelta(viewer.sentBorderMoves, border) + Sum(WrittenMoves(viewer, border)) - ForgottenCells(viewer, border)
  {
    hide NetRound, Coalesce, NonZero, NetDeltas, AskedOf, RecordAsked;
    if FlushRound(viewer).1.Some? {
      var folded, sent := Coalesce(viewer.pendingMouseActions), AllRemembered(viewer);
      var net, kept := NetRound(folded, viewer.sentBorderMoves), ForgetOldest(sent);
      NetProjects(folded, viewer.sentBorderMoves, border);
      UnspentProjects(net.actions, border);
      NonZeroKeepsSum(NetDeltas(MovesOf(folded, border), SentCellDelta(viewer.sentBorderMoves, border)));
      TotalAppend(viewer.sentBorderMoves, RecordAsked(viewer.nextRequestId, net.asked), SentCells(border));
      RecordCounts(viewer.nextRequestId, net.asked, 0, border);
      assert sent == sent[..|sent| - |kept|] + kept;
      TotalAppend(sent[..|sent| - |kept|], kept, SentCells(border));
    }
  }

  // What a flush leaves in flight and writes comes to the distance last named,
  // or to what was in flight, less the saturated part.
  lemma FlushFallsShort(viewer: Viewer, border: Border)
    ensures SentCellDelta(viewer.sentBorderMoves, border) + Sum(WrittenMoves(viewer, border)) + SaturatedPart(viewer, border)
         == LastNamed(viewer.pendingMouseActions, border).GetOr(SentCellDelta(viewer.sentBorderMoves, border))
  {
    var base := SentCellDelta(viewer.sentBorderMoves, border);
    FoldKeeps(viewer.pendingMouseActions, border);
    LastNamedIsLastMove(Coalesce(viewer.pendingMouseActions), border);
    FlushWrites(viewer, border);
    NonZeroKeepsSum(NetDeltas(FoldedMoves(viewer, border), base));
    if FoldedMoves(viewer, border) != [] {
      NetSumFallsShort(FoldedMoves(viewer, border), base);
    }
  }

  // After any flush, the books balance exactly when the part its newest move
  // saturates and the cells it forgets cancel out.
  lemma FlushBalancesExactlyWhen(system: System, ledger: Ledger, border: Border)
    requires border in system.session && Balances(system, ledger, border)
    ensures var flushed := Next(system, Flush);
            && border in flushed.session
            && (Balances(flushed, LedgerNext(system, ledger, Flush, border), border)
                <==> SaturatedPart(system.viewer, border) + ForgottenCells(system.viewer, border) == 0)
  {
    hide WrittenMoves, SaturatedPart, ForgottenCells, SentCellDelta, LastNamed, FlushRound;
    FlushKeepsUnforgotten(system.viewer, border);
    FlushFallsShort(system.viewer, border);
  }

  lemma AnswerReturnsCells(viewer: Viewer, uplink: seq<Round>, downlink: seq<RoundAnswer>, followUp: ScrollFollowUp, border: Border)
    requires downlink != [] && IsExact(viewer.sentBorderMoves, uplink, downlink, border) && AnswerParts(downlink, border)
    ensures var after := TakeAnswers(viewer, downlink[0].round.requestId, downlink[0].answers, followUp);
            SentCellDelta(after.sentBorderMoves, border)
            == SentCellDelta(viewer.sentBorderMoves, border) - Sum(MovesOf(downlink[0].round.actions, border))
  {
    var round, rounds := downlink[0].round, RoundsOf(downlink[1..]) + uplink;
    var after := TakeAnswers(viewer, round.requestId, downlink[0].answers, followUp);
    var own, rest := AsksIn(round.requestId, MovesOf(round.actions, border)), AsksOf(rounds, border);
    assert (RoundsOf(downlink) + uplink)[1..] == rounds;
    assert Remembered(viewer.sentBorderMoves, border) == own + rest;
    assert Remembered(after.sentBorderMoves, border) == rest by { AnswerStaysExact(viewer, uplink, downlink, followUp, border); }
    SentIsRemembered(viewer.sentBorderMoves, border);
    SentIsRemembered(after.sentBorderMoves, border);
    TotalAppend(own, rest, CellsOf);
    AskedCellsAddUp(round.requestId, MovesOf(round.actions, border));
  }

  lemma AnswerBalances(system: System, ledger: Ledger, followUp: ScrollFollowUp, border: Border)
    requires ExactInvariant(system, border)
    requires Balances(system, ledger, border)
    ensures ExactInvariant(Next(system, AnswerArrives(followUp)), border)
    ensures Balances(Next(system, AnswerArrives(followUp)), LedgerNext(system, ledger, AnswerArrives(followUp), border), border)
  {
    StepStaysExact(system, AnswerArrives(followUp), border);
    AnswerKeepsInvariant(system, followUp, border);
    if system.downlink != [] {
      AnswerReturnsCells(system.viewer, system.uplink, system.downlink, followUp, border);
    }
  }

  lemma LedgerBalances(system: System, ledger: Ledger, step: Step, border: Border)
    requires ExactInvariant(system, border) && ForgetsNothing(system, step) && Fits(system, step, border)
    requires Balances(system, ledger, border)
    ensures ExactInvariant(Next(system, step), border)
    ensures Balances(Next(system, step), LedgerNext(system, ledger, step, border), border)
  {
    StepStaysExact(system, step, border);
    match step
    case Flush => FlushBalances(system, ledger, border);
    case AnswerArrives(followUp) => AnswerBalances(system, ledger, followUp, border);
    case SessionRuns(topRows) => SessionKeepsInvariant(system, topRows, border);
    case _ =>
  }

  ghost predicate RunFits(system: System, steps: seq<Step>, border: Border)
    decreases steps
  {
    steps != [] ==>
      && ForgetsNothing(system, steps[0])
      && Fits(system, steps[0], border)
      && RunFits(Next(system, steps[0]), steps[1..], border)
  }

  function LedgerAfter(system: System, ledger: Ledger, steps: seq<Step>, border: Border): Ledger
    decreases steps
  {
    if steps == [] || border !in system.session then ledger
    else LedgerAfter(Next(system, steps[0]), LedgerNext(system, ledger, steps[0], border), steps[1..], border)
  }

  // Over every run that forgets no move and saturates no count, the books
  // balance after each step, and what the viewer takes off its next move is
  // exactly what is in flight.
  lemma {:induction false} LedgerBalancesOverRuns(system: System, ledger: Ledger, steps: seq<Step>, border: Border)
    requires ExactInvariant(system, border) && Balances(system, ledger, border)
    requires RunFits(system, steps, border)
    ensures ExactInvariant(Run(system, steps), border)
    ensures Balances(Run(system, steps), LedgerAfter(system, ledger, steps, border), border)
    decreases steps
  {
    if steps != [] {
      LedgerBalances(system, ledger, steps[0], border);
      LedgerBalancesOverRuns(Next(system, steps[0]), LedgerNext(system, ledger, steps[0], border), steps[1..], border);
    }
  }

  // A new link, with nothing written and the border within its limits, starts
  // with balanced books.
  lemma NewLinkBalances(system: System, border: Border)
    requires border in system.session
    requires system.session[border].least <= system.session[border].position <= system.session[border].greatest
    requires system.uplink == [] && system.downlink == [] && system.viewer.sentBorderMoves == []
    ensures ExactInvariant(system, border)
    ensures Balances(system, Ledger(system.session[border].position, 0), border)
  {
    ForgettingAllKeeps(system.uplink, system.downlink, border);
    assert RoundsOf(system.downlink) + system.uplink == [];
  }
}
