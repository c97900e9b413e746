// One viewer's toast: the shown preview, the previews that wait behind it, and
// the clock that slides it (crates/koshi-client/src/notification_toast.rs).
// Instants and durations count nanoseconds.
module ToastQueue {
  import opened Options
  import opened Notifications

  const MAX_WAITING_TOAST_COUNT: nat := 3
  const NANOSECONDS_PER_MILLISECOND: nat := 1_000_000
  const TOAST_FRAME_MILLISECONDS: nat := 50
  const TOAST_FRAME_INTERVAL: nat := TOAST_FRAME_MILLISECONDS * NANOSECONDS_PER_MILLISECOND
  const NORMAL_SLIDE_DURATION: nat := 1000 * NANOSECONDS_PER_MILLISECOND
  const BACKLOG_PHASE_DURATION: nat := 500 * NANOSECONDS_PER_MILLISECOND
  const FULLY_HIDDEN_PER_MILLE: nat := 1000
  const MAX_U32: nat := 0xffff_ffff

  datatype SummaryMember = SummaryMember(memberId: NotificationId, severity: NotificationSeverity)

  datatype ToastPreview =
    | EntryPreview(entry: NotificationEntry)
    | SummaryPreview(members: seq<SummaryMember>)

  datatype WithdrawSpeed = Normal | Fast

  datatype ToastPhase =
    | Appear
    | Stay
    | Withdraw(startHiddenPerMille: nat, withdrawSpeed: WithdrawSpeed)

  datatype ShownToast = ShownToast(
    toastNumber: nat,
    preview: ToastPreview,
    phase: ToastPhase,
    phaseStartedAt: Option<nat>,
    hiddenPerMille: nat,
    withdrawRequest: Option<WithdrawSpeed>)

  datatype ToastTiming = ToastTiming(stayDuration: nat, shouldReduceMotion: bool)

  datatype Toasts = Toasts(
    shownToast: Option<ShownToast>,
    waitingEntries: seq<NotificationEntry>,
    waitingSummary: Option<seq<SummaryMember>>,
    pausedAt: Option<nat>,
    waitingPreviewSeenAt: Option<nat>,
    shownToastCount: nat)

  const EMPTY_TOASTS := Toasts(None, [], None, None, None, 0)

  // ---------------------------------------------------------------------
  // Phase and slide arithmetic
  // ---------------------------------------------------------------------

  function Least(a: nat, b: nat): nat { if a <= b then a else b }

  function Greatest(a: nat, b: nat): nat { if a <= b then b else a }

  function Since(later: nat, earlier: nat): nat { if earlier <= later then later - earlier else 0 }

  function ComputePhaseDuration(phase: ToastPhase, timing: ToastTiming, hasWaitingPreview: bool): nat {
    if !phase.Stay? && timing.shouldReduceMotion then 0
    else if phase.Withdraw? && phase.withdrawSpeed.Fast? then BACKLOG_PHASE_DURATION
    else if hasWaitingPreview then BACKLOG_PHASE_DURATION
    else if phase.Stay? then timing.stayDuration
    else NORMAL_SLIDE_DURATION
  }

  function ComputePhaseEndedAt(phase: ToastPhase, startedAt: nat, timing: ToastTiming, seenAt: Option<nat>): nat {
    var fullEndedAt := startedAt + ComputePhaseDuration(phase, timing, false);
    match seenAt
    case None => fullEndedAt
    case Some(seen) =>
      Least(Greatest(startedAt + ComputePhaseDuration(phase, timing, true), seen), fullEndedAt)
  }

  function CountElapsedSteps(elapsed: nat): nat {
    elapsed / NANOSECONDS_PER_MILLISECOND / TOAST_FRAME_MILLISECONDS
  }

  function ProgressPerMille(elapsed: nat, duration: nat): nat {
    var milliseconds := duration / NANOSECONDS_PER_MILLISECOND;
    if milliseconds == 0 then 1000
    else Least(CountElapsedSteps(elapsed) * TOAST_FRAME_MILLISECONDS * 1000 / milliseconds, 1000)
  }

  function Scaled(whole: nat, perMille: nat): nat { whole * perMille / 1000 }

  function ComputeHiddenPerMille(phase: ToastPhase, elapsed: nat, duration: nat): nat {
    var progress := ProgressPerMille(elapsed, duration);
    match phase
    case Appear => FULLY_HIDDEN_PER_MILLE - progress
    case Stay => 0
    case Withdraw(start, _) => start + Scaled(Since(FULLY_HIDDEN_PER_MILLE, start), progress)
  }

  // ---------------------------------------------------------------------
  // The queue
  // ---------------------------------------------------------------------

  predicate HasWaitingPreview(toasts: Toasts) {
    toasts.waitingEntries != [] || toasts.waitingSummary.Some?
  }

  function MemberOf(entry: NotificationEntry): SummaryMember {
    SummaryMember(entry.notificationId, entry.severity)
  }

  function MemberIds(members: seq<SummaryMember>): (ids: seq<NotificationId>)
    ensures |ids| == |members|
  {
    seq(|members|, i requires 0 <= i < |members| => members[i].memberId)
  }

  function EntryIds(entries: seq<NotificationEntry>): (ids: seq<NotificationId>)
    ensures |ids| == |entries|
  {
    seq(|entries|, i requires 0 <= i < |entries| => entries[i].notificationId)
  }

  function PreviewIds(preview: ToastPreview): seq<NotificationId> {
    match preview
    case EntryPreview(entry) => [entry.notificationId]
    case SummaryPreview(members) => MemberIds(members)
  }

  function ShowPreview(toasts: Toasts, preview: ToastPreview): Toasts {
    toasts.(
      shownToast := Some(ShownToast(toasts.shownToastCount, preview, Appear, None, FULLY_HIDDEN_PER_MILLE, None)),
      shownToastCount := toasts.shownToastCount + 1)
  }

  function ShowNextPreview(toasts: Toasts): Toasts {
    if toasts.waitingEntries != [] then
      ShowPreview(toasts.(waitingEntries := toasts.waitingEntries[1..]), EntryPreview(toasts.waitingEntries[0]))
    else
      match toasts.waitingSummary
      case Some(members) => ShowPreview(toasts.(waitingSummary := None), SummaryPreview(members))
      case None => toasts.(shownToast := None)
  }

  function UpdatedEntry(held: NotificationEntry, changed: NotificationEntry): NotificationEntry {
    if held.notificationId == changed.notificationId then changed else held
  }

  function UpdatedEntries(entries: seq<NotificationEntry>, changed: NotificationEntry): (updated: seq<NotificationEntry>)
    ensures |updated| == |entries|
  {
    seq(|entries|, i requires 0 <= i < |entries| => UpdatedEntry(entries[i], changed))
  }

  function UpdatedShown(shown: Option<ShownToast>, changed: NotificationEntry): Option<ShownToast> {
    match shown
    case Some(toast) =>
      if toast.preview.EntryPreview? then Some(toast.(preview := EntryPreview(UpdatedEntry(toast.preview.entry, changed)))) else shown
    case None => None
  }

  // Every id a preview shows or a summary counts: shown, then waiting, then the
  // waiting summary.
  function ShownIds(toasts: Toasts): seq<NotificationId> {
    match toasts.shownToast case Some(toast) => PreviewIds(toast.preview) case None => []
  }

  function SummaryIds(toasts: Toasts): seq<NotificationId> {
    match toasts.waitingSummary case Some(members) => MemberIds(members) case None => []
  }

  function PreviewedIds(toasts: Toasts): seq<NotificationId> {
    ShownIds(toasts) + EntryIds(toasts.waitingEntries) + SummaryIds(toasts)
  }

  function UpdatePreviews(toasts: Toasts, changed: NotificationEntry): (Toasts, bool) {
    (toasts.(shownToast := UpdatedShown(toasts.shownToast, changed),
       waitingEntries := UpdatedEntries(toasts.waitingEntries, changed)),
     changed.notificationId in PreviewedIds(toasts))
  }

  function QueuePreview(toasts: Toasts, arrived: NotificationEntry): Toasts {
    var (updated, hasPreview) := UpdatePreviews(toasts, arrived);
    if hasPreview then updated
    else if updated.waitingSummary.Some? then
      updated.(waitingSummary := Some(updated.waitingSummary.value + [MemberOf(arrived)]))
    else if updated.shownToast.None? then ShowPreview(updated, EntryPreview(arrived))
    else if |updated.waitingEntries| < MAX_WAITING_TOAST_COUNT then
      updated.(waitingEntries := updated.waitingEntries + [arrived])
    else updated.(waitingSummary := Some([MemberOf(arrived)]))
  }

  predicate IsReplaced(id: NotificationId, replacedIds: seq<NotificationId>, replacing: NotificationEntry) {
    id == replacing.notificationId || id in replacedIds
  }

  // The members with the first replaced one renamed and the others gone. With
  // `isPreviewed`, every replaced one goes.
  function RepointMembers(members: seq<SummaryMember>, replacedIds: seq<NotificationId>, replacing: NotificationEntry, isPreviewed: bool)
    : (seq<SummaryMember>, bool)
  {
    if members == [] then ([], isPreviewed)
    else if !IsReplaced(members[0].memberId, replacedIds, replacing) then
      var (rest, previewed) := RepointMembers(members[1..], replacedIds, replacing, isPreviewed);
      ([members[0]] + rest, previewed)
    else
      var (rest, previewed) := RepointMembers(members[1..], replacedIds, replacing, true);
      (if isPreviewed then rest else [MemberOf(replacing)] + rest, previewed)
  }

  function RepointEntries(entries: seq<NotificationEntry>, replacedIds: seq<NotificationId>, replacing: NotificationEntry, isPreviewed: bool)
    : (seq<NotificationEntry>, bool)
  {
    if entries == [] then ([], isPreviewed)
    else if !IsReplaced(entries[0].notificationId, replacedIds, replacing) then
      var (rest, previewed) := RepointEntries(entries[1..], replacedIds, replacing, isPreviewed);
      ([entries[0]] + rest, previewed)
    else
      var (rest, previewed) := RepointEntries(entries[1..], replacedIds, replacing, true);
      (if isPreviewed then rest else [replacing] + rest, previewed)
  }

  // What the pass keeps of the entry at `index`, if anything.
  function RepointOne(entry: NotificationEntry, replacedIds: seq<NotificationId>, replacing: NotificationEntry, isPreviewed: bool): seq<NotificationEntry> {
    if !IsReplaced(entry.notificationId, replacedIds, replacing) then [entry] else if isPreviewed then [] else [replacing]
  }

  lemma RepointFirst(entries: seq<NotificationEntry>, index: nat, replacedIds: seq<NotificationId>, replacing: NotificationEntry, isPreviewed: bool)
    requires index < |entries|
    ensures var isPreviewedThen := isPreviewed || IsReplaced(entries[index].notificationId, replacedIds, replacing);
            var (rest, previewed) := RepointEntries(entries[index + 1..], replacedIds, replacing, isPreviewedThen);
            RepointEntries(entries[index..], replacedIds, replacing, isPreviewed)
            == (RepointOne(entries[index], replacedIds, replacing, isPreviewed) + rest, previewed)
  {
    assert entries[index..][0] == entries[index] && entries[index..][1..] == entries[index + 1..];
    assert forall rest: seq<NotificationEntry> :: [] + rest == rest;
  }

  function RepointShown(shown: Option<ShownToast>, replacedIds: seq<NotificationId>, replacing: NotificationEntry): (Option<ShownToast>, bool) {
    match shown
    case None => (None, false)
    case Some(toast) =>
      match toast.preview
      case EntryPreview(entry) =>
        if IsReplaced(entry.notificationId, replacedIds, replacing)
        then (Some(toast.(preview := EntryPreview(replacing))), true) else (shown, false)
      case SummaryPreview(members) =>
        var (kept, previewed) := RepointMembers(members, replacedIds, replacing, false);
        (Some(toast.(preview := SummaryPreview(kept))), previewed)
  }

  function OmitEmpty(members: seq<SummaryMember>): Option<seq<SummaryMember>> {
    if members == [] then None else Some(members)
  }

  function RepointPreviews(toasts: Toasts, replacedIds: seq<NotificationId>, replacing: NotificationEntry): Toasts {
    var (shown, afterShown) := RepointShown(toasts.shownToast, replacedIds, replacing);
    var (entries, afterEntries) := RepointEntries(toasts.waitingEntries, replacedIds, replacing, afterShown);
    toasts.(shownToast := shown, waitingEntries := entries,
      waitingSummary :=
        if toasts.waitingSummary.Some?
        then OmitEmpty(RepointMembers(toasts.waitingSummary.value, replacedIds, replacing, afterEntries).0)
        else None)
  }

  function EntriesWithout(entries: seq<NotificationEntry>, id: NotificationId): seq<NotificationEntry> {
    if entries == [] then []
    else (if entries[0].notificationId != id then [entries[0]] else []) + EntriesWithout(entries[1..], id)
  }

  function MembersWithout(members: seq<SummaryMember>, id: NotificationId): seq<SummaryMember> {
    if members == [] then []
    else (if members[0].memberId != id then [members[0]] else []) + MembersWithout(members[1..], id)
  }

  function RemoveWaiting(toasts: Toasts, id: NotificationId): Toasts {
    toasts.(waitingEntries := EntriesWithout(toasts.waitingEntries, id),
      waitingSummary := if toasts.waitingSummary.Some? then OmitEmpty(MembersWithout(toasts.waitingSummary.value, id)) else None)
  }

  function RemovePreviews(toasts: Toasts, id: NotificationId): Toasts {
    var waiting := RemoveWaiting(toasts, id);
    match toasts.shownToast
    case None => waiting
    case Some(toast) =>
      match toast.preview
      case EntryPreview(entry) =>
        if entry.notificationId == id then waiting.(shownToast := Some(toast.(withdrawRequest := Some(Fast)))) else waiting
      case SummaryPreview(members) =>
        var kept := waiting.(shownToast := Some(toast.(preview := SummaryPreview(MembersWithout(members, id)))));
        if MembersWithout(members, id) == [] then ShowNextPreview(kept) else kept
  }

  function RequestWithdraw(toasts: Toasts): Toasts {
    match toasts.shownToast
    case Some(toast) =>
      if !toast.phase.Withdraw? && toast.withdrawRequest.None?
      then toasts.(shownToast := Some(toast.(withdrawRequest := Some(Normal)))) else toasts
    case None => toasts
  }

  function ClearPreviews(toasts: Toasts): Toasts {
    toasts.(shownToast := None, waitingEntries := [], waitingSummary := None)
  }

  // ---------------------------------------------------------------------
  // The clock
  // ---------------------------------------------------------------------

  // One turn of the clock's loop: it halts, or it ran and goes around again.
  datatype Turn = Halted(toasts: Toasts) | Ran(toasts: Toasts, isPreviewChanged: bool)

  function SeenAt(toasts: Toasts, currentTime: nat): Option<nat> {
    if HasWaitingPreview(toasts) then Some(toasts.waitingPreviewSeenAt.GetOr(currentTime)) else None
  }

  function NextPhase(phase: ToastPhase): ToastPhase
    requires !phase.Withdraw?
  {
    if phase.Appear? then Stay else Withdraw(0, Normal)
  }

  function TurnClock(toasts: Toasts, currentTime: nat, timing: ToastTiming): Turn {
    var seen := toasts.(waitingPreviewSeenAt := SeenAt(toasts, currentTime));
    if seen.shownToast.None? then Halted(seen)
    else
      var startedAt := seen.shownToast.value.phaseStartedAt.GetOr(currentTime);
      var toast := seen.shownToast.value.(phaseStartedAt := Some(startedAt));
      var endedAt := ComputePhaseEndedAt(toast.phase, startedAt, timing, seen.waitingPreviewSeenAt);
      var hidden := ComputeHiddenPerMille(toast.phase, Since(currentTime, startedAt), Since(endedAt, startedAt));
      if toast.withdrawRequest.Some? then
        if hidden == FULLY_HIDDEN_PER_MILLE then Ran(ShowNextPreview(seen), true)
        else
          Ran(seen.(shownToast := Some(toast.(
                phase := Withdraw(hidden, toast.withdrawRequest.value),
                phaseStartedAt := Some(currentTime),
                withdrawRequest := None))), false)
      else if currentTime < endedAt then
        Halted(seen.(shownToast := Some(toast.(hiddenPerMille := hidden))))
      else if toast.phase.Withdraw? then
        Ran(ShowNextPreview(seen), true)
      else
        Ran(seen.(shownToast := Some(toast.(phase := NextPhase(toast.phase), phaseStartedAt := Some(endedAt)))), false)
  }

  function PreviewCount(toasts: Toasts): nat {
    (if toasts.shownToast.Some? then 1 else 0) + |toasts.waitingEntries| + (if toasts.waitingSummary.Some? then 1 else 0)
  }

  function PhaseRank(toast: ShownToast): nat {
    (if toast.withdrawRequest.Some? then 3 else 0)
    + (match toast.phase case Appear => 2 case Stay => 1 case Withdraw(_, _) => 0)
  }

  // What the clock still has to run through: the previews, and the request and
  // phases of the shown one.
  function ClockRank(toasts: Toasts): nat {
    6 * PreviewCount(toasts) + (if toasts.shownToast.Some? then PhaseRank(toasts.shownToast.value) else 0)
  }

  // A turn that goes around again drops a preview, takes the request, or ends
  // a phase, whatever the phase lengths are.
  lemma TurnDescends(toasts: Toasts, currentTime: nat, timing: ToastTiming)
    ensures var turn := TurnClock(toasts, currentTime, timing);
            turn.Ran? ==> ClockRank(turn.toasts) < ClockRank(toasts)
  {
  }

  // The clock's loop.
  function RunClock(toasts: Toasts, currentTime: nat, timing: ToastTiming): (Toasts, bool)
    decreases ClockRank(toasts)
  {
    TurnDescends(toasts, currentTime, timing);
    match TurnClock(toasts, currentTime, timing)
    case Halted(halted) => (halted, false)
    case Ran(ran, changed) =>
      var (after, changedLater) := RunClock(ran, currentTime, timing);
      (after, changed || changedLater)
  }

  // The clock runs again: the shown phase resumes where it stopped.
  function Resume(toasts: Toasts, currentTime: nat): Toasts {
    match toasts.pausedAt
    case None => toasts
    case Some(pausedAt) =>
      var running := toasts.(pausedAt := None);
      if running.shownToast.Some? && running.shownToast.value.phaseStartedAt.Some?
      then
        var toast := running.shownToast.value;
        running.(shownToast := Some(toast.(phaseStartedAt := Some(toast.phaseStartedAt.value + Since(currentTime, pausedAt)))))
      else running
  }

  function Advance(toasts: Toasts, currentTime: nat, timing: ToastTiming, isPaused: bool): (Toasts, bool) {
    if isPaused then (toasts.(pausedAt := Some(toasts.pausedAt.GetOr(currentTime))), false)
    else RunClock(Resume(toasts, currentTime), currentTime, timing)
  }

  function FindNextWakeup(toasts: Toasts, currentTime: nat, timing: ToastTiming): Option<nat> {
    if toasts.pausedAt.Some? || toasts.shownToast.None? then None
    else
      var toast := toasts.shownToast.value;
      if toast.phaseStartedAt.None? || toast.withdrawRequest.Some? then Some(0)
      else
        var startedAt := toast.phaseStartedAt.value;
        var endedAt := ComputePhaseEndedAt(toast.phase, startedAt, timing, SeenAt(toasts, currentTime));
        var nextStepAt := startedAt + TOAST_FRAME_INTERVAL * Least(CountElapsedSteps(Since(currentTime, startedAt)) + 1, MAX_U32);
        Some(Since(if toast.phase.Stay? then endedAt else Least(nextStepAt, endedAt), currentTime))
  }

  // ---------------------------------------------------------------------
  // Runs
  // ---------------------------------------------------------------------

  // What the history asks of the queue between two ticks of the clock.
  datatype ToastChange =
    | Preview(entry: NotificationEntry)
    | Repeat(entry: NotificationEntry)
    | Replace(replacedIds: seq<NotificationId>, entry: NotificationEntry)
    | Drop(id: NotificationId)
    | Withdrawal
    | Clear

  datatype ToastStep =
    | Change(change: ToastChange)
    | Tick(currentTime: nat, timing: ToastTiming, isPaused: bool)

  function ApplyChange(toasts: Toasts, change: ToastChange): Toasts {
    match change
    case Preview(entry) => QueuePreview(toasts, entry)
    case Repeat(entry) => UpdatePreviews(toasts, entry).0
    case Replace(replacedIds, entry) => RepointPreviews(toasts, replacedIds, entry)
    case Drop(id) => RemovePreviews(toasts, id)
    case Withdrawal => RequestWithdraw(toasts)
    case Clear => ClearPreviews(toasts)
  }

  function ApplyStep(toasts: Toasts, step: ToastStep): Toasts {
    match step
    case Change(change) => ApplyChange(toasts, change)
    case Tick(currentTime, timing, isPaused) => Advance(toasts, currentTime, timing, isPaused).0
  }

  function RunSteps(toasts: Toasts, steps: seq<ToastStep>): Toasts {
    if steps == [] then toasts else ApplyStep(RunSteps(toasts, steps[..|steps| - 1]), steps[|steps| - 1])
  }

  // ---------------------------------------------------------------------
  // The toast queue as its methods update it
  // ---------------------------------------------------------------------

  class NotificationToastQueue {
    var shownToast: Option<ShownToast>
    var waitingEntries: seq<NotificationEntry>
    var waitingSummary: Option<seq<SummaryMember>>
    var pausedAt: Option<nat>
    var waitingPreviewSeenAt: Option<nat>
    var shownToastCount: nat

    ghost function State(): Toasts
      reads this
    {
      Toasts(shownToast, waitingEntries, waitingSummary, pausedAt, waitingPreviewSeenAt, shownToastCount)
    }

    constructor ()
      ensures State() == EMPTY_TOASTS
    {
      shownToast, waitingEntries, waitingSummary := None, [], None;
      pausedAt, waitingPreviewSeenAt, shownToastCount := None, None, 0;
    }

    method ShowPreviewNow(preview: ToastPreview)
      modifies this
      ensures State() == ShowPreview(old(State()), preview)
    {
      shownToast := Some(ShownToast(shownToastCount, preview, Appear, None, FULLY_HIDDEN_PER_MILLE, None));
      shownToastCount := shownToastCount + 1;
    }

    method ShowNext()
      modifies this
      ensures State() == ShowNextPreview(old(State()))
    {
      if waitingEntries != [] {
        var first := waitingEntries[0];
        waitingEntries := waitingEntries[1..];
        ShowPreviewNow(EntryPreview(first));
      } else if waitingSummary.Some? {
        var members := waitingSummary.value;
        waitingSummary := None;
        ShowPreviewNow(SummaryPreview(members));
      } else {
        shownToast := None;
      }
    }

    method Update(changed: NotificationEntry) returns (hasPreview: bool)
      modifies this
      ensures (State(), hasPreview) == UpdatePreviews(old(State()), changed)
    {
      ghost var before := State();
      hasPreview := false;
      if shownToast.Some? {
        var toast := shownToast.value;
        match toast.preview {
          case EntryPreview(entry) =>
            if entry.notificationId == changed.notificationId {
              shownToast := Some(toast.(preview := EntryPreview(changed)));
              hasPreview := true;
            }
          case SummaryPreview(members) =>
            hasPreview := changed.notificationId in MemberIds(members);
        }
      }
      assert hasPreview == (changed.notificationId in ShownIds(before));
      for i := 0 to |waitingEntries|
        invariant State() == before.(shownToast := UpdatedShown(before.shownToast, changed), waitingEntries := waitingEntries)
        invariant |waitingEntries| == |before.waitingEntries|
        invariant forall j :: 0 <= j < i ==> waitingEntries[j] == UpdatedEntry(before.waitingEntries[j], changed)
        invariant forall j :: i <= j < |waitingEntries| ==> waitingEntries[j] == before.waitingEntries[j]
        invariant hasPreview == (changed.notificationId in ShownIds(before) + EntryIds(before.waitingEntries[..i]))
      {
        assert EntryIds(before.waitingEntries[..i + 1])
            == EntryIds(before.waitingEntries[..i]) + [before.waitingEntries[i].notificationId];
        if waitingEntries[i].notificationId == changed.notificationId {
          waitingEntries := waitingEntries[i := changed];
          hasPreview := true;
        }
      }
      assert before.waitingEntries[..|before.waitingEntries|] == before.waitingEntries;
      assert waitingEntries == UpdatedEntries(before.waitingEntries, changed);
      hasPreview := hasPreview || (waitingSummary.Some? && changed.notificationId in MemberIds(waitingSummary.value));
    }

    method Queue(arrived: NotificationEntry)
      modifies this
      ensures State() == QueuePreview(old(State()), arrived)
    {
      var hasPreview := Update(arrived);
      if hasPreview {
        return;
      }
      if waitingSummary.Some? {
        waitingSummary := Some(waitingSummary.value + [MemberOf(arrived)]);
      } else if shownToast.None? {
        ShowPreviewNow(EntryPreview(arrived));
      } else if |waitingEntries| < MAX_WAITING_TOAST_COUNT {
        waitingEntries := waitingEntries + [arrived];
      } else {
        waitingSummary := Some([MemberOf(arrived)]);
      }
    }

    // The in-place pass over the waiting entries.
    method RepointWaiting(replacedIds: seq<NotificationId>, replacing: NotificationEntry, wasPreviewed: bool)
      returns (isPreviewed: bool)
      modifies this`waitingEntries
      ensures (waitingEntries, isPreviewed) == RepointEntries(old(waitingEntries), replacedIds, replacing, wasPreviewed)
    {
      isPreviewed := wasPreviewed;
      var kept: seq<NotificationEntry> := [];
      ghost var (all, last) := RepointEntries(waitingEntries, replacedIds, replacing, wasPreviewed);
      for i := 0 to |waitingEntries|
        invariant waitingEntries == old(waitingEntries)
        invariant kept + RepointEntries(waitingEntries[i..], replacedIds, replacing, isPreviewed).0 == all
        invariant RepointEntries(waitingEntries[i..], replacedIds, replacing, isPreviewed).1 == last
      {
        RepointFirst(waitingEntries, i, replacedIds, replacing, isPreviewed);
        ghost var (later, _) := RepointEntries(waitingEntries[i + 1..], replacedIds, replacing,
          isPreviewed || IsReplaced(waitingEntries[i].notificationId, replacedIds, replacing));
        assert kept + (RepointOne(waitingEntries[i], replacedIds, replacing, isPreviewed) + later)
            == (kept + RepointOne(waitingEntries[i], replacedIds, replacing, isPreviewed)) + later;
        assert kept + [] == kept;
        if !IsReplaced(waitingEntries[i].notificationId, replacedIds, replacing) {
          kept := kept + [waitingEntries[i]];
        } else if !isPreviewed {
          kept := kept + [replacing];
          isPreviewed := true;
        }
      }
      assert waitingEntries[|waitingEntries|..] == [] && kept + [] == kept;
      waitingEntries := kept;
    }

    method Repoint(replacedIds: seq<NotificationId>, replacing: NotificationEntry)
      modifies this
      ensures State() == RepointPreviews(old(State()), replacedIds, replacing)
    {
      var isPreviewed;
      shownToast, isPreviewed := RepointShown(shownToast, replacedIds, replacing).0, RepointShown(shownToast, replacedIds, replacing).1;
      isPreviewed := RepointWaiting(replacedIds, replacing, isPreviewed);
      if waitingSummary.Some? {
        waitingSummary := OmitEmpty(RepointMembers(waitingSummary.value, replacedIds, replacing, isPreviewed).0);
      }
    }

    method Remove(id: NotificationId)
      modifies this
      ensures State() == RemovePreviews(old(State()), id)
    {
      waitingEntries := EntriesWithout(waitingEntries, id);
      if waitingSummary.Some? {
        waitingSummary := OmitEmpty(MembersWithout(waitingSummary.value, id));
      }
      if shownToast.None? {
        return;
      }
      var toast := shownToast.value;
      match toast.preview
      case EntryPreview(entry) =>
        if entry.notificationId == id {
          shownToast := Some(toast.(withdrawRequest := Some(Fast)));
        }
      case SummaryPreview(members) =>
        var kept := MembersWithout(members, id);
        shownToast := Some(toast.(preview := SummaryPreview(kept)));
        if kept == [] {
          ShowNext();
        }
    }

    method RequestWithdrawal()
      modifies this
      ensures State() == RequestWithdraw(old(State()))
    {
      if shownToast.None? {
        return;
      }
      if !shownToast.value.phase.Withdraw? && shownToast.value.withdrawRequest.None? {
        shownToast := Some(shownToast.value.(withdrawRequest := Some(Normal)));
      }
    }

    method Clear()
      modifies this
      ensures State() == ClearPreviews(old(State()))
    {
      shownToast, waitingEntries, waitingSummary := None, [], None;
    }

    // One turn of the clock's loop.
    method TurnOnce(currentTime: nat, timing: ToastTiming) returns (isHalted: bool, isPreviewChanged: bool)
      modifies this
      ensures TurnClock(old(State()), currentTime, timing)
           == if isHalted then Halted(State()) else Ran(State(), isPreviewChanged)
      ensures isHalted ==> !isPreviewChanged
    {
      isHalted, isPreviewChanged := false, false;
      waitingPreviewSeenAt :=
        if waitingEntries != [] || waitingSummary.Some? then Some(waitingPreviewSeenAt.GetOr(currentTime)) else None;
      if shownToast.None? {
        return true, false;
      }
      var startedAt := shownToast.value.phaseStartedAt.GetOr(currentTime);
      var toast := shownToast.value.(phaseStartedAt := Some(startedAt));
      var endedAt := ComputePhaseEndedAt(toast.phase, startedAt, timing, waitingPreviewSeenAt);
      var hidden := ComputeHiddenPerMille(toast.phase, Since(currentTime, startedAt), Since(endedAt, startedAt));
      if toast.withdrawRequest.Some? {
        if hidden == FULLY_HIDDEN_PER_MILLE {
          ShowNext();
          isPreviewChanged := true;
        } else {
          shownToast := Some(toast.(phase := Withdraw(hidden, toast.withdrawRequest.value),
            phaseStartedAt := Some(currentTime), withdrawRequest := None));
        }
      } else if currentTime < endedAt {
        shownToast := Some(toast.(hiddenPerMille := hidden));
        isHalted := true;
      } else if toast.phase.Withdraw? {
        ShowNext();
        isPreviewChanged := true;
      } else {
        shownToast := Some(toast.(phase := NextPhase(toast.phase), phaseStartedAt := Some(endedAt)));
      }
    }

    method AdvanceTo(currentTime: nat, timing: ToastTiming, isPaused: bool) returns (isPreviewChanged: bool)
      modifies this
      ensures (State(), isPreviewChanged) == Advance(old(State()), currentTime, timing, isPaused)
    {
      hide ShowNextPreview, ComputePhaseEndedAt, ComputeHiddenPerMille, TurnClock;
      isPreviewChanged := false;
      if isPaused {
        if pausedAt.None? {
          pausedAt := Some(currentTime);
        }
        return;
      }
      if pausedAt.Some? {
        var pauseStart := pausedAt.value;
        pausedAt := None;
        if shownToast.Some? && shownToast.value.phaseStartedAt.Some? {
          var toast := shownToast.value;
          shownToast := Some(toast.(phaseStartedAt := Some(toast.phaseStartedAt.value + Since(currentTime, pauseStart))));
        }
      }
      ghost var resumed := State();
      while true
        invariant var (after, changed) := RunClock(State(), currentTime, timing);
                  (after, isPreviewChanged || changed) == RunClock(resumed, currentTime, timing)
        decreases ClockRank(State())
      {
        TurnDescends(State(), currentTime, timing);
        var isHalted, isChanged := TurnOnce(currentTime, timing);
        if isHalted {
          return;
        }
        isPreviewChanged := isPreviewChanged || isChanged;
      }
    }
  }
}
