# Koshi client: verified models of the viewer's state machines

Koshi is a terminal multiplexer. Its client, the viewer, turns a terminal's
input into requests to a session, shows toasts and a notification history, and
keeps going while its link or its session is away. This project models the
viewer-side state machines in Dafny and proves what they keep over every run.

Each operation is a function on values that says what it computes. Where the
program changes state in place, a class or a method with loops has the same
fields, branches and loops, and is proved equal to that function; the table
below names the main ones of these methods. The laws are lemmas about the
functions, over all inputs, all runs and all interleavings.

| modules | what they model |
|---|---|
| `MouseActions`, `MouseFold`, `MouseUplink` | the pile of mouse actions: folding, the cap, in-flight border moves, flush and answers |
| `BorderDrag`, `BorderConvergence`, `BorderLanding`, `BorderPosition`, `BorderLedger`, `BorderSaturation` | a border drag between viewer and session, with a queue each way |
| `MouseCapture`, `MouseStream` | the capture automaton and the press-drag-release streams one link writes |
| `ToastQueue`, `ToastList`, `ToastClock`, `ToastPause` | the two-level toast queue, its clock, its wakeups and its pauses |
| `HistoryView`, `HistoryMerge`, `NotificationHistory` | the notification history, its operations and its class |
| `HistoryUnread`, `HistoryToasts`, `HistoryRuns`, `HistoryLedger` | what the history keeps and counts over every run |
| `Notifications`, `SessionLog`, `ExactlyOnce`, `SessionCatchUp`, `SessionFeed` | the session's queue, its log, and the exactly-once merge of snapshots and posts |
| `KeyResolution`, `KeyRuns`, `InputReadClock` | key sequences, their deadlines, and the clock two threads share |
| `InputHold`, `RedialSchedule` | input held during a restart, and the redial schedule |
| `KeySequenceParser`, `KeySequenceLaws` | the parser of a binding's key text |
| `Options`, `Totals`, `Runs` | optional values, sums and runs that the others use |

Conventions. Instants and durations are counts of nanoseconds. Pane, command and
notification ids are opaque values; a fresh epoch is a parameter. Widths that
matter are explicit: 16-bit cells and wire counts, 32-bit repeat counts, the
64-bit dropped count and sequences. Unseen code is a parameter: the text
sanitizer, the parser of one chord, the keymap as a finite map whose lookup is
exact match and proper prefix, the frame as the facts the mouse code reads from
it, and the actions that follow an applied scroll.

What the proofs found, beside what holds:

- A drag event puts the border under the pointer only under conditions, which
  `BorderLanding.SettledDragLands` states exactly for every state with every
  round answered. The border must have at most 32767 cells to go, since the
  session moves one by no more at once. A pointer back on its anchor names no
  move, so a move buffered before it still takes the border away
  (`BorderLanding.DragBackToAnchorLeavesBorder`: out to column 55 and back to 50
  in one flush leaves the border at 55). And of moves that something keeps apart
  in the pile, a later one takes back cells that an earlier one was refused
  (`BorderLanding.RefusedMoveLeavesBorderShort`: drags to columns 60 and 52 with a
  scroll between, with no room past 55, leave the border at 47).
- `BorderSaturation.SaturatedFlushFallsShort`: a flush whose remainder passes
  65535 cells is cut to the wire count, so what is in flight no longer comes to
  the distance named; a run of seven steps from a new link reaches one.
  `BorderLedger.FlushCommitsLastNamed` gives the exact condition, and
  `BorderLedger.FlushBalancesExactlyWhen` the one with forgotten cells.
- `HistoryLedger.EvictionPastSaturationStartsOver`: the dropped count saturates
  when losses are reported but adds 1 unchecked on eviction, so a saturated
  count starts over at 0 in a build without overflow checks and stops the
  program in a build with them. Two snapshots come to it, one whose only entry
  has the greatest sequence and one of 256 entries in a later epoch.
  `HistoryLedger.DroppedCountIsExact` says exactly when the count is true.
- The border drag converges without any bound on unanswered moves: forgetting
  in-flight entries past 256 only costs precision until the answers are in.
- After an overflow of the input hold the lock mode is as before the first held
  lock command, but once joined the viewer waits for no lock command at all
  (`InputHold.RejoinSendsAllOrNothing`), also if it waited for one before.
- Every snapshot brings the history level with the session, whatever was missed:
  one that does not reach back to what was known holds 256 newer entries, which
  evict all that were held (`SessionCatchUp.SnapshotJoins`). Only a live post
  that skips posts can hide a repeat of the newest known entry
  (`SessionFeed.SkippedRepeatIsHidden`); `SessionFeed.LivePostCatchesUpWhen` says
  exactly when it does, and the next post in order never does.

## Model

| member | source | states |
|---|---|---|
| `MouseFold.CoalesceMouseActions` | crates/koshi-client/src/attach.rs:6853-6869 | the in-place fold of a pile equals the fold function that every law below is about |
| `MouseFold.FoldPreservesMeaning` | crates/koshi-client/src/attach.rs:6853-6969 | for every action list, start state and meaning of the other actions, running the folded list leaves the state the list itself leaves: clamped scrollbacks, arrow keys, selections and named borders |
| `MouseFold.BorderMovesCommute` | crates/koshi-client/src/attach.rs:6875-6895 | two moves of borders on crossing axes of a pane may trade places, which is what lets a fold reach past one |
| `MouseFold.FoldKeeps` | crates/koshi-client/src/attach.rs:6902-6969 | every report and other command leaves the fold once and in order, and each border keeps its newest named distance |
| `MouseFold.FoldIsIdempotent` | crates/koshi-client/src/attach.rs:6853-6969 | folding a folded list changes nothing |
| `MouseFold.RetainUnderCap` | crates/koshi-client/src/attach.rs:6523-6541 | the retain pass drops the oldest scrolls, as many as the pile is over its cap, and nothing else |
| `MouseFold.QueueDropsOldestScrollsOnly` | crates/koshi-client/src/attach.rs:6523-6541 | a pile within 256 is untouched; past it, everything but the oldest scrolls of the fold stays, and only a pile with no scroll left stays over the cap |
| `MouseFold.QueueKeeps` | crates/koshi-client/src/attach.rs:6523-6541 | no report and no newest border distance is lost on the way into the pile |
| `MouseUplink.MouseLink.RebaseBorderMoves` | crates/koshi-client/src/attach.rs:6628-6655 | the loop takes the applied cells off every buffered move of the border, and leaves all others |
| `MouseUplink.MouseLink.ApplyMouseAnswers` | crates/koshi-client/src/attach.rs:6565-6610 | answers move the anchor, re-base the pile and retire in-flight entries, in order |
| `MouseUplink.MouseLink.NetMouseRound` | crates/koshi-client/src/attach.rs:6673-6739 | each move of a round is written less what is in flight and what the round already asked |
| `MouseUplink.MouseLink.FlushMouseRound` | crates/koshi-client/src/attach.rs:6673-6739 | a flush folds, nets, drops spent moves, records what it asked, forgets past 256 entries, and empties the pile |
| `BorderDrag.RoundReportsTravel` | crates/koshi-runtime/src/runtime/mouse.rs:139-173 | what a round's answers report is what the border travelled, within its limits |
| `BorderDrag.RoundTravels` | crates/koshi-runtime/src/runtime/mouse.rs:139-173 | a round moves a border by its own moves one after the other, each held to the limits |
| `BorderConvergence.NetProjects` | crates/koshi-client/src/attach.rs:6673-6739 | seen on one border, a netted round is that border's own moves, each less what came before it, and the cells it asks add up |
| `BorderConvergence.StepKeepsInvariant` | crates/koshi-client/src/attach.rs:6565-6758 | every step of viewer, session and queues keeps the protocol's invariant: a round has no more entries in flight than moves not yet answered, and the position known to the viewer is the border's less what its answers still carry, within the limits |
| `BorderConvergence.AnchorFollowsBorder` | crates/koshi-client/src/mouse.rs:1737-1761 | through every interleaving of drags, flushes, rounds, answers and forgotten moves, the anchor keeps its offset from the border as the viewer knows it |
| `BorderConvergence.AnchorAdvances` | crates/koshi-client/src/mouse.rs:2745-2777 | an anchor on the screen advances by exactly the applied cells |
| `BorderLanding.QueueNarrows` | crates/koshi-client/src/attach.rs:6523-6541 | queueing keeps, of one border's moves, the newest, and a subset of the rest |
| `BorderLanding.SettledDragLands` | crates/koshi-client/src/attach.rs:6673-6739 | with every round answered, one drag event, flushed and run, takes the border where the newest of its folded moves makes for, and that is the grab offset from the pointer, held to the limits, exactly when it is in reach of where the older moves left the border and what they were refused does not show |
| `BorderLanding.SettledDragLandsUnderPointer` | crates/koshi-client/src/mouse.rs:1703-1761 | with at most one folded move of the border, as after every flush, that is exactly when the border has at most 32767 cells to go and the pointer is off its anchor, or no move is buffered, or the buffered one travels nothing |
| `BorderLanding.KeptApartMovesLand` | crates/koshi-client/src/attach.rs:6853-6895 | with moves kept apart, limits and reach not in the way, exactly when the older ones were refused nothing |
| `BorderLanding.DragBackToAnchorLeavesBorder` | crates/koshi-client/src/mouse.rs:1703-1720 | a drag out and back to the anchor in one flush that leaves the border where it went out to |
| `BorderLanding.RefusedMoveLeavesBorderShort` | crates/koshi-client/src/attach.rs:6853-6895 | two moves kept apart by a scroll, the first partly refused, that leave the border short of the pointer |
| `BorderLanding.HeldDragConverges` | crates/koshi-client/src/attach.rs:6565-6758 | from any point of a held drag, after any run that ends with every round answered, the anchor moved as far as the border, the grab offset stands, and the next drag event lands as above, with the same exact conditions; no bound on unanswered moves is needed |
| `BorderPosition.RebaseKeepsDecided` | crates/koshi-client/src/attach.rs:6628-6655 | an answer that moves a border leaves every buffered move of it, position by position, where it was decided |
| `BorderPosition.HeldStepKeepsDecided` | crates/koshi-client/src/attach.rs:6523-6655 | anchor plus the distance named by a buffered move is the position it was decided at: after every step these are the ones before and the one a drag event decides, less older ones a fold merged; a round or a resync changes none and a flush takes all |
| `BorderPosition.DragDecidesPointer` | crates/koshi-client/src/mouse.rs:2726-2743 | a drag event decides exactly the pointer's position when that is off the anchor and the distance fits 16 bits, and only then |
| `BorderPosition.DecidedStaysOverRuns` | crates/koshi-client/src/attach.rs:6523-6655 | over every run of a held drag each buffered move stands at a position some drag event since the last flush decided, and the newest at the newest of them |
| `BorderLedger.FlushCommitsLastNamed` | crates/koshi-client/src/attach.rs:6673-6739 | cells in flight plus cells a flush writes come to the distance last named, exactly when the remainder fits the 16-bit count |
| `BorderLedger.FlushBalancesExactlyWhen` | crates/koshi-client/src/attach.rs:6673-6758 | after any flush the books below balance exactly when the part its newest move saturates and the border's cells it forgets cancel out |
| `BorderLedger.StepStaysExact` | crates/koshi-client/src/attach.rs:6565-6758 | while nothing is forgotten, the entries in flight of a border are exactly the written moves whose answers have not come, in order |
| `BorderLedger.LedgerBalancesOverRuns` | crates/koshi-client/src/attach.rs:6628-6739 | known position plus cells in flight plus cells refused since the last flush is the position last flushed, after every step of every run that forgets no entry and saturates no count, two moves of one border in one round included |
| `BorderLedger.NewLinkBalances` | crates/koshi-client/src/attach.rs:3805-3832 | a new link starts with those books balanced |
| `BorderSaturation.SaturatedFlushFallsShort` | crates/koshi-client/src/attach.rs:6673-6739 | a run of seven steps from a new link, the grab on screen, to a flush that names 25535 cells, has 58303 inward ones in flight, can ask for 65535 of the 83838 between, and leaves 7232 in flight |
| `MouseCapture.MouseClient.ForwardMouseInput` | crates/koshi-client/src/mouse.rs:1877-1956 | what reaches a program of one event, and the capture it leaves, as the specification function says |
| `MouseCapture.MouseClient.HandleMouse` | crates/koshi-client/src/mouse.rs:815-860 | one event: gestures that a press ends, an owed release first, then the event |
| `MouseStream.HandleCarriesOn` | crates/koshi-client/src/mouse.rs:815-860 | whatever an event meets, its reports carry the stream on, no release is owed after it, and none owed before is lost |
| `MouseStream.EndingKeepsWhatIsOwed` | crates/koshi-client/src/mouse.rs:1142-1178 | ending a capture keeps what is owed, and a held capture and an owed release never coexist |
| `MouseStream.WrittenReportsAreWholeGestures` | crates/koshi-client/src/attach.rs:3879-3885 | over every run of one link the button reports written are a prefix of whole press-drag-release gestures of one pane and button each, and at a pass's end what is open is exactly the held capture |
| `ToastQueue.NotificationToastQueue.Update` | crates/koshi-client/src/notification_toast.rs:193-223 | the loop replaces every copy of the entry and says whether any preview names it |
| `ToastQueue.NotificationToastQueue.Queue` | crates/koshi-client/src/notification_toast.rs:172-191 | an arrival updates, joins the summary, shows, waits, or starts the summary |
| `ToastQueue.NotificationToastQueue.RepointWaiting` | crates/koshi-client/src/notification_toast.rs:262-272 | the retaining pass rewrites the first replaced entry and drops the rest |
| `ToastQueue.NotificationToastQueue.Repoint` | crates/koshi-client/src/notification_toast.rs:236-290 | the first replaced preview names the new entry, the others go |
| `ToastQueue.NotificationToastQueue.Remove` | crates/koshi-client/src/notification_toast.rs:292-322 | waiting previews of an id go, a shown entry withdraws fast, an emptied summary gives way |
| `ToastQueue.NotificationToastQueue.AdvanceTo` | crates/koshi-client/src/notification_toast.rs:362-441 | the loop over late phases, after a resume, equals the recursive clock |
| `ToastQueue.TurnDescends` | crates/koshi-client/src/notification_toast.rs:382-440 | every turn that goes around again drops a preview, takes a request or ends a phase, so the loop ends for all phase lengths, zero included |
| `ToastList.QueueAppendsAbsent` | crates/koshi-client/src/notification_toast.rs:172-191 | read as one flat list of ids, queueing appends the id unless it is there |
| `ToastList.AdvanceDropsPrefix` | crates/koshi-client/src/notification_toast.rs:362-441 | advancing drops a prefix of the list, and nothing unless it says the preview changed |
| `ToastList.RemoveDeletes` | crates/koshi-client/src/notification_toast.rs:292-322 | removal deletes the id, but for a shown entry, which only withdraws |
| `ToastList.RepointRenamesFirst` | crates/koshi-client/src/notification_toast.rs:236-290 | repointing renames the first id it names and deletes the rest |
| `ToastList.RunsStayTidy` | crates/koshi-client/src/notification_toast.rs:135-155 | over every run ids stay distinct, at most 3 entries wait, no summary is empty, and nothing waits unless something shows |
| `ToastClock.HiddenInRange` | crates/koshi-client/src/notification_toast.rs:618-641 | the slide position is in 0..=1000 |
| `ToastClock.SlideMovesTowardItsEnd` | crates/koshi-client/src/notification_toast.rs:618-641 | within one phase length appear only comes in and withdraw only goes out |
| `ToastClock.RunsStayInRange` | crates/koshi-client/src/notification_toast.rs:362-441 | the drawn position is in 0..=1000 after every run |
| `ToastClock.AdvanceSettles` | crates/koshi-client/src/notification_toast.rs:362-441 | after an advance the clock has nothing more to move at that time |
| `ToastClock.WakeupIsAhead` | crates/koshi-client/src/notification_toast.rs:451-487 | right after an advance there is a wakeup exactly when a toast shows, and it is in the future |
| `ToastClock.NothingMovesBeforeWakeup` | crates/koshi-client/src/notification_toast.rs:451-487 | advancing at any time before the wakeup changes nothing at all |
| `ToastClock.WakeupMoves` | crates/koshi-client/src/notification_toast.rs:451-487 | at the wakeup the phase ends or the slide takes its next step |
| `ToastClock.WithdrawStartsWhereItStands` | crates/koshi-client/src/notification_toast.rs:400-416 | a requested withdraw starts from the standing position, unless slides take no time or the toast is out of view, and exactly then the next preview shows |
| `ToastClock.StopsAreForgotten` | crates/koshi-client/src/notification_toast.rs:362-441 | however often the clock advances on the way, it ends as if it had advanced once, as long as the shown preview does not end |
| `ToastPause.RunsKeepMark` | crates/koshi-client/src/notification_toast.rs:590-605 | in every forward run the mark of a waiting preview is at most half a second past the start of the phase it may shorten |
| `ToastPause.EndIsDelayed` | crates/koshi-client/src/notification_toast.rs:590-605 | then a phase started later ends later by as much, though the mark is not shifted |
| `ToastPause.PauseOnlyDelays` | crates/koshi-client/src/notification_toast.rs:362-381 | whatever arrives during a pause and after it, every later state is that of the run that never paused, later by the pause |
| `ToastPause.DelayedLooksTheSame` | crates/koshi-client/src/notification_toast.rs:492-507 | delayed toasts show the same preview, number and position and ask for the same wakeup |
| `NotificationHistory.MergedHistory.FindMergedEntryIndex` | crates/koshi-client/src/notification_history.rs:1035-1040 | the first index under an id |
| `NotificationHistory.MergedHistory.RemoveOwnDuplicates` | crates/koshi-client/src/notification_history.rs:885-903 | the index loop removes every own duplicate and names it |
| `NotificationHistory.MergedHistory.PushMergedEntry` | crates/koshi-client/src/notification_history.rs:877-926 | an arrival replaces duplicates, evicts at 256, previews, counts and selects |
| `NotificationHistory.MergedHistory.TakeQueue` | crates/koshi-client/src/notification_history.rs:689-741 | a snapshot is refused, ignored or taken, entry by entry, with its error cases |
| `NotificationHistory.MergedHistory.TakePost` | crates/koshi-client/src/notification_history.rs:765-809 | a live post is refused, ignored or taken |
| `HistoryView.DuplicatesGo` | crates/koshi-client/src/notification_history.rs:885-903 | the removing loop is a filter: every duplicate goes and nothing else |
| `HistoryUnread.UnreadCountIsExact` | crates/koshi-client/src/notification_history.rs:843-1001 | over every run of changes: ids unique, at most 256 held, the unread are exactly the newest unread count, which is 0 while open, a selected id is held, and an open center selects nothing only when empty |
| `HistoryToasts.ArrivalAgrees` | crates/koshi-client/src/notification_history.rs:843-926 | an arrival leaves every preview naming a held entry |
| `HistoryToasts.ToastsAgreeOverRuns` | crates/koshi-client/src/notification_history.rs:843-948 | over every run each waiting preview is an exact copy of a held entry, every summary member is held, a shown entry is held or withdraws, and an open center has no toast |
| `HistoryMerge.OpsAreRun` | crates/koshi-client/src/notification_history.rs:624-809 | every operation of the history comes down to the changes those laws are about |
| `HistoryRuns.RunsStaySound` | crates/koshi-client/src/notification_history.rs:624-809 | the counts and the selection stay sound over every run of operations |
| `HistoryRuns.RunsKeepToastsAgreeing` | crates/koshi-client/src/notification_history.rs:624-809 | so does the agreement of toasts and history |
| `HistoryRuns.LocalRunsHoldNoRepeats` | crates/koshi-client/src/notification_history.rs:624-651 | in a history local from the start no own entry has the severity and text of a held session entry |
| `HistoryLedger.HeldEntriesAreCounted` | crates/koshi-client/src/notification_history.rs:877-988 | entries added less evicted, replaced, dismissed and cleared are the entries held |
| `HistoryLedger.DroppedCountIsExact` | crates/koshi-client/src/notification_history.rs:817-948 | between clears the dropped count is the evictions and reported losses exactly as long as they fit 64 bits |
| `HistoryLedger.EvictionPastSaturationStartsOver` | crates/koshi-client/src/notification_history.rs:817-948 | a run of two snapshots from a new history: the first skips to the full count, which a further report leaves standing, and the second's 256th entry evicts and starts it over at 0 |
| `HistoryLedger.EverySequenceIsCounted` | crates/koshi-client/src/notification_history.rs:689-834 | over every run on one session queue, the distinct sequences that arrived and the losses reported, less those the session told of outright, come to the newest taken sequence plus one |
| `HistoryLedger.DroppedCountIsWhatNeverArrived` | crates/koshi-client/src/notification_history.rs:689-948 | over every such run with no clear, the dropped count is the entries evicted, the sequences that never arrived and the losses told of, exactly when they fit 64 bits |
| `SessionLog.QueueIsWindow` | crates/koshi-core/src/notification.rs:218-262 | the session's bounded queue is the newest 256 entries of its log, at the revision that counts its posts |
| `SessionLog.LogGrows` | crates/koshi-core/src/notification.rs:218-262 | a log only appends, or repeats its newest entry with a higher count |
| `Notifications.FirstForeign` | crates/koshi-core/src/notification.rs:271-290 | a queue is refused exactly when some entry names another owner or epoch |
| `ExactlyOnce.RepeatCatchesUp` | crates/koshi-client/src/notification_history.rs:843-862 | a repeat of the newest session entry takes its place among the session's entries |
| `ExactlyOnce.NewEntryCatchesUp` | crates/koshi-client/src/notification_history.rs:843-926 | a new session entry joins them, at the cost of at most the oldest |
| `SessionCatchUp.CoveringWindowJoins` | crates/koshi-client/src/notification_history.rs:716-741 | taking a window of the log that reaches back to what was known leaves exactly the log, but for what was counted lost |
| `SessionCatchUp.FullWindowJoins` | crates/koshi-client/src/notification_history.rs:716-741 | so does a full window of 256 that starts past everything known: it evicts every entry held before it, stale ones with them |
| `SessionCatchUp.SnapshotJoins` | crates/koshi-client/src/notification_history.rs:716-741 | so every snapshot leaves exactly the log, whatever was missed before it |
| `SessionFeed.RetakingChangesNothing` | crates/koshi-client/src/notification_history.rs:689-809 | a snapshot or post of what the viewer was told already changes nothing at all, also after a dismissal or a clear |
| `SessionFeed.OwnStepKeepsMark` | crates/koshi-client/src/notification_history.rs:450-485 | nothing the viewer does itself moves its mark on the session's queue |
| `SessionFeed.ClearKeepsKnowing` | crates/koshi-client/src/notification_history.rs:466-485 | after a clear the history holds no session entry and still knows the ones it was told, so it takes only newer ones |
| `SessionFeed.NextPostIsCovered` | crates/koshi-client/src/notification_history.rs:765-809 | the next live post in order never hides a change |
| `SessionFeed.LivePostCatchesUpWhen` | crates/koshi-client/src/notification_history.rs:765-809 | a live post past the next leaves the log exactly when it hides no change or when no session entry from before it stays held |
| `SessionFeed.SkippedRepeatIsHidden` | crates/koshi-client/src/notification_history.rs:765-809 | a feed whose live post skips a repeat: the old count stands, nothing counts as dropped, and a snapshot of the same queue changes nothing |
| `SessionFeed.EachPostIsMergedOnce` | crates/koshi-client/src/notification_history.rs:124-135 | after any mix of snapshots at any time, live posts in order, repeated and stale ones of both, and own posts between, the session entries held are the newest of the session's log in order, once each, less at most what was lost; with nothing lost, all of it |
| `SessionFeed.LossIsDropped` | crates/koshi-client/src/notification_history.rs:817-948 | what an operation loses is what the dropped count rises by, below saturation |
| `KeyResolution.KeyResolver.Resolve` | crates/koshi-client/src/input.rs:1357-1442 | one chord fires, waits, passes or is discarded, and what stays open, as the specification function says |
| `KeyResolution.KeyResolver.Expire` | crates/koshi-client/src/input.rs:1484-1511 | a due sequence fires and re-arms, a due hint shows |
| `KeyResolution.ResolveKeepsOpenSound` | crates/koshi-client/src/input.rs:1357-1442 | the open sequence stays a proper prefix of a binding, bound itself when it has a deadline |
| `KeyResolution.PassesExactlyWhatBeginsNothing` | crates/koshi-client/src/input.rs:1357-1442 | a chord passes exactly when nothing is open, the mode passes such chords, and it begins no binding |
| `KeyResolution.NothingExpiresBeforeWakeup` | crates/koshi-client/src/input.rs:1453-1467 | nothing expires before the wakeup, and without one nothing ever |
| `KeyResolution.SomethingExpiresAtWakeup` | crates/koshi-client/src/input.rs:1453-1467 | at the wakeup something does |
| `KeyRuns.RunsStaySound` | crates/koshi-client/src/input.rs:1357-1551 | over every run each fired action is bound to its re-armed chords and the typed chords it used, a re-armed prefix is that of a continuous action fired before, each passed chord begins no binding, and no typed chord is given out twice or out of order |
| `KeyRuns.PassedAreTheFree` | crates/koshi-client/src/input.rs:1357-1442 | over every run a typed chord was passed exactly when it was typed with nothing open and no handle to drop, and begins no binding, in a mode that passes such chords |
| `InputReadClock.InputClock.StampInputRead` | crates/koshi-client/src/input.rs:198-208 | each stamp is at or after its clock reading and past the one before |
| `InputReadClock.InputClock.FindInputJudgeTime` | crates/koshi-client/src/input.rs:226-232 | there is a time to judge at exactly when no input is on its way |
| `InputReadClock.JudgingComposes` | crates/koshi-client/src/input.rs:1484-1511 | judging twice is judging at the later time |
| `InputReadClock.RunsStayOnTime` | crates/koshi-client/src/attach.rs:3846-3861 | in every interleaving stamps rise, the clock knows what is on its way, and the loop stands where a reference that judges at stamps only stands, or one judging further |
| `InputReadClock.DelayLeavesNoMark` | crates/koshi-client/src/attach.rs:6364-6399 | two runs that took the same reads and judged last at the same time stand alike, however slow either was |
| `InputReadClock.DelayCostsAtMostOneAction` | crates/koshi-client/src/attach.rs:6364-6399 | of any two runs that took the same reads, one has given out what the other has and at most one action more |
| `InputReadClock.GivenIsNeverLost` | crates/koshi-client/src/attach.rs:6364-6399 | what was given out early is what the next read's stamp gives out, and nothing is given twice |
| `InputHold.RestartRejoin.HoldTyped` | crates/koshi-client/src/attach.rs:4624-4665 | a held lock command switches the mode, and an overflow drops all and puts it back |
| `InputHold.RestartRejoin.SendHeldInputs` | crates/koshi-client/src/attach.rs:5095-5126 | everything held is sent, oldest first, and the last lock command sent is waited for |
| `InputHold.RunsAreAllOrNothing` | crates/koshi-client/src/attach.rs:4611-4710 | over every run the hold keeps all input typed for the session with exact counts, or, past its bounds, none with the lock state from before |
| `InputHold.RejoinSendsAllOrNothing` | crates/koshi-client/src/attach.rs:5056-5126 | the rejoin sends everything in order exactly when it fits, and the lock mode and waited-for command are then the last lock command's; otherwise it sends nothing in the mode from before |
| `RedialSchedule.RunsStayOnSchedule` | crates/koshi-client/src/attach.rs:4489-4594 | for all dial lengths each pause is 2 to the attempt less one, held at 8 seconds, each dial is due inside 120 s, and no attempt passes 17 |
| `RedialSchedule.AttemptSeventeenIsReached` | crates/koshi-client/src/attach.rs:4489-4594 | attempt 17 is reached, due 119 s after the drop |
| `RedialSchedule.CountdownStandsUntilWakeup` | crates/koshi-client/src/attach.rs:4537-4562 | the shown seconds stand until the wakeup |
| `RedialSchedule.CountdownMovesAtWakeup` | crates/koshi-client/src/attach.rs:4537-4562 | at the wakeup they fall by one or the dial is due |
| `KeySequenceParser.SplitKeyToken` | crates/koshi-config/src/key_sequence.rs:64-83 | a token is a non-empty prefix of the text |
| `KeySequenceParser.ReadToken` | crates/koshi-config/src/key_sequence.rs:168-182 | a token that takes in a second `>` is still a prefix |
| `KeySequenceParser.FindDashForm` | crates/koshi-config/src/key_sequence.rs:40-55 | the bracket-stepping loop equals its recursive form |
| `KeySequenceParser.ParseSequence` | crates/koshi-config/src/key_sequence.rs:129-223 | the word loop and the token loop, with every error, equal the recursive parser |
| `KeySequenceLaws.SequencesCompose` | crates/koshi-config/src/key_sequence.rs:129-223 | two texts that parse, with a space between, parse to their chords in order exactly when the second names no leader and both fit the depth |
| `KeySequenceLaws.ParsedTokens` | crates/koshi-config/src/key_sequence.rs:199-223 | a parsed sequence has from 1 to the maximum depth of chords and used up its text |
| `KeySequenceLaws.ChordLeaderPrepends` | crates/koshi-config/src/key_sequence.rs:153-167 | a chord leader puts exactly its chord before the text's |
| `KeySequenceLaws.ModifierLeaderChangesFirst` | crates/koshi-config/src/key_sequence.rs:98-113 | a modifier leader merges into the first chord and leaves the others |
| `KeySequenceLaws.LeaderKeepsDashWords` | crates/koshi-config/src/key_sequence.rs:40-55 | a leader token neither makes nor hides a dash form |

## Left out

- Sockets, framing, router lookup, process re-exec and signals: input and output, with the session side reduced to borders, scroll answers and its notification queue.
- Hit testing and layout: the region under the pointer, what a frame draws and what a program reports are inputs of the mouse model.
- Painting, placement previews, the notification center's slide and the floating pane tray: renderer work; a finished slide of a closing center is an input.
- `set_notification_center_state`: only puts back a state read before; it is used when a viewer is restored.
- Viewer-local modes other than as a flag: pane placement, pane moves and the tray are guarded setters; held input is typed with or without one of them on.
- Draw counters and scroll rows of the notification history: no modelled operation reads them.
- Borders that push one another: each border moves within fixed limits of its own.
- Answers that a resynchronising session drops: every round of the model is answered, so an anchor that such a loss leaves behind does not appear.
- Overflow of a folded scroll's line count: counts of one pile are unbounded here.
- Mode and keymap changes inside a key run: `KeyRuns` fixes both; `KeyResolution.ExpireKeys` still drops a sequence a new keymap does not bind.
- Grab-handle drags inside `InputReadClock` runs: chords there are typed with no handle held.
- A panic that poisons the read clock's lock: a stamp is one step with its clock reading.
- BorderLedger.LedgerBalancesOverRuns: states the balance for runs in which no in-flight entry is forgotten and no count saturates, since the program keeps no record of what it forgot; `BorderLedger.FlushBalancesExactlyWhen` states each flush without either condition, and convergence needs neither.
- SessionFeed.EachPostIsMergedOnce: states the merge for runs with no dismissal and no clear of session entries, with live posts in order (`SessionFeed.LivePostCatchesUpWhen` is about one out of order), and for fewer than 2^32 posts, past which a repeat count stands still.
- HistoryLedger.EverySequenceIsCounted: states the count for one session queue at a time, as taking another starts its sequences over, and for sequences below 2^64 - 1, where the expected sequence saturates.
- ToastPause.PauseOnlyDelays: compares one pause with the run that never paused; several pauses follow by using it again from each resumed state.
- KeySequenceLaws.ChordLeaderPrepends: takes texts that parse without a leader, and a leader token none of whose characters is whitespace.
