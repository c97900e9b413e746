// Any mix of the session's snapshots and live posts, repeated or out of date,
// with the viewer's own posts in between, leaves the viewer with the session's
// log up to the newest post it heard of.
module SessionCatchUp {
  import opened Options
  import opened Notifications
  import opened HistoryView
  import opened HistoryMerge
  import opened HistoryLedger
  import opened SessionLog
  import opened ExactlyOnce

  // ---------------------------------------------------------------------
  // One entry of the log
  // ---------------------------------------------------------------------

  // The loss that taking one entry brings: what it skipped, and what it evicts.
  function LostByEntry(view: HistoryView, sanitize: string -> string, entry: NotificationEntry,
      through: Option<MergedThrough>, shouldPreview: bool): nat
  {
    CountEntry(entry, NextExpected(through)).skipped
    + (if IsNewer(through, entry)
       then Evicted(CountSkipped(view, entry, NextExpected(through)), Arrive(SanitizeEntry(entry, sanitize), shouldPreview)) else 0)
  }

  function LostByEntries(view: HistoryView, sanitize: string -> string, entries: seq<NotificationEntry>,
      through: Option<MergedThrough>, shouldPreview: bool): nat
    decreases |entries|
  {
    if entries == [] then 0
    else
      LostByEntry(view, sanitize, entries[0], through, shouldPreview)
      + LostByEntries(TakeEntry(view, sanitize, entries[0], through, NextExpected(through), shouldPreview), sanitize,
          entries[1..], ThroughAfter(through, entries[0]), shouldPreview)
  }

  // A log whose sequences fit a 64-bit count.
  predicate IsLog(log: seq<NotificationEntry>, owner: NotificationQueueOwner, epoch: nat) {
    owner.SessionOwner? && IsNumbered(log, owner, epoch) && |log| < MAX_U64
  }

  // An entry known already changes nothing.
  lemma KnownEntryChangesNothing(view: HistoryView, sanitize: string -> string, log: seq<NotificationEntry>, known: nat, index: nat,
      owner: NotificationQueueOwner, epoch: nat, shouldPreview: bool)
    requires IsLog(log, owner, epoch) && index < known <= |log|
    ensures var through := ThroughLog(log[..known]);
            && TakeEntry(view, sanitize, log[index], through, NextExpected(through), shouldPreview) == view
            && ThroughAfter(through, log[index]) == through
            && NextAfter(log[index], NextExpected(through)) == NextExpected(through)
            && LostByEntry(view, sanitize, log[index], through, shouldPreview) == 0
  {
    assert !IsNewer(ThroughLog(log[..known]), log[index]);
  }

  lemma NextEntryIsNewer(log: seq<NotificationEntry>, known: nat, index: nat, owner: NotificationQueueOwner, epoch: nat)
    requires IsLog(log, owner, epoch) && known <= index < |log| && (known == index || known == 0)
    ensures var (entry, through) := (log[index], ThroughLog(log[..known]));
            && IsNewer(through, entry)
            && CountEntry(entry, NextExpected(through)).skipped == index - known
            && ThroughAfter(through, entry) == ThroughLog(log[..index + 1])
            && NextAfter(entry, NextExpected(through)) == NextExpected(ThroughLog(log[..index + 1]))
  {
    assert log[..index + 1][index] == log[index];
  }

  // The entry after the known ones joins them, and so does any entry that is
  // the first to be known.
  lemma NextEntryJoins(view: HistoryView, sanitize: string -> string, log: seq<NotificationEntry>, known: nat, index: nat,
      owner: NotificationQueueOwner, epoch: nat, shouldPreview: bool, lost: nat)
    requires IsLog(log, owner, epoch) && known <= index < |log| && (known == index || known == 0)
    requires IsCaughtUp(view, log[..known], owner, epoch, sanitize, lost)
    ensures var through := ThroughLog(log[..known]);
            IsCaughtUp(TakeEntry(view, sanitize, log[index], through, NextExpected(through), shouldPreview), log[..index + 1],
              owner, epoch, sanitize, lost + LostByEntry(view, sanitize, log[index], through, shouldPreview))
  {
    hide IsCaughtUp, TakeArrival, Evicted, CountSkipped, SessionEntries, ReceivedLog;
    var entry, through := log[index], ThroughLog(log[..known]);
    NextEntryIsNewer(log, known, index, owner, epoch);
    EarlierIdsDiffer(log, index, owner, epoch);
    hide IsLog, ThroughLog, IsNewer, CountEntry, NextExpected;
    var counted := CountSkipped(view, entry, NextExpected(through));
    SkippingKeepsEntries(view, entry, NextExpected(through));
    SkippingStaysCaughtUp(view, counted, log, known, index, owner, epoch, sanitize, lost);
    NewEntryCatchesUp(counted, log[..index], entry, shouldPreview, owner, epoch, sanitize, lost + index - known);
    assert log[..index + 1] == log[..index] + [entry];
  }

  lemma EarlierIdsDiffer(log: seq<NotificationEntry>, index: nat, owner: NotificationQueueOwner, epoch: nat)
    requires IsLog(log, owner, epoch) && index < |log|
    ensures owner.SessionOwner? && IsFrom(log[index], owner, epoch)
    ensures forall entry :: entry in log[..index] ==> entry.notificationId != log[index].notificationId
  {
  }

  lemma SkippingKeepsEntries(view: HistoryView, entry: NotificationEntry, nextExpected: nat)
    ensures CountSkipped(view, entry, nextExpected).entries == view.entries
  {
  }

  lemma SkippingStaysCaughtUp(view: HistoryView, counted: HistoryView, log: seq<NotificationEntry>, known: nat, index: nat,
      owner: NotificationQueueOwner, epoch: nat, sanitize: string -> string, lost: nat)
    requires known <= index <= |log| && (known == index || known == 0) && counted.entries == view.entries
    requires IsCaughtUp(view, log[..known], owner, epoch, sanitize, lost)
    ensures IsCaughtUp(counted, log[..index], owner, epoch, sanitize, lost + index - known)
  {
    if known == 0 {
      assert ReceivedLog(log[..0], sanitize) == [];
    }
  }

  // The newest known entry, repeated, moves to its new count.
  lemma RepeatedEntryMoves(view: HistoryView, sanitize: string -> string, older: seq<NotificationEntry>, log: seq<NotificationEntry>,
      owner: NotificationQueueOwner, epoch: nat, shouldPreview: bool, lost: nat)
    requires IsLog(log, owner, epoch) && IsGrownFrom(log, older) && older != [] && log[|older| - 1] != older[|older| - 1]
    requires IsCaughtUp(view, older, owner, epoch, sanitize, lost)
    ensures var (entry, through) := (log[|older| - 1], ThroughLog(older));
            && IsCaughtUp(TakeEntry(view, sanitize, entry, through, NextExpected(through), shouldPreview), log[..|older|],
                 owner, epoch, sanitize, lost + LostByEntry(view, sanitize, entry, through, shouldPreview))
            && ThroughAfter(through, entry) == ThroughLog(log[..|older|])
            && NextAfter(entry, NextExpected(through)) == NextExpected(ThroughLog(log[..|older|]))
  {
    hide TakeArrival, Evicted, IsCaughtUp, SessionEntries;
    var entry, through := log[|older| - 1], ThroughLog(older);
    assert IsNewer(through, entry);
    assert CountSkipped(view, entry, NextExpected(through)) == view;
    RepeatCatchesUp(view, older, entry, shouldPreview, owner, epoch, sanitize, lost);
    assert log[..|older|] == older[..|older| - 1] + [entry];
  }

  // ---------------------------------------------------------------------
  // A window of the log
  // ---------------------------------------------------------------------

  lemma {:induction false} WindowJoins(view: HistoryView, sanitize: string -> string, log: seq<NotificationEntry>, known: nat, index: nat,
      owner: NotificationQueueOwner, epoch: nat, shouldPreview: bool, lost: nat)
    requires IsLog(log, owner, epoch) && index <= |log| && known <= |log|
    requires (index <= known || known == 0) && (index < |log| || known == |log|)
    requires IsCaughtUp(view, log[..known], owner, epoch, sanitize, lost)
    ensures var through := ThroughLog(log[..known]);
            var (after, throughThen) := TakeEntries(view, sanitize, log[index..], through, NextExpected(through), shouldPreview);
            && IsCaughtUp(after, log, owner, epoch, sanitize, lost + LostByEntries(view, sanitize, log[index..], through, shouldPreview))
            && throughThen == ThroughLog(log)
    decreases |log| - index
  {
    var through := ThroughLog(log[..known]);
    if index == |log| {
      assert log[..known] == log && log[index..] == [];
    } else {
      var rest, taken := log[index + 1..], TakeEntry(view, sanitize, log[index], through, NextExpected(through), shouldPreview);
      assert log[index..][0] == log[index] && log[index..][1..] == rest;
      if index < known {
        KnownEntryChangesNothing(view, sanitize, log, known, index, owner, epoch, shouldPreview);
        WindowJoins(view, sanitize, log, known, index + 1, owner, epoch, shouldPreview, lost);
      } else {
        var more := LostByEntry(view, sanitize, log[index], through, shouldPreview);
        NextEntryIsNewer(log, known, index, owner, epoch);
        NextEntryJoins(view, sanitize, log, known, index, owner, epoch, shouldPreview, lost);
        WindowJoins(taken, sanitize, log, index + 1, index + 1, owner, epoch, shouldPreview, lost + more);
      }
    }
  }

  lemma {:induction false} RepeatedWindowJoins(view: HistoryView, sanitize: string -> string, older: seq<NotificationEntry>, log: seq<NotificationEntry>,
      index: nat, owner: NotificationQueueOwner, epoch: nat, shouldPreview: bool, lost: nat)
    requires IsLog(log, owner, epoch) && IsLog(older, owner, epoch) && IsGrownFrom(log, older)
    requires index < |older| && log[|older| - 1] != older[|older| - 1]
    requires IsCaughtUp(view, older, owner, epoch, sanitize, lost)
    ensures var through := ThroughLog(older);
            var (after, throughThen) := TakeEntries(view, sanitize, log[index..], through, NextExpected(through), shouldPreview);
            && IsCaughtUp(after, log, owner, epoch, sanitize, lost + LostByEntries(view, sanitize, log[index..], through, shouldPreview))
            && throughThen == ThroughLog(log)
    decreases |log| - index
  {
    var through := ThroughLog(older);
    assert log[index..][0] == log[index] && log[index..][1..] == log[index + 1..];
    if index < |older| - 1 {
      KnownEntryChangesNothing(view, sanitize, older, |older|, index, owner, epoch, shouldPreview);
      assert older[..|older|] == older;
      RepeatedWindowJoins(view, sanitize, older, log, index + 1, owner, epoch, shouldPreview, lost);
    } else {
      RepeatedEntryMoves(view, sanitize, older, log, owner, epoch, shouldPreview, lost);
      WindowJoins(TakeEntry(view, sanitize, log[index], through, NextExpected(through), shouldPreview), sanitize, log, |older|, |older|,
        owner, epoch, shouldPreview, lost + LostByEntry(view, sanitize, log[index], through, shouldPreview));
    }
  }

  // The entries of `log` from `start` on hide no change since `older`.
  predicate Covers(older: seq<NotificationEntry>, log: seq<NotificationEntry>, start: nat) {
    older == [] || start < |older| || (start == |older| <= |log| && log[|older| - 1] == older[|older| - 1])
  }

  lemma CoveringWindowJoins(view: HistoryView, sanitize: string -> string, older: seq<NotificationEntry>, log: seq<NotificationEntry>,
      start: nat, owner: NotificationQueueOwner, epoch: nat, shouldPreview: bool, lost: nat)
    requires IsLog(log, owner, epoch) && IsLog(older, owner, epoch) && IsGrownFrom(log, older)
    requires start <= |log| && (start < |log| || log == []) && Covers(older, log, start)
    requires IsCaughtUp(view, older, owner, epoch, sanitize, lost)
    ensures var through := ThroughLog(older);
            var (after, throughThen) := TakeEntries(view, sanitize, log[start..], through, NextExpected(through), shouldPreview);
            && IsCaughtUp(after, log, owner, epoch, sanitize, lost + LostByEntries(view, sanitize, log[start..], through, shouldPreview))
            && throughThen == ThroughLog(log)
  {
    if older == [] {
      assert log[..0] == older;
      WindowJoins(view, sanitize, log, 0, start, owner, epoch, shouldPreview, lost);
    } else if log[|older| - 1] == older[|older| - 1] {
      assert log[..|older|] == older;
      WindowJoins(view, sanitize, log, |older|, start, owner, epoch, shouldPreview, lost);
    } else {
      RepeatedWindowJoins(view, sanitize, older, log, start, owner, epoch, shouldPreview, lost);
    }
  }

  // ---------------------------------------------------------------------
  // A window past everything known
  // ---------------------------------------------------------------------

  predicate IsBounded(view: HistoryView) {
    |view.entries| <= MAX_MERGED_NOTIFICATION_COUNT
  }

  lemma ArrivalStaysBounded(view: HistoryView, arrived: NotificationEntry, shouldShowToasts: bool)
    requires IsBounded(view)
    ensures IsBounded(TakeArrival(view, arrived, shouldShowToasts))
  {
    var removed := RemoveHeld(view, arrived.notificationId);
    DuplicatesAreNamed(removed, 0, arrived);
    var replaced := ReplaceDuplicates(removed, arrived);
    assert |PushNewest(removed, arrived, shouldShowToasts).entries| == |MakeRoom(replaced).entries| + 1;
  }

  lemma TakeEntryStaysBounded(view: HistoryView, sanitize: string -> string, entry: NotificationEntry,
      through: Option<MergedThrough>, nextExpected: nat, shouldPreview: bool)
    requires IsBounded(view)
    ensures IsBounded(TakeEntry(view, sanitize, entry, through, nextExpected, shouldPreview))
  {
    hide TakeArrival;
    if IsNewer(through, entry) {
      ArrivalStaysBounded(CountSkipped(view, entry, nextExpected), SanitizeEntry(entry, sanitize), shouldPreview);
    }
  }

  lemma {:induction false} TakeEntriesStayBounded(view: HistoryView, sanitize: string -> string, entries: seq<NotificationEntry>,
      through: Option<MergedThrough>, nextExpected: nat, shouldPreview: bool)
    requires IsBounded(view)
    ensures IsBounded(TakeEntries(view, sanitize, entries, through, nextExpected, shouldPreview).0)
    decreases |entries|
  {
    hide TakeEntry, IsBounded;
    if entries != [] {
      TakeEntryStaysBounded(view, sanitize, entries[0], through, nextExpected, shouldPreview);
      TakeEntriesStayBounded(TakeEntry(view, sanitize, entries[0], through, nextExpected, shouldPreview), sanitize,
        entries[1..], ThroughAfter(through, entries[0]), NextAfter(entries[0], nextExpected), shouldPreview);
    }
  }

  lemma {:induction false} SessionIsNoLonger(entries: seq<NotificationEntry>, owner: NotificationQueueOwner, epoch: nat)
    ensures |SessionEntries(entries, owner, epoch)| <= |entries|
  {
    if entries != [] {
      SessionIsNoLonger(entries[..|entries| - 1], owner, epoch);
    }
  }

  // `known` with one entry more that is newer than all of it, whatever it
  // skipped.
  lemma FreshEntryJoins(view: HistoryView, sanitize: string -> string, known: seq<NotificationEntry>, entry: NotificationEntry,
      owner: NotificationQueueOwner, epoch: nat, shouldPreview: bool, lost: nat)
    requires owner.SessionOwner? && IsFrom(entry, owner, epoch) && IsSequenced(entry)
    requires forall e :: e in known ==> e.notificationId.sequence < entry.notificationId.sequence
    requires IsCaughtUp(view, known, owner, epoch, sanitize, lost)
    ensures var (through, skipped) := (ThroughLog(known), CountEntry(entry, NextExpected(ThroughLog(known))).skipped);
            var loss := LostByEntry(view, sanitize, entry, through, shouldPreview);
            && skipped <= loss
            && IsCaughtUp(TakeEntry(view, sanitize, entry, through, NextExpected(through), shouldPreview), known + [entry],
                 owner, epoch, sanitize, lost + loss - skipped)
            && ThroughAfter(through, entry) == ThroughLog(known + [entry])
            && NextAfter(entry, NextExpected(through)) == NextExpected(ThroughLog(known + [entry]))
  {
    hide TakeArrival, Evicted, SessionEntries, ReceivedLog;
    var through := ThroughLog(known);
    assert known != [] ==> known[|known| - 1] in known;
    assert (known + [entry])[|known|] == entry;
    var counted := CountSkipped(view, entry, NextExpected(through));
    SkippingKeepsEntries(view, entry, NextExpected(through));
    NewEntryCatchesUp(counted, known, entry, shouldPreview, owner, epoch, sanitize, lost);
  }

  // The entries known, and those of the window taken so far.
  function Patched(older: seq<NotificationEntry>, log: seq<NotificationEntry>, start: nat, index: nat): seq<NotificationEntry>
    requires start <= index <= |log|
  {
    older + log[start..index]
  }

  lemma PatchGrows(older: seq<NotificationEntry>, log: seq<NotificationEntry>, start: nat, index: nat, owner: NotificationQueueOwner, epoch: nat)
    requires IsLog(log, owner, epoch) && IsLog(older, owner, epoch) && |older| <= start <= index < |log|
    ensures Patched(older, log, start, index) + [log[index]] == Patched(older, log, start, index + 1)
    ensures owner.SessionOwner? && IsFrom(log[index], owner, epoch) && IsSequenced(log[index])
    ensures forall e :: e in Patched(older, log, start, index) ==> e.notificationId.sequence < log[index].notificationId.sequence
    ensures CountEntry(log[index], NextExpected(ThroughLog(Patched(older, log, start, index)))).skipped
         == if index == start then start - |older| else 0
  {
    var patched := Patched(older, log, start, index);
    assert log[start..index] + [log[index]] == log[start..index + 1];
    forall e | e in patched ensures e.notificationId.sequence < log[index].notificationId.sequence {
      var i :| 0 <= i < |patched| && patched[i] == e;
      assert e == if i < |older| then older[i] else log[start + i - |older|];
    }
    if index == start {
      assert patched == older;
    } else {
      assert patched[|patched| - 1] == log[index - 1];
    }
  }

  lemma {:induction false} FreshWindowJoins(view: HistoryView, sanitize: string -> string, older: seq<NotificationEntry>, log: seq<NotificationEntry>,
      start: nat, index: nat, owner: NotificationQueueOwner, epoch: nat, shouldPreview: bool, lost: nat)
    requires IsLog(log, owner, epoch) && IsLog(older, owner, epoch) && |older| <= start <= index <= |log|
    requires start < |log|
    requires IsCaughtUp(view, Patched(older, log, start, index), owner, epoch, sanitize, lost)
    ensures var (through, skipped) := (ThroughLog(Patched(older, log, start, index)), if index == start then start - |older| else 0);
            var (after, throughThen) := TakeEntries(view, sanitize, log[index..], through, NextExpected(through), shouldPreview);
            var loss := LostByEntries(view, sanitize, log[index..], through, shouldPreview);
            && skipped <= loss
            && IsCaughtUp(after, Patched(older, log, start, |log|), owner, epoch, sanitize, lost + loss - skipped)
            && throughThen == ThroughLog(Patched(older, log, start, |log|))
    decreases |log| - index
  {
    hide TakeEntry, LostByEntry, IsCaughtUp, Patched, ThroughLog, IsLog, CountEntry;
    if index == |log| {
      assert log[index..] == [];
    } else {
      var patched, entry := Patched(older, log, start, index), log[index];
      var through := ThroughLog(patched);
      assert log[index..][0] == entry && log[index..][1..] == log[index + 1..];
      PatchGrows(older, log, start, index, owner, epoch);
      FreshEntryJoins(view, sanitize, patched, entry, owner, epoch, shouldPreview, lost);
      var (skipped, loss) := (if index == start then start - |older| else 0, LostByEntry(view, sanitize, entry, through, shouldPreview));
      FreshWindowJoins(TakeEntry(view, sanitize, entry, through, NextExpected(through), shouldPreview), sanitize, older, log, start, index + 1,
        owner, epoch, shouldPreview, lost + loss - skipped);
    }
  }

  lemma ReceivedFrom(log: seq<NotificationEntry>, start: nat, sanitize: string -> string)
    requires start <= |log|
    ensures ReceivedLog(log, sanitize)[start..] == ReceivedLog(log[start..], sanitize)
  {
  }

  lemma PatchEndsAlike(older: seq<NotificationEntry>, log: seq<NotificationEntry>, sanitize: string -> string)
    requires |older| <= |log| - MAX_MERGED_NOTIFICATION_COUNT
    ensures var start := |log| - MAX_MERGED_NOTIFICATION_COUNT;
            var patched := Patched(older, log, start, |log|);
            && Patched(older, log, start, start) == older
            && |patched| == |older| + MAX_MERGED_NOTIFICATION_COUNT
            && ThroughLog(patched) == ThroughLog(log)
            && ReceivedLog(patched, sanitize)[|older|..] == ReceivedLog(log, sanitize)[start..]
  {
    var start := |log| - MAX_MERGED_NOTIFICATION_COUNT;
    var patched := Patched(older, log, start, |log|);
    assert log[start..|log|] == log[start..];
    assert patched[|older|..] == log[start..];
    ReceivedFrom(patched, |older|, sanitize);
    ReceivedFrom(log, start, sanitize);
  }

  // A full window that starts past everything known pushes out all that was
  // held before it, and what may have changed there with it.
  lemma FullWindowJoins(view: HistoryView, sanitize: string -> string, older: seq<NotificationEntry>, log: seq<NotificationEntry>,
      owner: NotificationQueueOwner, epoch: nat, shouldPreview: bool, lost: nat)
    requires IsLog(log, owner, epoch) && IsLog(older, owner, epoch) && IsBounded(view)
    requires |log| > MAX_MERGED_NOTIFICATION_COUNT && |older| <= |log| - MAX_MERGED_NOTIFICATION_COUNT
    requires IsCaughtUp(view, older, owner, epoch, sanitize, lost)
    ensures var (start, through) := (|log| - MAX_MERGED_NOTIFICATION_COUNT, ThroughLog(older));
            var (after, throughThen) := TakeEntries(view, sanitize, log[start..], through, NextExpected(through), shouldPreview);
            && IsCaughtUp(after, log, owner, epoch, sanitize, lost + LostByEntries(view, sanitize, log[start..], through, shouldPreview))
            && throughThen == ThroughLog(log)
  {
    hide TakeEntries, LostByEntries, SessionEntries, IsLog, ReceivedLog, Patched;
    var (start, through) := (|log| - MAX_MERGED_NOTIFICATION_COUNT, ThroughLog(older));
    PatchEndsAlike(older, log, sanitize);
    FreshWindowJoins(view, sanitize, older, log, start, start, owner, epoch, shouldPreview, lost);
    TakeEntriesStayBounded(view, sanitize, log[start..], through, NextExpected(through), shouldPreview);
    var after := TakeEntries(view, sanitize, log[start..], through, NextExpected(through), shouldPreview).0;
    var patched := Patched(older, log, start, |log|);
    SessionIsNoLonger(after.entries, owner, epoch);
    LateTailsAgree(SessionEntries(after.entries, owner, epoch), ReceivedLog(patched, sanitize), ReceivedLog(log, sanitize), start - |older|,
      lost + LostByEntries(view, sanitize, log[start..], through, shouldPreview) - (start - |older|));
  }

  // A tail within what two lists end in alike is a tail of both.
  lemma LateTailsAgree(tail: seq<NotificationEntry>, patched: seq<NotificationEntry>, log: seq<NotificationEntry>, skipped: nat, lost: nat)
    requires IsTrimmed(tail, patched, lost) && |tail| <= MAX_MERGED_NOTIFICATION_COUNT <= |patched| && |log| == |patched| + skipped
    requires patched[|patched| - MAX_MERGED_NOTIFICATION_COUNT..] == log[|log| - MAX_MERGED_NOTIFICATION_COUNT..]
    ensures IsTrimmed(tail, log, lost + skipped)
  {
    var (short, long) := (patched[|patched| - MAX_MERGED_NOTIFICATION_COUNT..], log[|log| - MAX_MERGED_NOTIFICATION_COUNT..]);
    assert patched[|patched| - |tail|..] == short[|short| - |tail|..];
    assert log[|log| - |tail|..] == long[|long| - |tail|..];
  }

  // Every snapshot joins: its window reaches back to what was known, or holds
  // all that the history has room for.
  lemma SnapshotJoins(view: HistoryView, sanitize: string -> string, older: seq<NotificationEntry>, log: seq<NotificationEntry>,
      owner: NotificationQueueOwner, epoch: nat, shouldPreview: bool, lost: nat)
    requires IsLog(log, owner, epoch) && IsLog(older, owner, epoch) && IsGrownFrom(log, older) && IsBounded(view)
    requires IsCaughtUp(view, older, owner, epoch, sanitize, lost)
    ensures var (start, through) := (WindowStart(log), ThroughLog(older));
            var (after, throughThen) := TakeEntries(view, sanitize, log[start..], through, NextExpected(through), shouldPreview);
            && IsCaughtUp(after, log, owner, epoch, sanitize, lost + LostByEntries(view, sanitize, log[start..], through, shouldPreview))
            && throughThen == ThroughLog(log)
  {
    hide TakeEntries, LostByEntries, IsCaughtUp, IsLog, ThroughLog;
    if Covers(older, log, WindowStart(log)) {
      CoveringWindowJoins(view, sanitize, older, log, WindowStart(log), owner, epoch, shouldPreview, lost);
    } else {
      FullWindowJoins(view, sanitize, older, log, owner, epoch, shouldPreview, lost);
    }
  }

  // ---------------------------------------------------------------------
  // A live post that skips posts
  // ---------------------------------------------------------------------

  // The session's entries that stay held when `arrived` comes in.
  function StillHeld(view: HistoryView, arrived: NotificationEntry, owner: NotificationQueueOwner, epoch: nat): seq<NotificationEntry> {
    SessionEntries(MakeRoom(ReplaceDuplicates(RemoveHeld(view, arrived.notificationId), arrived)).entries, owner, epoch)
  }

  lemma ArrivalFollowsStillHeld(view: HistoryView, arrived: NotificationEntry, shouldShowToasts: bool, owner: NotificationQueueOwner, epoch: nat)
    requires IsFrom(arrived, owner, epoch)
    ensures SessionEntries(TakeArrival(view, arrived, shouldShowToasts).entries, owner, epoch) == StillHeld(view, arrived, owner, epoch) + [arrived]
  {
    hide SessionEntries, MakeRoom, ReplaceDuplicates, RemoveHeld;
    SessionAppend(MakeRoom(ReplaceDuplicates(RemoveHeld(view, arrived.notificationId), arrived)).entries, [arrived], owner, epoch);
    SessionOne(arrived, owner, epoch);
  }

  // `held` and the newest entry of `log` make a tail of it only when `held` is
  // empty: otherwise it ends in an entry the log changed or went past.
  lemma SkippedTail(held: seq<NotificationEntry>, older: seq<NotificationEntry>, log: seq<NotificationEntry>,
      owner: NotificationQueueOwner, epoch: nat, sanitize: string -> string, missing: nat)
    requires IsLog(log, owner, epoch) && IsLog(older, owner, epoch) && IsGrownFrom(log, older)
    requires log != [] && !Covers(older, log, |log| - 1)
    requires IsTrimmed(held + [SanitizeEntry(log[|log| - 1], sanitize)], ReceivedLog(older + [log[|log| - 1]], sanitize), missing)
    ensures IsTrimmed(held + [SanitizeEntry(log[|log| - 1], sanitize)], ReceivedLog(log, sanitize), missing + (|log| - 1 - |older|)) <==> held == []
  {
    var newest := SanitizeEntry(log[|log| - 1], sanitize);
    var (tail, patched, received) := (held + [newest], ReceivedLog(older + [log[|log| - 1]], sanitize), ReceivedLog(log, sanitize));
    if held == [] {
      assert received[|log| - 1..] == [newest];
    } else {
      assert tail[|tail| - 2] == patched[|patched| - 2] == SanitizeEntry(older[|older| - 1], sanitize);
      assert received[|log| - 2] == SanitizeEntry(log[|log| - 2], sanitize) != tail[|tail| - 2];
    }
  }

  lemma SkippingPostJoins(view: HistoryView, sanitize: string -> string, older: seq<NotificationEntry>, log: seq<NotificationEntry>,
      owner: NotificationQueueOwner, epoch: nat, shouldPreview: bool, lost: nat)
    requires IsLog(log, owner, epoch) && IsLog(older, owner, epoch) && IsGrownFrom(log, older)
    requires log != [] && !Covers(older, log, |log| - 1)
    requires IsCaughtUp(view, older, owner, epoch, sanitize, lost)
    ensures var (entry, through) := (log[|log| - 1], ThroughLog(older));
            var received := SanitizeEntry(entry, sanitize);
            IsCaughtUp(TakeEntry(view, sanitize, entry, through, NextExpected(through), shouldPreview), log,
              owner, epoch, sanitize, lost + LostByEntry(view, sanitize, entry, through, shouldPreview))
            <==> StillHeld(CountSkipped(view, entry, NextExpected(through)), received, owner, epoch) == []
  {
    hide TakeArrival, Evicted, SessionEntries, ReceivedLog, StillHeld, IsTrimmed, IsGrownFrom;
    var (entry, through) := (log[|log| - 1], ThroughLog(older));
    var (received, counted) := (SanitizeEntry(entry, sanitize), CountSkipped(view, entry, NextExpected(through)));
    FreshEntryJoins(view, sanitize, older, entry, owner, epoch, shouldPreview, lost);
    ArrivalFollowsStillHeld(counted, received, shouldPreview, owner, epoch);
    SkippedTail(StillHeld(counted, received, owner, epoch), older, log, owner, epoch, sanitize,
      lost + LostByEntry(view, sanitize, entry, through, shouldPreview) - (|log| - 1 - |older|));
  }
}
