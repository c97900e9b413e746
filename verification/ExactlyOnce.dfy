// Session entries are merged exactly once: whatever mix of snapshots and live
// posts reaches the viewer, again or out of date, the session entries it holds
// are the session's own log, in order, less what it counted as lost.
module ExactlyOnce {
  import opened Options
  import opened Notifications
  import opened HistoryView
  import opened HistoryMerge
  import opened HistoryUnread
  import opened HistoryLedger

  // ---------------------------------------------------------------------
  // The entries held from one session queue
  // ---------------------------------------------------------------------

  function SessionEntries(entries: seq<NotificationEntry>, owner: NotificationQueueOwner, epoch: nat): seq<NotificationEntry> {
    if entries == [] then []
    else
      var last := entries[|entries| - 1];
      SessionEntries(entries[..|entries| - 1], owner, epoch) + (if IsFrom(last, owner, epoch) then [last] else [])
  }

  lemma {:induction false} SessionAppend(first: seq<NotificationEntry>, second: seq<NotificationEntry>, owner: NotificationQueueOwner, epoch: nat)
    ensures SessionEntries(first + second, owner, epoch) == SessionEntries(first, owner, epoch) + SessionEntries(second, owner, epoch)
    decreases |second|
  {
    if second == [] {
      assert first + second == first;
    } else {
      var init := second[..|second| - 1];
      assert (first + second)[..|first + second| - 1] == first + init;
      SessionAppend(first, init, owner, epoch);
    }
  }

  lemma SessionOne(entry: NotificationEntry, owner: NotificationQueueOwner, epoch: nat)
    ensures SessionEntries([entry], owner, epoch) == if IsFrom(entry, owner, epoch) then [entry] else []
  {
    assert [entry][..0] == [];
  }

  lemma {:induction false} SessionHolds(entries: seq<NotificationEntry>, owner: NotificationQueueOwner, epoch: nat)
    ensures forall entry :: entry in SessionEntries(entries, owner, epoch) <==> entry in entries && IsFrom(entry, owner, epoch)
  {
    if entries != [] {
      var init := entries[..|entries| - 1];
      SessionHolds(init, owner, epoch);
      assert entries == init + [entries[|entries| - 1]];
    }
  }

  predicate IsTail(tail: seq<NotificationEntry>, of: seq<NotificationEntry>) {
    |tail| <= |of| && tail == of[|of| - |tail|..]
  }

  // ---------------------------------------------------------------------
  // What an arrival leaves of them
  // ---------------------------------------------------------------------

  lemma {:induction false} OthersKeepSession(entries: seq<NotificationEntry>, arrived: NotificationEntry, owner: NotificationQueueOwner, epoch: nat)
    requires owner.SessionOwner?
    ensures SessionEntries(KeepOthers(entries, arrived), owner, epoch) == SessionEntries(entries, owner, epoch)
  {
    if entries != [] {
      var init, last := entries[..|entries| - 1], entries[|entries| - 1];
      OthersKeepSession(init, arrived, owner, epoch);
      if !IsOwnDuplicate(last, arrived) {
        SessionAppend(KeepOthers(init, arrived), [last], owner, epoch);
        SessionOne(last, owner, epoch);
      } else {
        assert KeepOthers(entries, arrived) == KeepOthers(init, arrived);
      }
    }
  }

  lemma ReplacingKeepsSession(view: HistoryView, arrived: NotificationEntry, owner: NotificationQueueOwner, epoch: nat)
    requires owner.SessionOwner?
    ensures SessionEntries(ReplaceDuplicates(view, arrived).entries, owner, epoch) == SessionEntries(view.entries, owner, epoch)
  {
    hide KeepOthers, SessionEntries, RemoveDuplicates;
    DuplicatesGo(view, 0, arrived);
    assert view.entries[..0] == [] && view.entries[0..] == view.entries;
    assert [] + KeepOthers(view.entries, arrived) == KeepOthers(view.entries, arrived);
    OthersKeepSession(view.entries, arrived, owner, epoch);
  }

  // Making room loses at most one of them, the oldest, when it evicts.
  lemma RoomKeepsSession(view: HistoryView, owner: NotificationQueueOwner, epoch: nat)
    ensures var (before, after) := (SessionEntries(view.entries, owner, epoch), SessionEntries(MakeRoom(view).entries, owner, epoch));
            && (after == before || (before != [] && after == before[1..]))
            && (|view.entries| != MAX_MERGED_NOTIFICATION_COUNT ==> after == before)
  {
    if |view.entries| == MAX_MERGED_NOTIFICATION_COUNT {
      var oldest, rest := view.entries[0], view.entries[1..];
      assert view.entries == [oldest] + rest;
      assert MakeRoom(view).entries == rest by { assert view.entries[..0] == []; }
      SessionAppend([oldest], rest, owner, epoch);
      SessionOne(oldest, owner, epoch);
    }
  }

  // `after` is `before` with up to `lost` of its oldest gone.
  predicate IsTrimmed(after: seq<NotificationEntry>, before: seq<NotificationEntry>, lost: nat) {
    IsTail(after, before) && |before| - |after| <= lost
  }

  lemma PushAddsToSession(view: HistoryView, arrived: NotificationEntry, shouldPreview: bool, owner: NotificationQueueOwner, epoch: nat)
    requires owner.SessionOwner?
    ensures var (before, after) := (SessionEntries(view.entries, owner, epoch), SessionEntries(PushNewest(view, arrived, shouldPreview).entries, owner, epoch));
            var lost := if |ReplaceDuplicates(view, arrived).entries| == MAX_MERGED_NOTIFICATION_COUNT then 1 else 0;
            && (IsFrom(arrived, owner, epoch) ==> after != [] && after[|after| - 1] == arrived && IsTrimmed(after[..|after| - 1], before, lost))
            && (!IsFrom(arrived, owner, epoch) ==> IsTrimmed(after, before, lost))
  {
    hide SessionEntries, ReplaceDuplicates, MakeRoom;
    var replaced := ReplaceDuplicates(view, arrived);
    ReplacingKeepsSession(view, arrived, owner, epoch);
    RoomKeepsSession(replaced, owner, epoch);
    SessionAppend(MakeRoom(replaced).entries, [arrived], owner, epoch);
    SessionOne(arrived, owner, epoch);
    var room := SessionEntries(MakeRoom(replaced).entries, owner, epoch);
    if IsFrom(arrived, owner, epoch) {
      assert (room + [arrived])[..|room|] == room;
    } else {
      assert room + [] == room;
    }
  }

  // An entry that is not held, or is the newest one held from the session,
  // leaves the others when it is removed to move.
  lemma RemoveHeldFromSession(view: HistoryView, id: NotificationId, owner: NotificationQueueOwner, epoch: nat)
    requires AreUnique(view.entries)
    ensures var (before, after) := (SessionEntries(view.entries, owner, epoch), SessionEntries(RemoveHeld(view, id).entries, owner, epoch));
            && (before != [] && before[|before| - 1].notificationId == id ==> after == before[..|before| - 1])
            && ((forall entry :: entry in before ==> entry.notificationId != id) ==> after == before)
  {
    hide SessionEntries;
    var found := FindIndex(view.entries, id);
    SessionHolds(view.entries, owner, epoch);
    if found.Some? {
      RemoveFromSession(view.entries, found.value, owner, epoch);
    } else {
      FindsNone(view.entries, id);
      var before := SessionEntries(view.entries, owner, epoch);
      assert before != [] ==> before[|before| - 1] in before;
    }
  }

  // The session's entries around one held entry.
  lemma SessionAround(entries: seq<NotificationEntry>, index: nat, owner: NotificationQueueOwner, epoch: nat)
    requires index < |entries|
    ensures var (early, late) := (SessionEntries(entries[..index], owner, epoch), SessionEntries(entries[index + 1..], owner, epoch));
            && SessionEntries(Without(entries, index), owner, epoch) == early + late
            && SessionEntries(entries, owner, epoch)
               == if IsFrom(entries[index], owner, epoch) then early + [entries[index]] + late else early + late
  {
    var (head, held, tail) := (entries[..index], entries[index], entries[index + 1..]);
    assert entries == (head + [held]) + tail;
    SessionAppend(head, tail, owner, epoch);
    SessionAppend(head + [held], tail, owner, epoch);
    SessionAppend(head, [held], owner, epoch);
    SessionOne(held, owner, epoch);
    assert SessionEntries(head, owner, epoch) + [] == SessionEntries(head, owner, epoch);
  }

  lemma LaterIdsDiffer(entries: seq<NotificationEntry>, index: nat, owner: NotificationQueueOwner, epoch: nat)
    requires AreUnique(entries) && index < |entries|
    ensures forall entry :: entry in SessionEntries(entries[index + 1..], owner, epoch) ==> entry.notificationId != entries[index].notificationId
  {
    var tail := entries[index + 1..];
    SessionHolds(tail, owner, epoch);
    assert forall i :: 0 <= i < |tail| ==> tail[i] == entries[index + 1 + i];
  }

  lemma RemoveFromSession(entries: seq<NotificationEntry>, index: nat, owner: NotificationQueueOwner, epoch: nat)
    requires AreUnique(entries) && index < |entries|
    ensures var (before, after) := (SessionEntries(entries, owner, epoch), SessionEntries(Without(entries, index), owner, epoch));
            && (before != [] && before[|before| - 1].notificationId == entries[index].notificationId ==> after == before[..|before| - 1])
            && ((forall entry :: entry in before ==> entry.notificationId != entries[index].notificationId) ==> after == before)
  {
    var held, before := entries[index], SessionEntries(entries, owner, epoch);
    var (early, late) := (SessionEntries(entries[..index], owner, epoch), SessionEntries(entries[index + 1..], owner, epoch));
    SessionAround(entries, index, owner, epoch);
    LaterIdsDiffer(entries, index, owner, epoch);
    if IsFrom(held, owner, epoch) {
      assert before == early + [held] + late;
      assert before[|early|] == held;
      assert late != [] ==> before[|before| - 1] == late[|late| - 1] && late[|late| - 1] in late;
    } else {
      SessionHolds(entries, owner, epoch);
      assert before != [] ==> before[|before| - 1] in before;
    }
  }

  // ---------------------------------------------------------------------
  // Ids stay unique
  // ---------------------------------------------------------------------

  lemma NewestStaysUnique(entries: seq<NotificationEntry>, newest: NotificationEntry)
    requires AreUnique(entries) && !IsHeld(entries, newest.notificationId)
    ensures AreUnique(entries + [newest])
  {
  }

  lemma {:induction false} OthersStayUnique(entries: seq<NotificationEntry>, arrived: NotificationEntry)
    requires AreUnique(entries)
    ensures AreUnique(KeepOthers(entries, arrived))
  {
    if entries != [] {
      var init, last := entries[..|entries| - 1], entries[|entries| - 1];
      assert AreUnique(init) && !IsHeld(init, last.notificationId);
      OthersStayUnique(init, arrived);
      KeepOthersHolds(init, arrived);
      StillNotHeld(KeepOthers(init, arrived), init, last.notificationId);
      NewestStaysUnique(KeepOthers(init, arrived), last);
      assert KeepOthers(init, arrived) + [] == KeepOthers(init, arrived);
    }
  }

  lemma ReplacingStaysUnique(view: HistoryView, arrived: NotificationEntry)
    requires AreUnique(view.entries)
    ensures AreUnique(ReplaceDuplicates(view, arrived).entries)
    ensures forall entry :: entry in ReplaceDuplicates(view, arrived).entries ==> entry in view.entries
  {
    DuplicatesGo(view, 0, arrived);
    assert view.entries[..0] == [] && view.entries[0..] == view.entries;
    assert [] + KeepOthers(view.entries, arrived) == KeepOthers(view.entries, arrived);
    OthersStayUnique(view.entries, arrived);
    KeepOthersHolds(view.entries, arrived);
  }

  lemma RoomStaysUnique(view: HistoryView)
    requires AreUnique(view.entries)
    ensures AreUnique(MakeRoom(view).entries)
    ensures forall entry :: entry in MakeRoom(view).entries ==> entry in view.entries
  {
    if view.entries != [] { WithoutStaysUnique(view.entries, 0); }
  }

  lemma ArrivalStaysUnique(view: HistoryView, arrived: NotificationEntry, shouldShowToasts: bool)
    requires AreUnique(view.entries)
    ensures AreUnique(TakeArrival(view, arrived, shouldShowToasts).entries)
  {
    var removed := RemoveHeld(view, arrived.notificationId);
    var found := FindIndex(view.entries, arrived.notificationId);
    assert AreUnique(removed.entries) && !IsHeld(removed.entries, arrived.notificationId) by {
      if found.Some? { WithoutStaysUnique(view.entries, found.value); } else { FindsNone(view.entries, arrived.notificationId); }
    }
    var replaced := ReplaceDuplicates(removed, arrived);
    ReplacingStaysUnique(removed, arrived);
    RoomStaysUnique(replaced);
    StillNotHeld(MakeRoom(replaced).entries, removed.entries, arrived.notificationId);
    NewestStaysUnique(MakeRoom(replaced).entries, arrived);
  }

  // ---------------------------------------------------------------------
  // Caught up to a place in the log
  // ---------------------------------------------------------------------

  function ReceivedLog(log: seq<NotificationEntry>, sanitize: string -> string): (received: seq<NotificationEntry>)
    ensures |received| == |log|
  {
    seq(|log|, i requires 0 <= i < |log| => SanitizeEntry(log[i], sanitize))
  }

  function ThroughLog(log: seq<NotificationEntry>): Option<MergedThrough> {
    if log == [] then None else Some(ThroughOf(log[|log| - 1]))
  }

  // The session entries held are those of `log`, but for up to `lost` of the
  // oldest.
  predicate IsCaughtUp(view: HistoryView, log: seq<NotificationEntry>, owner: NotificationQueueOwner, epoch: nat, sanitize: string -> string, lost: nat) {
    && AreUnique(view.entries)
    && IsTrimmed(SessionEntries(view.entries, owner, epoch), ReceivedLog(log, sanitize), lost)
  }

  lemma TrimmedComposes(after: seq<NotificationEntry>, before: seq<NotificationEntry>, of: seq<NotificationEntry>, first: nat, second: nat)
    requires IsTrimmed(before, of, first) && IsTrimmed(after, before, second)
    ensures IsTrimmed(after, of, first + second)
  {
  }

  lemma TrimmedAppends(tail: seq<NotificationEntry>, of: seq<NotificationEntry>, newest: NotificationEntry, lost: nat)
    requires IsTrimmed(tail, of, lost)
    ensures IsTrimmed(tail + [newest], of + [newest], lost)
  {
  }

  // An arrival's own count of what it evicts.
  lemma ArrivalAddsToSession(view: HistoryView, arrived: NotificationEntry, shouldShowToasts: bool, owner: NotificationQueueOwner, epoch: nat)
    requires owner.SessionOwner?
    ensures var before := SessionEntries(RemoveHeld(view, arrived.notificationId).entries, owner, epoch);
            var after := SessionEntries(TakeArrival(view, arrived, shouldShowToasts).entries, owner, epoch);
            var evicted := Evicted(view, Arrive(arrived, shouldShowToasts));
            && (IsFrom(arrived, owner, epoch) ==> after != [] && after[|after| - 1] == arrived && IsTrimmed(after[..|after| - 1], before, evicted))
            && (!IsFrom(arrived, owner, epoch) ==> IsTrimmed(after, before, evicted))
  {
    hide PushNewest, ReplaceDuplicates, RemoveHeld, SessionEntries, IsTrimmed;
    PushAddsToSession(RemoveHeld(view, arrived.notificationId), arrived, shouldShowToasts, owner, epoch);
  }

  // A sequence past those of `known` joins them.
  lemma NewEntryCatchesUp(view: HistoryView, known: seq<NotificationEntry>, entry: NotificationEntry, shouldShowToasts: bool,
      owner: NotificationQueueOwner, epoch: nat, sanitize: string -> string, lost: nat)
    requires owner.SessionOwner? && IsFrom(entry, owner, epoch) && IsCaughtUp(view, known, owner, epoch, sanitize, lost)
    requires forall e :: e in known ==> e.notificationId != entry.notificationId
    ensures var arrival := Arrive(SanitizeEntry(entry, sanitize), shouldShowToasts);
            IsCaughtUp(TakeArrival(view, arrival.entry, shouldShowToasts), known + [entry], owner, epoch, sanitize, lost + Evicted(view, arrival))
  {
    var received := SanitizeEntry(entry, sanitize);
    var before := SessionEntries(view.entries, owner, epoch);
    var after := SessionEntries(TakeArrival(view, received, shouldShowToasts).entries, owner, epoch);
    assert forall e :: e in before ==> e.notificationId != entry.notificationId by {
      var log := ReceivedLog(known, sanitize);
      assert forall i :: 0 <= i < |log| ==> log[i].notificationId == known[i].notificationId && known[i] in known;
    }
    RemoveHeldFromSession(view, entry.notificationId, owner, epoch);
    ArrivalAddsToSession(view, received, shouldShowToasts, owner, epoch);
    ArrivalStaysUnique(view, received, shouldShowToasts);
    CatchUpBy(before, after, known, entry, sanitize, lost, Evicted(view, Arrive(received, shouldShowToasts)));
  }

  lemma CatchUpBy(before: seq<NotificationEntry>, after: seq<NotificationEntry>, known: seq<NotificationEntry>, entry: NotificationEntry,
      sanitize: string -> string, lost: nat, evicted: nat)
    requires IsTrimmed(before, ReceivedLog(known, sanitize), lost)
    requires after != [] && after[|after| - 1] == SanitizeEntry(entry, sanitize) && IsTrimmed(after[..|after| - 1], before, evicted)
    ensures IsTrimmed(after, ReceivedLog(known + [entry], sanitize), lost + evicted)
  {
    var init := after[..|after| - 1];
    TrimmedComposes(init, before, ReceivedLog(known, sanitize), lost, evicted);
    TrimmedAppends(init, ReceivedLog(known, sanitize), SanitizeEntry(entry, sanitize), lost + evicted);
    assert after == init + [SanitizeEntry(entry, sanitize)];
    assert ReceivedLog(known + [entry], sanitize) == ReceivedLog(known, sanitize) + [SanitizeEntry(entry, sanitize)];
  }

  lemma RemovedNewest(view: HistoryView, older: seq<NotificationEntry>, id: NotificationId,
      owner: NotificationQueueOwner, epoch: nat, sanitize: string -> string, lost: nat)
    requires IsCaughtUp(view, older, owner, epoch, sanitize, lost)
    requires older != [] && older[|older| - 1].notificationId == id
    ensures IsTrimmed(SessionEntries(RemoveHeld(view, id).entries, owner, epoch), ReceivedLog(older[..|older| - 1], sanitize), lost)
  {
    hide RemoveHeld, SessionEntries;
    var before, log := SessionEntries(view.entries, owner, epoch), ReceivedLog(older, sanitize);
    assert ReceivedLog(older[..|older| - 1], sanitize) == log[..|log| - 1];
    if before != [] {
      assert before[|before| - 1] == log[|log| - 1];
    }
    assert SessionEntries(RemoveHeld(view, id).entries, owner, epoch) == (if before == [] then [] else before[..|before| - 1]) by {
      RemoveHeldFromSession(view, id, owner, epoch);
    }
  }

  // A repeat of the newest entry of `older` takes its place.
  lemma RepeatCatchesUp(view: HistoryView, older: seq<NotificationEntry>, entry: NotificationEntry, shouldShowToasts: bool,
      owner: NotificationQueueOwner, epoch: nat, sanitize: string -> string, lost: nat)
    requires owner.SessionOwner? && IsFrom(entry, owner, epoch) && IsCaughtUp(view, older, owner, epoch, sanitize, lost)
    requires older != [] && older[|older| - 1].notificationId == entry.notificationId
    ensures var arrival := Arrive(SanitizeEntry(entry, sanitize), shouldShowToasts);
            IsCaughtUp(TakeArrival(view, arrival.entry, shouldShowToasts), older[..|older| - 1] + [entry],
              owner, epoch, sanitize, lost + Evicted(view, arrival))
  {
    var received, known := SanitizeEntry(entry, sanitize), older[..|older| - 1];
    var removed := SessionEntries(RemoveHeld(view, entry.notificationId).entries, owner, epoch);
    var after := SessionEntries(TakeArrival(view, received, shouldShowToasts).entries, owner, epoch);
    RemovedNewest(view, older, entry.notificationId, owner, epoch, sanitize, lost);
    ArrivalAddsToSession(view, received, shouldShowToasts, owner, epoch);
    ArrivalStaysUnique(view, received, shouldShowToasts);
    CatchUpBy(removed, after, known, entry, sanitize, lost, Evicted(view, Arrive(received, shouldShowToasts)));
  }
}
