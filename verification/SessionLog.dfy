// The session's side of the merge: the log of every entry its queue ever
// posted, and the queue as the window of the newest 256
// (crates/koshi-core/src/notification.rs).
module SessionLog {
  import opened Notifications

  const NO_LIMIT: nat := 0

  function LogOf(posts: seq<CorePost>, owner: NotificationQueueOwner, epoch: nat, sanitize: string -> string): seq<NotificationEntry> {
    if posts == [] then []
    else
      var post := posts[|posts| - 1];
      PostedEntries(LogOf(posts[..|posts| - 1], owner, epoch, sanitize), owner, epoch, post, sanitize(post.text), NO_LIMIT)
  }

  function RevisionOf(posts: seq<CorePost>): nat {
    if posts == [] then 0 else RevisionOf(posts[..|posts| - 1]) + posts[|posts| - 1].postCount
  }

  function QueueOf(posts: seq<CorePost>, owner: NotificationQueueOwner, epoch: nat, sanitize: string -> string): NotificationQueue {
    if posts == [] then EmptyQueue(owner, epoch)
    else PostCoreEntry(QueueOf(posts[..|posts| - 1], owner, epoch, sanitize), sanitize, posts[|posts| - 1])
  }

  function WindowStart(log: seq<NotificationEntry>): nat {
    if |log| <= MAX_QUEUED_NOTIFICATION_COUNT then 0 else |log| - MAX_QUEUED_NOTIFICATION_COUNT
  }

  // Sequences count from 0 with no gap, and each id names the session.
  predicate IsNumbered(log: seq<NotificationEntry>, owner: NotificationQueueOwner, epoch: nat) {
    forall i :: 0 <= i < |log| ==> log[i].notificationId == NotificationId(owner, epoch, i)
  }

  lemma {:induction false} LogIsNumbered(posts: seq<CorePost>, owner: NotificationQueueOwner, epoch: nat, sanitize: string -> string)
    ensures IsNumbered(LogOf(posts, owner, epoch, sanitize), owner, epoch)
  {
    if posts != [] {
      LogIsNumbered(posts[..|posts| - 1], owner, epoch, sanitize);
    }
  }

  lemma PostKeepsWindow(log: seq<NotificationEntry>, owner: NotificationQueueOwner, epoch: nat, post: CorePost, text: string)
    ensures var posted := PostedEntries(log, owner, epoch, post, text, NO_LIMIT);
            PostedEntries(log[WindowStart(log)..], owner, epoch, post, text, MAX_QUEUED_NOTIFICATION_COUNT) == posted[WindowStart(posted)..]
  {
    var window, start := log[WindowStart(log)..], WindowStart(log);
    if log != [] {
      assert window[|window| - 1] == log[|log| - 1];
    }
    var posted := PostedEntries(log, owner, epoch, post, text, NO_LIMIT);
    if RepeatsNewest(log, post, text) {
      var newest := posted[|log| - 1];
      assert posted == log[|log| - 1 := newest];
      assert posted[start..] == window[|window| - 1 := newest];
    } else {
      var added := posted[|log|];
      assert posted == log + [added];
      if |window| == MAX_QUEUED_NOTIFICATION_COUNT {
        assert start + 1 <= |log|;
        assert (log + [added])[start + 1..] == log[start + 1..] + [added];
        assert window[1..] == log[start + 1..];
      } else {
        assert start == 0 && posted[0..] == posted && window == log;
      }
    }
  }

  // The bounded queue holds the newest entries of the log, at the revision that
  // counts its posts.
  lemma {:induction false} QueueIsWindow(posts: seq<CorePost>, owner: NotificationQueueOwner, epoch: nat, sanitize: string -> string)
    ensures var (log, queue) := (LogOf(posts, owner, epoch, sanitize), QueueOf(posts, owner, epoch, sanitize));
            && queue.entries == log[WindowStart(log)..]
            && queue.owner == owner && queue.epoch == epoch && queue.revision == RevisionOf(posts)
  {
    if posts != [] {
      var init := posts[..|posts| - 1];
      QueueIsWindow(init, owner, epoch, sanitize);
      var post := posts[|posts| - 1];
      PostKeepsWindow(LogOf(init, owner, epoch, sanitize), owner, epoch, post, sanitize(post.text));
    }
  }

  lemma {:induction false} RevisionRises(posts: seq<CorePost>, fewer: nat)
    requires fewer <= |posts| && forall post :: post in posts ==> post.postCount > 0
    ensures RevisionOf(posts[..fewer]) <= RevisionOf(posts)
    ensures fewer < |posts| ==> RevisionOf(posts[..fewer]) < RevisionOf(posts)
    decreases |posts|
  {
    if fewer == |posts| {
      assert posts[..fewer] == posts;
    } else {
      var init := posts[..|posts| - 1];
      assert posts[|posts| - 1] in posts;
      assert forall post :: post in init ==> post in posts;
      RevisionRises(init, fewer);
      assert init[..fewer] == posts[..fewer];
    }
  }

  lemma {:induction false} RepeatsAreCounted(posts: seq<CorePost>, owner: NotificationQueueOwner, epoch: nat, sanitize: string -> string)
    ensures forall entry :: entry in LogOf(posts, owner, epoch, sanitize) ==> entry.repeatCount <= RevisionOf(posts)
  {
    if posts != [] {
      RepeatsAreCounted(posts[..|posts| - 1], owner, epoch, sanitize);
    }
  }

  // How a log grows: every entry but its newest stays as it is, and the newest
  // stays or repeats.
  predicate IsGrownFrom(log: seq<NotificationEntry>, older: seq<NotificationEntry>) {
    && |older| <= |log|
    && (forall i :: 0 <= i < |older| - 1 ==> log[i] == older[i])
    && (older != [] ==>
         var (now, then_) := (log[|older| - 1], older[|older| - 1]);
         now == then_ || (now.repeatCount > then_.repeatCount && now.notificationId == then_.notificationId))
  }

  lemma GrowthComposes(log: seq<NotificationEntry>, older: seq<NotificationEntry>, oldest: seq<NotificationEntry>)
    requires IsGrownFrom(log, older) && IsGrownFrom(older, oldest)
    ensures IsGrownFrom(log, oldest)
  {
  }

  lemma PostGrows(log: seq<NotificationEntry>, owner: NotificationQueueOwner, epoch: nat, post: CorePost, text: string)
    requires post.postCount > 0
    requires log != [] ==> log[|log| - 1].repeatCount + post.postCount <= MAX_REPEAT_COUNT
    ensures IsGrownFrom(PostedEntries(log, owner, epoch, post, text, NO_LIMIT), log)
  {
  }

  // With fewer posts than a repeat count can hold, no repeat goes unseen.
  lemma {:induction false} LogGrows(posts: seq<CorePost>, fewer: nat, owner: NotificationQueueOwner, epoch: nat, sanitize: string -> string)
    requires fewer <= |posts| && RevisionOf(posts) <= MAX_REPEAT_COUNT
    requires forall post :: post in posts ==> post.postCount > 0
    ensures IsGrownFrom(LogOf(posts, owner, epoch, sanitize), LogOf(posts[..fewer], owner, epoch, sanitize))
    decreases |posts|
  {
    if fewer == |posts| {
      assert posts[..fewer] == posts;
    } else {
      var init, post := posts[..|posts| - 1], posts[|posts| - 1];
      assert post in posts;
      assert forall p :: p in init ==> p in posts;
      LogGrows(init, fewer, owner, epoch, sanitize);
      assert init[..fewer] == posts[..fewer];
      var log := LogOf(init, owner, epoch, sanitize);
      assert log != [] ==> log[|log| - 1].repeatCount <= RevisionOf(init) by {
        RepeatsAreCounted(init, owner, epoch, sanitize);
        if log != [] { assert log[|log| - 1] in log; }
      }
      PostGrows(log, owner, epoch, post, sanitize(post.text));
      GrowthComposes(LogOf(posts, owner, epoch, sanitize), log, LogOf(posts[..fewer], owner, epoch, sanitize));
    }
  }
}
