// The notification entries that a viewer's history and toast hold
// (crates/koshi-core/src/notification.rs).
module Notifications {
  import opened Options

  datatype NotificationSeverity = Info | Warning | Error
  datatype NotificationSource = Core

  // Whose queue an entry belongs to: one viewer's own, or a session's.
  datatype NotificationQueueOwner = ClientOwner(clientNumber: nat) | SessionOwner(sessionNumber: nat)

  datatype NotificationId = NotificationId(owner: NotificationQueueOwner, epoch: nat, sequence: nat)

  datatype NotificationEntry = NotificationEntry(
    notificationId: NotificationId,
    source: NotificationSource,
    severity: NotificationSeverity,
    text: string,
    createdAt: nat,
    repeatCount: nat)

  const MAX_QUEUED_NOTIFICATION_COUNT: nat := 256
  const MAX_REPEAT_COUNT: nat := 0xffff_ffff

  // One owner's bounded queue of entries, oldest first.
  datatype NotificationQueue = NotificationQueue(
    owner: NotificationQueueOwner,
    epoch: nat,
    revision: nat,
    entries: seq<NotificationEntry>)

  datatype QueueError = TooManyEntries(count: nat) | ForeignEntry(id: NotificationId)

  datatype CorePost = CorePost(severity: NotificationSeverity, text: string, postCount: nat, createdAt: nat)

  function EmptyQueue(owner: NotificationQueueOwner, epoch: nat): NotificationQueue {
    NotificationQueue(owner, epoch, 0, [])
  }

  function AddRepeats(repeatCount: nat, postCount: nat): nat {
    if repeatCount + postCount <= MAX_REPEAT_COUNT then repeatCount + postCount else MAX_REPEAT_COUNT
  }

  predicate RepeatsNewest(entries: seq<NotificationEntry>, post: CorePost, text: string) {
    entries != [] && entries[|entries| - 1].source == Core
    && entries[|entries| - 1].severity == post.severity && entries[|entries| - 1].text == text
  }

  // The entries after one run of posts: the newest one repeats, or the next
  // sequence is posted, at the cost of the oldest once `limit` are held.
  function PostedEntries(entries: seq<NotificationEntry>, owner: NotificationQueueOwner, epoch: nat, post: CorePost, text: string, limit: nat)
    : (posted: seq<NotificationEntry>)
    ensures posted != []
  {
    if RepeatsNewest(entries, post, text) then
      var newest := entries[|entries| - 1];
      entries[|entries| - 1 := newest.(repeatCount := AddRepeats(newest.repeatCount, post.postCount), createdAt := post.createdAt)]
    else
      var sequence := if entries == [] then 0 else entries[|entries| - 1].notificationId.sequence + 1;
      (if |entries| == limit && entries != [] then entries[1..] else entries)
      + [NotificationEntry(NotificationId(owner, epoch, sequence), Core, post.severity, text, post.createdAt, post.postCount)]
  }

  function PostCoreEntry(queue: NotificationQueue, sanitize: string -> string, post: CorePost): (posted: NotificationQueue)
    ensures posted.entries != []
  {
    queue.(revision := queue.revision + post.postCount,
      entries := PostedEntries(queue.entries, queue.owner, queue.epoch, post, sanitize(post.text), MAX_QUEUED_NOTIFICATION_COUNT))
  }

  predicate IsFrom(entry: NotificationEntry, owner: NotificationQueueOwner, epoch: nat) {
    entry.notificationId.owner == owner && entry.notificationId.epoch == epoch
  }

  predicate IsForeign(entry: NotificationEntry, queue: NotificationQueue) {
    entry.notificationId.owner != queue.owner || entry.notificationId.epoch != queue.epoch
  }

  function FirstForeign(entries: seq<NotificationEntry>, queue: NotificationQueue): (id: Option<NotificationId>)
    ensures id.None? <==> forall entry :: entry in entries ==> !IsForeign(entry, queue)
  {
    if entries == [] then None
    else if IsForeign(entries[0], queue) then Some(entries[0].notificationId)
    else FirstForeign(entries[1..], queue)
  }

  function ValidateQueue(queue: NotificationQueue): Option<QueueError> {
    if |queue.entries| > MAX_QUEUED_NOTIFICATION_COUNT then Some(TooManyEntries(|queue.entries|))
    else match FirstForeign(queue.entries, queue) case Some(id) => Some(ForeignEntry(id)) case None => None
  }
}
