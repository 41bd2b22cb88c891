/** The notification panel's own list: the same mark-read operations and unread count as the
    notification context, plus deleting entries by id. */
module NotificationSystem {

  import opened Seqs
  import opened NotificationContext

  /** The panel's `markAsRead`, written with the same map as the context's. */
  function PanelMarkAsRead(ns: seq<Notification>, id: string): (r: seq<Notification>)
    ensures r == MarkAsRead(ns, id)
  {
    seq(|ns|, i requires 0 <= i < |ns| => if ns[i].id == id then ns[i].(isRead := true) else ns[i])
  }

  /** The panel's `markAllAsRead`, written with the same map as the context's. */
  function PanelMarkAllAsRead(ns: seq<Notification>): (r: seq<Notification>)
    ensures r == MarkAllAsRead(ns)
  {
    seq(|ns|, i requires 0 <= i < |ns| => ns[i].(isRead := true))
  }

  /** The filter predicate of `deleteNotification(id)`: keep entries with another id. */
  function KeepsOther(id: string): Notification -> bool
  {
    (n: Notification) => n.id != id
  }

  /** `deleteNotification(id)`: the entries whose id differs, in their original order. */
  function DeleteNotification(ns: seq<Notification>, id: string): (r: seq<Notification>)
    ensures |r| <= |ns|
    ensures forall i :: 0 <= i < |r| ==> r[i].id != id
  {
    Filter(KeepsOther(id), ns)
  }

  /** Deletion removes every copy of an entry with that id and keeps every other entry as
      often as it occurred. */
  lemma DeleteRemovesExactly(ns: seq<Notification>, id: string, n: Notification)
    ensures multiset(DeleteNotification(ns, id))[n] == if n.id == id then 0 else multiset(ns)[n]
  {
    FilterMultiplicity(KeepsOther(id), ns, n);
  }

  /** Deletion keeps the survivors in order: deleting from a concatenation deletes from each
      part. */
  lemma DeleteKeepsOrder(a: seq<Notification>, b: seq<Notification>, id: string)
    ensures DeleteNotification(a + b, id) == DeleteNotification(a, id) + DeleteNotification(b, id)
  {
    FilterConcat(KeepsOther(id), a, b);
  }

  /** Deleting an id no entry has leaves the list as it was. */
  lemma DeleteAbsentIsNoOp(ns: seq<Notification>, id: string)
    requires forall i :: 0 <= i < |ns| ==> ns[i].id != id
    ensures DeleteNotification(ns, id) == ns
  {
    FilterKeepsAll(KeepsOther(id), ns);
  }

  /** Deletion never raises the unread count. */
  lemma DeleteNeverRaisesUnread(ns: seq<Notification>, id: string)
    ensures UnreadCount(DeleteNotification(ns, id)) <= UnreadCount(ns)
  {
    CountOfFilter(IsUnread, KeepsOther(id), ns);
  }
}
