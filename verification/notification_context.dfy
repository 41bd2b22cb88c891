/** The notification list held by the application-wide notification context: the derived
    unread count, marking one or all entries read, and prepending a new unread entry. */
module NotificationContext {

  import opened Wrappers
  import opened Seqs

  /** The notification kinds of the context ('answer', 'comment', 'mention') together with
      those of the notification panel ('vote', 'accept'), so both lists share one record. */
  datatype Kind = AnswerKind | CommentKind | MentionKind | VoteKind | AcceptKind

  datatype Notification = Notification(
    id: string,
    kind: Kind,
    title: string,
    message: string,
    isRead: bool,
    createdAt: string,
    questionId: Option<string>)

  /** What a caller of `addNotification` supplies: a notification without id, read flag and
      creation time. */
  datatype Draft = Draft(kind: Kind, title: string, message: string, questionId: Option<string>)

  /** The creation-time label every added notification gets. */
  const JustNow := "just now"

  predicate IsUnread(n: Notification)
  {
    !n.isRead
  }

  /** `unreadCount`: the length of the list filtered to the unread entries. */
  function UnreadCount(ns: seq<Notification>): (c: nat)
    ensures c == Count(IsUnread, ns)
    ensures c == 0 <==> forall i :: 0 <= i < |ns| ==> ns[i].isRead
  {
    CountIsFilterLength(IsUnread, ns);
    |Filter(IsUnread, ns)|
  }

  /** `markAsRead(id)`: every entry with that id becomes read; nothing else changes. */
  function MarkAsRead(ns: seq<Notification>, id: string): (r: seq<Notification>)
    ensures |r| == |ns|
    ensures forall i :: 0 <= i < |ns| ==> r[i].isRead == (ns[i].isRead || ns[i].id == id)
    ensures forall i :: 0 <= i < |ns| ==> r[i].(isRead := ns[i].isRead) == ns[i]
  {
    seq(|ns|, i requires 0 <= i < |ns| => if ns[i].id == id then ns[i].(isRead := true) else ns[i])
  }

  /** Marking the same id read twice is marking it once. */
  lemma MarkAsReadIdempotent(ns: seq<Notification>, id: string)
    ensures MarkAsRead(MarkAsRead(ns, id), id) == MarkAsRead(ns, id)
  {
    var once := MarkAsRead(ns, id);
    var twice := MarkAsRead(once, id);
    forall i | 0 <= i < |ns|
      ensures twice[i] == once[i]
    {
      assert twice[i].(isRead := once[i].isRead) == once[i];
    }
  }

  /** Marking an id read never raises the unread count, and lowers it exactly when some
      unread entry carries that id. */
  lemma MarkAsReadLowersUnread(ns: seq<Notification>, id: string)
    ensures UnreadCount(MarkAsRead(ns, id)) <= UnreadCount(ns)
    ensures UnreadCount(MarkAsRead(ns, id)) < UnreadCount(ns)
        <==> exists i :: 0 <= i < |ns| && ns[i].id == id && !ns[i].isRead
  {
    var r := MarkAsRead(ns, id);
    CountPointwise(IsUnread, ns, IsUnread, r);
    if exists i :: 0 <= i < |ns| && ns[i].id == id && !ns[i].isRead {
      var i :| 0 <= i < |ns| && ns[i].id == id && !ns[i].isRead;
      assert IsUnread(ns[i]) && !IsUnread(r[i]);
    } else {
      forall i | 0 <= i < |ns|
        ensures r[i] == ns[i]
      {
        assert r[i].(isRead := ns[i].isRead) == ns[i];
      }
      assert r == ns;
    }
  }

  /** `markAllAsRead`: every entry becomes read, with order and every other field kept. */
  function MarkAllAsRead(ns: seq<Notification>): (r: seq<Notification>)
    ensures |r| == |ns|
    ensures forall i :: 0 <= i < |ns| ==> r[i].isRead && r[i].(isRead := ns[i].isRead) == ns[i]
    ensures UnreadCount(r) == 0
  {
    seq(|ns|, i requires 0 <= i < |ns| => ns[i].(isRead := true))
  }

  /** Marking everything read is marking each id read: afterwards no single mark changes the
      list. */
  lemma MarkAllAsReadAbsorbsMarkAsRead(ns: seq<Notification>, id: string)
    ensures MarkAsRead(MarkAllAsRead(ns), id) == MarkAllAsRead(ns)
    ensures MarkAllAsRead(MarkAsRead(ns, id)) == MarkAllAsRead(ns)
  {
    var all := MarkAllAsRead(ns);
    var r := MarkAsRead(all, id);
    forall i | 0 <= i < |ns|
      ensures r[i] == all[i]
    {
      assert r[i].(isRead := all[i].isRead) == all[i];
    }
    var m := MarkAsRead(ns, id);
    var r' := MarkAllAsRead(m);
    forall i | 0 <= i < |ns|
      ensures r'[i] == all[i]
    {
      assert r'[i].(isRead := m[i].isRead) == m[i];
      assert m[i].(isRead := ns[i].isRead) == ns[i];
      assert all[i].(isRead := ns[i].isRead) == ns[i];
    }
  }

  /** `addNotification`: a new unread entry with the given id and the "just now" label goes in
      front of the old entries, which follow unchanged. */
  function AddNotification(ns: seq<Notification>, draft: Draft, id: string): (r: seq<Notification>)
    ensures |r| == |ns| + 1
    ensures r[1..] == ns
    ensures r[0].id == id && !r[0].isRead && r[0].createdAt == JustNow
    ensures r[0].kind == draft.kind && r[0].title == draft.title
    ensures r[0].message == draft.message && r[0].questionId == draft.questionId
  {
    [Notification(id, draft.kind, draft.title, draft.message, false, JustNow, draft.questionId)] + ns
  }

  /** Adding a notification raises the unread count by exactly one. */
  lemma AddNotificationRaisesUnread(ns: seq<Notification>, draft: Draft, id: string)
    ensures UnreadCount(AddNotification(ns, draft, id)) == UnreadCount(ns) + 1
  {
    var r := AddNotification(ns, draft, id);
    assert r[1..] == ns;
  }
}
