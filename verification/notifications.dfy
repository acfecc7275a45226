/** The in-app notification list: a reducer over five actions, the unread
    counter, and the `notify.*` helpers that add a notification of a fixed
    kind and raise a toast beside it. The random id and the clock reading of
    a new notification are parameters. */
module Notifications {
  import opened Common

  datatype Kind = Success | Error | Info | Warning

  datatype Notification = Notification(
    id: string,
    kind: Kind,
    title: string,
    message: string,
    timestampMs: int,
    read: bool,
    actionUrl: Option<string>,
    actionText: Option<string>)

  /** What a caller supplies: a notification without id, timestamp or read flag. */
  datatype Payload = Payload(kind: Kind, title: string, message: string,
                             actionUrl: Option<string>, actionText: Option<string>)

  datatype Action =
    | AddNotification(payload: Payload)
    | MarkAsRead(markId: string)
    | MarkAllAsRead
    | RemoveNotification(removeId: string)
    | ClearAll

  datatype State = State(notifications: seq<Notification>)

  predicate IsUnread(n: Notification)
  {
    !n.read
  }

  /** Two notifications that differ at most in their read flag. */
  predicate SameButRead(a: Notification, b: Notification)
  {
    a.(read := b.read) == b
  }

  /** `unreadCount`. */
  function UnreadCount(ns: seq<Notification>): (n: nat)
    ensures n <= |ns|
    ensures n == 0 <==> forall i :: 0 <= i < |ns| ==> ns[i].read
    ensures n == |Filter(ns, IsUnread)|
  {
    CountOf(ns, IsUnread)
  }

  /** The `MARK_AS_READ` map: entries with the id become read. */
  function MarkRead(ns: seq<Notification>, id: string): (r: seq<Notification>)
    ensures |r| == |ns|
    ensures forall i :: 0 <= i < |r| ==> SameButRead(r[i], ns[i])
    ensures forall i :: 0 <= i < |r| ==> (r[i].read <==> ns[i].read || ns[i].id == id)
    decreases |ns|
  {
    if |ns| == 0 then []
    else
      var head := if ns[0].id == id then ns[0].(read := true) else ns[0];
      [head] + MarkRead(ns[1..], id)
  }

  /** The `MARK_ALL_AS_READ` map. */
  function MarkAllRead(ns: seq<Notification>): (r: seq<Notification>)
    ensures |r| == |ns|
    ensures forall i :: 0 <= i < |r| ==> SameButRead(r[i], ns[i]) && r[i].read
    decreases |ns|
  {
    if |ns| == 0 then [] else [ns[0].(read := true)] + MarkAllRead(ns[1..])
  }

  /** The `REMOVE_NOTIFICATION` filter: entries with the id are dropped. */
  function RemoveId(ns: seq<Notification>, id: string): (r: seq<Notification>)
    ensures |r| <= |ns|
    ensures forall i :: 0 <= i < |r| ==> r[i].id != id
    ensures forall n :: n in ns && n.id != id ==> n in r
    ensures multiset(r) <= multiset(ns)
    decreases |ns|
  {
    if |ns| == 0 then []
    else
      assert ns == [ns[0]] + ns[1..];
      if ns[0].id == id then RemoveId(ns[1..], id) else [ns[0]] + RemoveId(ns[1..], id)
  }

  /** `notificationReducer(state, action)`. */
  function Reduce(s: State, a: Action, freshId: string, nowMs: int): (r: State)
    ensures a.AddNotification? ==>
      r.notifications == [Notification(freshId, a.payload.kind, a.payload.title, a.payload.message,
                                       nowMs, false, a.payload.actionUrl, a.payload.actionText)]
                         + s.notifications
    ensures a.MarkAsRead? ==> r.notifications == MarkRead(s.notifications, a.markId)
    ensures a.MarkAllAsRead? ==> r.notifications == MarkAllRead(s.notifications)
    ensures a.RemoveNotification? ==> r.notifications == RemoveId(s.notifications, a.removeId)
    ensures a.ClearAll? ==> r.notifications == []
  {
    match a
    case AddNotification(p) =>
      var n := Notification(freshId, p.kind, p.title, p.message, nowMs, false, p.actionUrl, p.actionText);
      State([n] + s.notifications)
    case MarkAsRead(id) => State(MarkRead(s.notifications, id))
    case MarkAllAsRead => State(MarkAllRead(s.notifications))
    case RemoveNotification(id) => State(RemoveId(s.notifications, id))
    case ClearAll => State([])
  }

  /** A new notification arrives unread, in front, and the unread count
      grows by one. */
  lemma AddIsUnread(s: State, p: Payload, freshId: string, nowMs: int)
    ensures
      var r := Reduce(s, AddNotification(p), freshId, nowMs);
      && |r.notifications| == |s.notifications| + 1
      && !r.notifications[0].read
      && r.notifications[1..] == s.notifications
      && UnreadCount(r.notifications) == UnreadCount(s.notifications) + 1
  {
    var r := Reduce(s, AddNotification(p), freshId, nowMs);
    assert r.notifications[1..] == s.notifications;
  }

  /** Marking one id read never raises the unread count. */
  lemma {:induction false} MarkReadLowersUnread(ns: seq<Notification>, id: string)
    ensures UnreadCount(MarkRead(ns, id)) <= UnreadCount(ns)
    decreases |ns|
  {
    if |ns| > 0 {
      MarkReadLowersUnread(ns[1..], id);
      assert MarkRead(ns, id)[1..] == MarkRead(ns[1..], id);
    }
  }

  /** After "mark all as read" nothing is unread. */
  lemma MarkAllClearsUnread(s: State, freshId: string, nowMs: int)
    ensures UnreadCount(Reduce(s, MarkAllAsRead, freshId, nowMs).notifications) == 0
  {
  }

  /** Marking the same id twice is marking it once. */
  lemma MarkReadIsIdempotent(ns: seq<Notification>, id: string)
    ensures MarkRead(MarkRead(ns, id), id) == MarkRead(ns, id)
  {
    var once := MarkRead(ns, id);
    var twice := MarkRead(once, id);
    assert forall i :: 0 <= i < |twice| ==> twice[i] == once[i];
  }

  /** Marking everything twice is marking it once. */
  lemma MarkAllReadIsIdempotent(ns: seq<Notification>)
    ensures MarkAllRead(MarkAllRead(ns)) == MarkAllRead(ns)
  {
    var once := MarkAllRead(ns);
    var twice := MarkAllRead(once);
    assert forall i :: 0 <= i < |twice| ==> twice[i] == once[i];
  }

  /** Removal keeps the survivors in order: it distributes over concatenation. */
  lemma {:induction false} RemoveKeepsOrder(xs: seq<Notification>, ys: seq<Notification>, id: string)
    ensures RemoveId(xs + ys, id) == RemoveId(xs, id) + RemoveId(ys, id)
    decreases |xs|
  {
    if |xs| > 0 {
      assert (xs + ys)[1..] == xs[1..] + ys;
      assert (xs + ys)[0] == xs[0];
      RemoveKeepsOrder(xs[1..], ys, id);
    } else {
      assert xs + ys == ys;
    }
  }

  /** Removing an id that no entry carries changes nothing. */
  lemma {:induction false} RemoveAbsentIsIdentity(ns: seq<Notification>, id: string)
    requires forall i :: 0 <= i < |ns| ==> ns[i].id != id
    ensures RemoveId(ns, id) == ns
    decreases |ns|
  {
    if |ns| > 0 {
      RemoveAbsentIsIdentity(ns[1..], id);
    }
  }

  /** Removing the same id twice is removing it once. */
  lemma RemoveIsIdempotent(ns: seq<Notification>, id: string)
    ensures RemoveId(RemoveId(ns, id), id) == RemoveId(ns, id)
  {
    RemoveAbsentIsIdentity(RemoveId(ns, id), id);
  }

  /** The toast raised beside a notification; errors use the destructive style. */
  datatype Toast = Toast(title: string, description: string, destructive: bool)

  /** `addNotification(payload)`: dispatch and toast. */
  function AddWithToast(s: State, p: Payload, freshId: string, nowMs: int): (r: (State, Toast))
    ensures r.0 == Reduce(s, AddNotification(p), freshId, nowMs)
    ensures r.1.title == p.title && r.1.description == p.message
    ensures r.1.destructive <==> p.kind == Error
  {
    (Reduce(s, AddNotification(p), freshId, nowMs), Toast(p.title, p.message, p.kind == Error))
  }

  /** The optional link carried by a `notify.*` call. */
  datatype LinkOptions = LinkOptions(actionUrl: Option<string>, actionText: Option<string>)

  /** `notify.success`, `notify.error`, `notify.info` and `notify.warning`:
      the helper's kind, the given texts and options. */
  function Notify(s: State, kind: Kind, title: string, message: string, options: LinkOptions,
                  freshId: string, nowMs: int): (r: (State, Toast))
    ensures |r.0.notifications| == |s.notifications| + 1
    ensures r.0.notifications[1..] == s.notifications
    ensures r.0.notifications[0].id == freshId && r.0.notifications[0].timestampMs == nowMs
    ensures r.0.notifications[0].kind == kind && !r.0.notifications[0].read
    ensures r.0.notifications[0].title == title && r.0.notifications[0].message == message
    ensures r.0.notifications[0].actionUrl == options.actionUrl
    ensures r.0.notifications[0].actionText == options.actionText
    ensures r.1.title == title && r.1.description == message
    ensures r.1.destructive <==> kind == Error
  {
    AddWithToast(s, Payload(kind, title, message, options.actionUrl, options.actionText), freshId, nowMs)
  }
}
