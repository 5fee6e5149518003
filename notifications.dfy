/** The administrator's notification bell of `src/components/admin/AdminNotifications.tsx`:
    the latest notifications, new ones pushed in front as they arrive, marked read one by
    one or all at once, deleted, and an unread badge capped at "9+". */
module Notifications {
  import opened Common

  datatype Notification = Notification(id: string, kind: string, title: string, message: string,
                                       orderId: Option<string>, isRead: bool, createdAt: string)

  function IsUnread(n: Notification): bool
  {
    !n.isRead
  }

  /** `unreadCount`: the notifications not yet read. */
  function UnreadCount(s: seq<Notification>): (c: nat)
    ensures c <= |s|
    ensures c == 0 <==> forall n :: n in s ==> n.isRead
  {
    Count(s, IsUnread)
  }

  /** `map(n => n.id)`: the ids of a list, position by position. */
  function Ids(s: seq<Notification>): (ids: seq<string>)
    ensures |ids| == |s| && forall i :: 0 <= i < |s| ==> ids[i] == s[i].id
  {
    seq(|s|, i requires 0 <= i < |s| => s[i].id)
  }

  /** The ids sent by "mark all as read": `filter(n => !n.is_read).map(n => n.id)`. */
  function UnreadIds(s: seq<Notification>): (ids: seq<string>)
    ensures |ids| == UnreadCount(s)
    ensures forall n :: n in s && !n.isRead ==> n.id in ids
  {
    var f := Filter(s, IsUnread);
    CountIsFilterLength(s, IsUnread);
    var ids := Ids(f);
    assert forall n :: n in f ==> n.id in ids by {
      forall n | n in f ensures n.id in ids {
        var k :| 0 <= k < |f| && f[k] == n;
        assert ids[k] == n.id;
      }
    }
    ids
  }

  /** Every id sent comes from an unread notification. */
  lemma UnreadIdsFromUnread(s: seq<Notification>)
    ensures forall id :: id in UnreadIds(s) ==> exists n :: n in s && !n.isRead && n.id == id
  {
    var f := Filter(s, IsUnread);
    forall id | id in UnreadIds(s) ensures exists n :: n in s && !n.isRead && n.id == id {
      var k :| 0 <= k < |f| && Ids(f)[k] == id;
      assert f[k] in f;
    }
  }

  /** The ids are collected row by row: a concatenation gives the ids of each part in
      turn, and a single row gives its id exactly when it is unread. So the ids follow the
      order of the list. */
  lemma UnreadIdsInOrder(s: seq<Notification>, t: seq<Notification>, n: Notification)
    ensures UnreadIds(s + t) == UnreadIds(s) + UnreadIds(t)
    ensures UnreadIds([n]) == if n.isRead then [] else [n.id]
  {
    FilterAppend(s, t, IsUnread);
    var a, b := Filter(s, IsUnread), Filter(t, IsUnread);
    assert Ids(a + b) == Ids(a) + Ids(b);
    assert [n][1..] == [];
  }

  /** A realtime insert: the new notification goes in front, with no check on its id. */
  function Push(n: Notification, s: seq<Notification>): (r: seq<Notification>)
    ensures |r| == |s| + 1 && r[0] == n && r[1..] == s
    ensures UnreadCount(r) == UnreadCount(s) + (if n.isRead then 0 else 1)
  {
    assert ([n] + s)[1..] == s;
    [n] + s
  }

  /** One row under `markAsRead(id)`: only its read flag may change, and it is set when the
      row carries the id. */
  function MarkOne(n: Notification, id: string): (r: Notification)
    ensures r.isRead <==> n.isRead || n.id == id
    ensures r.(isRead := n.isRead) == n
  {
    if n.id == id then n.(isRead := true) else n
  }

  /** `markAsRead(id)` once the update succeeded. */
  function MarkRead(s: seq<Notification>, id: string): (r: seq<Notification>)
    ensures |r| == |s|
    ensures forall i :: 0 <= i < |s| ==>
      r[i] == (if s[i].id == id then s[i].(isRead := true) else s[i])
  {
    seq(|s|, i requires 0 <= i < |s| => MarkOne(s[i], id))
  }

  /** Marking one id read removes from the unread count exactly the unread rows with that
      id (so the count never grows). */
  lemma {:induction false} MarkReadUnread(s: seq<Notification>, id: string)
    ensures UnreadCount(MarkRead(s, id)) == Count(s, (n: Notification) => !n.isRead && n.id != id)
    ensures UnreadCount(MarkRead(s, id)) <= UnreadCount(s)
  {
    if s != [] {
      assert MarkRead(s, id)[1..] == MarkRead(s[1..], id);
      MarkReadUnread(s[1..], id);
    }
  }

  /** `markAllAsRead` once the update succeeded. */
  function MarkAll(s: seq<Notification>): (r: seq<Notification>)
    ensures |r| == |s|
    ensures forall i :: 0 <= i < |s| ==> r[i] == s[i].(isRead := true)
    ensures UnreadCount(r) == 0
  {
    var r := seq(|s|, i requires 0 <= i < |s| => s[i].(isRead := true));
    assert forall n :: n in r ==> n.isRead;
    r
  }

  function KeepOther(id: string): Notification -> bool
  {
    (n: Notification) => n.id != id
  }

  /** `deleteNotification(id)` once the delete succeeded: every row with that id goes, the
      rest keep their order. */
  function Delete(s: seq<Notification>, id: string): (r: seq<Notification>)
    ensures forall n :: n in r <==> n in s && n.id != id
    ensures UnreadCount(r) <= UnreadCount(s)
  {
    CountFilter(s, KeepOther(id), IsUnread);
    Filter(s, KeepOther(id))
  }

  /** Deletion works row by row: on a concatenation it deletes from each part, and a single
      row goes exactly when it carries the id. Together these fix the result, so the rows
      kept stay in their original order. */
  lemma DeleteKeepsOrder(s: seq<Notification>, t: seq<Notification>, n: Notification, id: string)
    ensures Delete(s + t, id) == Delete(s, id) + Delete(t, id)
    ensures Delete([n], id) == if n.id == id then [] else [n]
  {
    FilterAppend(s, t, KeepOther(id));
    assert [n][1..] == [];
  }

  /** What the bell's badge shows. */
  datatype Badge = Hidden | Number(n: nat) | NinePlus

  function BadgeFor(unread: nat): (b: Badge)
    ensures b == Hidden <==> unread == 0
    ensures b == NinePlus <==> unread > 9
    ensures b.Number? ==> b.n == unread && 1 <= unread <= 9
  {
    if unread == 0 then Hidden else if unread > 9 then NinePlus else Number(unread)
  }

  datatype Icon = ShoppingCart | Building | Paintbrush | Calendar | Bell

  datatype Config = Config(icon: Icon, gradient: string, iconColor: string)

  const DefaultConfig := Config(Bell, "from-primary/20 to-primary/10", "text-primary")

  /** The icon and colours of a notification kind; a kind not in the table gets the
      default. */
  function ConfigFor(kind: string): (c: Config)
    ensures kind !in {"order", "corporate", "custom_order", "workshop"} ==> c == DefaultConfig
    ensures kind == "order" ==> c.icon == ShoppingCart
    ensures kind == "corporate" ==> c.icon == Building
    ensures kind == "custom_order" ==> c.icon == Paintbrush
    ensures kind == "workshop" ==> c.icon == Calendar
  {
    if kind == "order" then Config(ShoppingCart, "from-emerald-500/20 to-emerald-600/10", "text-emerald-600")
    else if kind == "corporate" then Config(Building, "from-blue-500/20 to-blue-600/10", "text-blue-600")
    else if kind == "custom_order" then Config(Paintbrush, "from-purple-500/20 to-purple-600/10", "text-purple-600")
    else if kind == "workshop" then Config(Calendar, "from-orange-500/20 to-orange-600/10", "text-orange-600")
    else DefaultConfig
  }

  /** The component's notification list. Each remote call's outcome is a parameter: a
      failed call leaves the list as it was. */
  class NotificationFeed {
    var notifications: seq<Notification>

    constructor()
      ensures notifications == []
    {
      notifications := [];
    }

    /** `fetchNotifications`: `error` for a failed query, else the rows (null reads as
        none). */
    method Fetch(error: bool, data: Option<seq<Notification>>)
      modifies this
      ensures error ==> notifications == old(notifications)
      ensures !error ==> notifications == (if data.Some? then data.value else [])
    {
      if error {
        return;
      }
      notifications := if data.Some? then data.value else [];
    }

    method OnInsert(n: Notification)
      modifies this
      ensures notifications == Push(n, old(notifications))
    {
      notifications := [n] + notifications;
    }

    method MarkAsRead(id: string, ok: bool)
      modifies this
      ensures notifications == (if ok then MarkRead(old(notifications), id) else old(notifications))
    {
      if ok {
        notifications := MarkRead(notifications, id);
      }
    }

    /** Returns the ids the update was issued for, or None when nothing was unread and no
        call was made. */
    method MarkAllAsRead(ok: bool) returns (requested: Option<seq<string>>)
      modifies this
      ensures UnreadCount(old(notifications)) == 0 ==> requested == None && notifications == old(notifications)
      ensures UnreadCount(old(notifications)) > 0 ==> requested == Some(UnreadIds(old(notifications)))
      ensures UnreadCount(old(notifications)) > 0 && ok ==> notifications == MarkAll(old(notifications))
      ensures !ok ==> notifications == old(notifications)
    {
      var ids := UnreadIds(notifications);
      if |ids| == 0 {
        return None;
      }
      requested := Some(ids);
      if ok {
        notifications := MarkAll(notifications);
      }
    }

    method DeleteNotification(id: string, ok: bool)
      modifies this
      ensures notifications == (if ok then Delete(old(notifications), id) else old(notifications))
    {
      if ok {
        notifications := Delete(notifications, id);
      }
    }

    /** The badge on the bell. */
    function ShownBadge(): (b: Badge)
      reads this
      ensures b == Hidden <==> forall n :: n in notifications ==> n.isRead
      ensures b.Number? ==> b.n == UnreadCount(notifications)
    {
      BadgeFor(UnreadCount(notifications))
    }
  }
}
