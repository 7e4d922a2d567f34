/** The client notification store (frontend/src/stores/notificationStore.js):
    the list shown in the bell menu and a badge counter maintained
    incrementally. The counter leaves out notifications of type "message"
    when it is computed or incremented, but not when it is decremented. */
module NotificationStore {
  import opened Js
  import opened Domain

  /** A notification as the client holds it: the server's `read` column or
      an older `isRead` field, either of which may be missing. */
  datatype Item = Item(id: Id, kind: string, read: Option<bool>, isRead: Option<bool>, postId: Option<Id>, senderId: Option<Id>)

  /** `n.read ?? n.isRead`. */
  function ReadFlag(n: Item): Option<bool> {
    if n.read.Some? then n.read else n.isRead
  }

  /** `!(n.read ?? n.isRead)`: a missing flag counts as unread. */
  predicate Unread(n: Item) {
    ReadFlag(n) != Some(true)
  }

  /** Counted by the badge: unread and not a message notification. */
  predicate Badged(n: Item) {
    Unread(n) && n.kind != "message"
  }

  function BadgeCount(items: seq<Item>): (c: nat)
    ensures c <= |items|
  {
    if items == [] then 0 else (if Badged(items[0]) then 1 else 0) + BadgeCount(items[1..])
  }

  datatype StoreState = StoreState(notifications: seq<Item>, unreadCount: int)

  const Empty: StoreState := StoreState([], 0)

  /** The counter agrees with the list. */
  predicate Accurate(s: StoreState) {
    s.unreadCount == BadgeCount(s.notifications)
  }

  /** `setNotifications`: the list is replaced and the counter recomputed. */
  function SetNotifications(items: seq<Item>): (r: StoreState)
    ensures r.notifications == items
    ensures Accurate(r)
  {
    StoreState(items, BadgeCount(items))
  }

  /** `addNotification`: the item goes first; the counter rises by one iff
      the item is unread and not a message notification. */
  function AddNotification(s: StoreState, n: Item): (r: StoreState)
    ensures r.notifications == [n] + s.notifications
    ensures Badged(n) ==> r.unreadCount == s.unreadCount + 1
    ensures !Badged(n) ==> r.unreadCount == s.unreadCount
    ensures Accurate(s) ==> Accurate(r)
  {
    assert ([n] + s.notifications)[1..] == s.notifications;
    var flag := ReadFlag(n);
    StoreState([n] + s.notifications,
               if flag == Some(true) || n.kind == "message" then s.unreadCount else s.unreadCount + 1)
  }

  /** Both read flags set. */
  function MarkItem(n: Item): Item {
    n.(read := Some(true), isRead := Some(true))
  }

  /** Marks the items with the id read; the others are untouched. */
  function MarkRead(items: seq<Item>, id: Id): (r: seq<Item>)
    ensures |r| == |items|
    ensures forall i :: 0 <= i < |items| ==> r[i] == if items[i].id == id then MarkItem(items[i]) else items[i]
  {
    if items == [] then []
    else [if items[0].id == id then MarkItem(items[0]) else items[0]] + MarkRead(items[1..], id)
  }

  /** `markAsRead`: the items with that id become read, and the counter
      drops by one (not below zero) whether or not such an unread item
      existed. */
  function MarkAsRead(s: StoreState, id: Id): (r: StoreState)
    ensures r.notifications == MarkRead(s.notifications, id)
    ensures r.unreadCount == if s.unreadCount - 1 < 0 then 0 else s.unreadCount - 1
  {
    StoreState(MarkRead(s.notifications, id), if s.unreadCount - 1 < 0 then 0 else s.unreadCount - 1)
  }

  /** Number of badged items carrying the id. */
  function BadgedWith(items: seq<Item>, id: Id): nat {
    if items == [] then 0 else (if items[0].id == id && Badged(items[0]) then 1 else 0) + BadgedWith(items[1..], id)
  }

  lemma {:induction false} MarkReadCount(items: seq<Item>, id: Id)
    ensures BadgeCount(MarkRead(items, id)) == BadgeCount(items) - BadgedWith(items, id)
  {
    if items != [] {
      MarkReadCount(items[1..], id);
      assert MarkRead(items, id)[1..] == MarkRead(items[1..], id);
    }
  }

  /** Marking the one badged item with an id keeps the counter accurate. */
  lemma MarkAsReadAccurate(s: StoreState, id: Id)
    requires Accurate(s) && BadgedWith(s.notifications, id) == 1
    ensures Accurate(MarkAsRead(s, id))
  {
    MarkReadCount(s.notifications, id);
  }

  /** Marking an item that is not counted (already read, a message, or
      absent) still lowers a positive counter, which then undercounts. */
  lemma MarkAsReadUndercounts(s: StoreState, id: Id)
    requires Accurate(s) && s.unreadCount >= 1 && BadgedWith(s.notifications, id) == 0
    ensures !Accurate(MarkAsRead(s, id))
    ensures MarkAsRead(s, id).unreadCount == BadgeCount(MarkAsRead(s, id).notifications) - 1
  {
    MarkReadCount(s.notifications, id);
  }

  function MarkEvery(items: seq<Item>): (r: seq<Item>)
    ensures |r| == |items|
    ensures forall i :: 0 <= i < |items| ==> r[i] == MarkItem(items[i])
  {
    if items == [] then [] else [MarkItem(items[0])] + MarkEvery(items[1..])
  }

  /** `markAllAsRead`: every item read, counter zero, which is accurate. */
  function MarkAllAsRead(s: StoreState): (r: StoreState)
    ensures |r.notifications| == |s.notifications|
    ensures forall i :: 0 <= i < |s.notifications| ==> r.notifications[i] == MarkItem(s.notifications[i])
    ensures r.unreadCount == 0 && Accurate(r)
  {
    var items := MarkEvery(s.notifications);
    NoneUnread(items);
    StoreState(items, 0)
  }

  lemma {:induction false} NoneUnread(items: seq<Item>)
    requires forall i :: 0 <= i < |items| ==> ReadFlag(items[i]) == Some(true)
    ensures BadgeCount(items) == 0
  {
    if items != [] {
      NoneUnread(items[1..]);
    }
  }

  /** `find`: the first item with the id. */
  function FindItem(items: seq<Item>, id: Id): (r: Option<Item>)
    ensures r.Some? <==> exists n :: n in items && n.id == id
    ensures r.Some? ==> r.value in items && r.value.id == id
  {
    if items == [] then None
    else if items[0].id == id then Some(items[0])
    else FindItem(items[1..], id)
  }

  /** Removes every item with the id, keeping the rest in order. */
  function Without(items: seq<Item>, id: Id): (r: seq<Item>)
    ensures |r| <= |items|
    ensures forall n :: n in r <==> n in items && n.id != id
  {
    if items == [] then []
    else
      var rest := Without(items[1..], id);
      assert forall n :: n in items <==> n == items[0] || n in items[1..];
      if items[0].id == id then rest else [items[0]] + rest
  }

  /** `removeNotification`: all items with the id go; the counter drops by
      one (not below zero) iff the first such item was unread — message
      notifications included. */
  function RemoveNotification(s: StoreState, id: Id): (r: StoreState)
    ensures r.notifications == Without(s.notifications, id)
    ensures var f := FindItem(s.notifications, id);
      r.unreadCount == if f.Some? && Unread(f.value) then (if s.unreadCount - 1 < 0 then 0 else s.unreadCount - 1)
                       else s.unreadCount
  {
    var found := FindItem(s.notifications, id);
    StoreState(Without(s.notifications, id),
               if found.Some? && Unread(found.value) then (if s.unreadCount - 1 < 0 then 0 else s.unreadCount - 1)
               else s.unreadCount)
  }

  lemma {:induction false} WithoutCount(items: seq<Item>, id: Id)
    ensures BadgeCount(Without(items, id)) == BadgeCount(items) - BadgedWith(items, id)
  {
    if items != [] {
      WithoutCount(items[1..], id);
    }
  }

  lemma {:induction false} BadgedWithFirst(items: seq<Item>, id: Id)
    requires forall i, j :: 0 <= i < j < |items| ==> items[i].id != items[j].id
    ensures BadgedWith(items, id) == if FindItem(items, id).Some? && Badged(FindItem(items, id).value) then 1 else 0
  {
    if items != [] {
      BadgedWithFirst(items[1..], id);
      if items[0].id == id {
        assert forall n :: n in items[1..] ==> n.id != id;
        assert FindItem(items[1..], id).None?;
      }
    }
  }

  /** With distinct ids, removing keeps the counter accurate unless the item
      is an unread message notification and the counter is positive: then
      the counter loses one that it never counted. */
  lemma RemoveNotificationAccuracy(s: StoreState, id: Id)
    requires Accurate(s)
    requires forall i, j :: 0 <= i < j < |s.notifications| ==> s.notifications[i].id != s.notifications[j].id
    ensures var f := FindItem(s.notifications, id);
      Accurate(RemoveNotification(s, id)) <==>
        !(f.Some? && Unread(f.value) && f.value.kind == "message" && s.unreadCount >= 1)
  {
    WithoutCount(s.notifications, id);
    BadgedWithFirst(s.notifications, id);
  }

  /** `clearAll`. */
  function ClearAll(s: StoreState): (r: StoreState)
    ensures r.notifications == [] && r.unreadCount == 0 && Accurate(r)
  {
    Empty
  }

  datatype Op = SetAll(items: seq<Item>) | Add(item: Item) | Read(id: Id) | ReadAll | Remove(id: Id) | Clear

  function Apply(s: StoreState, op: Op): StoreState {
    match op
    case SetAll(items) => SetNotifications(items)
    case Add(item) => AddNotification(s, item)
    case Read(id) => MarkAsRead(s, id)
    case ReadAll => MarkAllAsRead(s)
    case Remove(id) => RemoveNotification(s, id)
    case Clear => ClearAll(s)
  }

  function ApplyAll(s: StoreState, ops: seq<Op>): StoreState
    decreases |ops|
  {
    if ops == [] then s else ApplyAll(Apply(s, ops[0]), ops[1..])
  }

  /** Starting from a non-negative counter, no sequence of store actions
      makes it negative. */
  lemma {:induction false} CountNeverNegative(s: StoreState, ops: seq<Op>)
    requires s.unreadCount >= 0
    ensures ApplyAll(s, ops).unreadCount >= 0
    decreases |ops|
  {
    if ops != [] {
      var next := Apply(s, ops[0]);
      assert next.unreadCount >= 0;
      CountNeverNegative(next, ops[1..]);
    }
  }
}
