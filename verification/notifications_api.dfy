/** The `useNotifications` hook (frontend/src/api/notifications.js): the
    read-flag normalisation applied before the store is updated, when the
    store is updated, and the defaults the hook returns. */
module NotificationsApi {
  import opened Js
  import opened NotificationStore

  /** `read: n.read ?? n.isRead ?? false`; every other field is kept. */
  function NormalizeItem(n: Item): (r: Item)
    ensures r.read == Some(if ReadFlag(n).Some? then ReadFlag(n).value else false)
    ensures r.(read := n.read) == n
    ensures Unread(r) <==> Unread(n)
    ensures Badged(r) <==> Badged(n)
  {
    n.(read := Some(if n.read.Some? then n.read.value else if n.isRead.Some? then n.isRead.value else false))
  }

  /** Normalisation of the fetched list: same length, same order, only the
      `read` field changes. */
  function Normalize(items: seq<Item>): (r: seq<Item>)
    ensures |r| == |items|
    ensures forall i :: 0 <= i < |items| ==> r[i] == NormalizeItem(items[i])
  {
    if items == [] then [] else [NormalizeItem(items[0])] + Normalize(items[1..])
  }

  /** Normalising changes no item's unread status, so the badge count of
      the store is the same as for the raw list. */
  lemma {:induction false} NormalizeKeepsBadgeCount(items: seq<Item>)
    ensures BadgeCount(Normalize(items)) == BadgeCount(items)
  {
    if items != [] {
      NormalizeKeepsBadgeCount(items[1..]);
      assert Normalize(items)[1..] == Normalize(items[1..]);
    }
  }

  /** Normalising twice is the same as normalising once. */
  lemma NormalizeIdempotent(items: seq<Item>)
    ensures Normalize(Normalize(items)) == Normalize(items)
  {
  }

  /** The response body of `GET /notifications`, when the request resolved. */
  datatype Body = Body(notifications: Option<seq<Item>>, unreadCount: Option<int>)

  /** The effect: the store is updated only when the body carries a
      `notifications` array (an empty array counts). */
  function Sync(store: StoreState, data: Option<Body>): (r: StoreState)
    ensures data.Some? && data.value.notifications.Some? ==>
      r == SetNotifications(Normalize(data.value.notifications.value))
    ensures !(data.Some? && data.value.notifications.Some?) ==> r == store
  {
    if data.Some? && data.value.notifications.Some? then SetNotifications(Normalize(data.value.notifications.value))
    else store
  }

  datatype HookResult = HookResult(data: seq<Item>, unreadCount: int)

  /** The hook's return: the raw list or `[]`, and the server's counter or 0
      (`|| 0`, so a 0 stays 0). */
  function Result(data: Option<Body>): (r: HookResult)
    ensures data.None? || data.value.notifications.None? ==> r.data == []
    ensures data.Some? && data.value.notifications.Some? ==> r.data == data.value.notifications.value
    ensures data.None? || data.value.unreadCount.None? ==> r.unreadCount == 0
    ensures data.Some? && data.value.unreadCount.Some? ==> r.unreadCount == data.value.unreadCount.value
  {
    HookResult(if data.Some? && data.value.notifications.Some? then data.value.notifications.value else [],
               if data.Some? && data.value.unreadCount.Some? then data.value.unreadCount.value else 0)
  }
}
