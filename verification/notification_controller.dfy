/** The notification endpoints (backend/src/controllers/notification.controller.js)
    and the `createNotification` helper the other controllers call. */
module NotificationController {
  import opened Js
  import opened Seqs
  import opened Domain

  /** Belongs to the user. */
  function OwnedBy(userId: Id): Notification -> bool {
    (n: Notification) => n.userId == userId
  }

  /** Belongs to the user and has not been read. */
  function UnreadFor(userId: Id): Notification -> bool {
    (n: Notification) => n.userId == userId && !n.read
  }

  datatype NotificationPage = NotificationPage(notifications: seq<Notification>, unreadCount: nat)

  /** The `where` of `getNotifications`: the caller's notifications, only the
      unread ones when `unreadOnly` is the string "true", oldest first. */
  function Selected(db: State, userId: Id, unreadOnly: JStr): (r: seq<Notification>)
    ensures forall n :: n in r ==> n in db.notifications && n.userId == userId
    ensures unreadOnly == Str("true") ==> forall n :: n in r ==> !n.read
    ensures forall n :: n in db.notifications && n.userId == userId && (unreadOnly == Str("true") ==> !n.read) ==> n in r
  {
    if unreadOnly == Str("true") then Filter(db.notifications, UnreadFor(userId))
    else Filter(db.notifications, OwnedBy(userId))
  }

  /** `getNotifications`: the selected notifications newest first, with
      `skip`/`limit` applied (defaults 0 and 20), plus the number of ALL the
      caller's unread notifications regardless of the filter and the page. */
  function GetNotifications(db: State, caller: Caller, limit: Option<nat>, skip: Option<nat>, unreadOnly: JStr): (r: Response<NotificationPage>)
    ensures r.Done? && r.status == 200
    ensures var selected := Selected(db, caller.id, unreadOnly);
      var take := if limit.Some? then limit.value else 20;
      var drop := if skip.Some? then skip.value else 0;
      && |r.value.notifications| == PageLength(|selected|, drop, take)
      && forall i :: 0 <= i < |r.value.notifications| ==>
           drop + i < |selected| && r.value.notifications[i] == selected[|selected| - 1 - (drop + i)]
    ensures forall n :: n in r.value.notifications ==> n in db.notifications && n.userId == caller.id
    ensures unreadOnly == Str("true") ==> forall n :: n in r.value.notifications ==> !n.read
    ensures r.value.unreadCount == |Filter(db.notifications, UnreadFor(caller.id))|
  {
    var selected := Selected(db, caller.id, unreadOnly);
    var page := NewestPage(selected, if skip.Some? then skip.value else 0, if limit.Some? then limit.value else 20);
    Done(200, NotificationPage(page, Count(db.notifications, UnreadFor(caller.id))))
  }

  /** The unread counter agrees with the unread list: asking for the unread
      notifications with a page that holds them all returns exactly
      `unreadCount` of them. */
  lemma UnreadCountMatchesUnreadList(db: State, caller: Caller, limit: nat)
    requires limit >= |db.notifications|
    ensures var r := GetNotifications(db, caller, Some(limit), None, Str("true"));
      |r.value.notifications| == r.value.unreadCount
  {
  }

  /** `findUnique` on the notification id. */
  function FindNotification(ns: seq<Notification>, id: Id): (r: Option<Notification>)
    ensures r.Some? <==> exists n :: n in ns && n.id == id
    ensures r.Some? ==> r.value in ns && r.value.id == id
  {
    if ns == [] then None
    else if ns[0].id == id then Some(ns[0])
    else FindNotification(ns[1..], id)
  }

  /** The rows `sel` picks are marked read; no other row changes. */
  function MarkReadWhere(ns: seq<Notification>, sel: Notification -> bool): (r: seq<Notification>)
    ensures |r| == |ns|
    ensures forall i :: 0 <= i < |ns| ==> r[i] == if sel(ns[i]) then ns[i].(read := true) else ns[i]
  {
    if ns == [] then [] else [if sel(ns[0]) then ns[0].(read := true) else ns[0]] + MarkReadWhere(ns[1..], sel)
  }

  /** Carries the given id. */
  function WithId(id: Id): Notification -> bool {
    (n: Notification) => n.id == id
  }

  /** `markAsRead`: 404 when the notification does not exist, 403 when it is
      someone else's; otherwise it is marked read and returned. Only that
      row changes; on an error nothing changes. */
  function MarkAsRead(db: State, caller: Caller, notificationId: Id): (o: Outcome<Notification>)
    ensures FindNotification(db.notifications, notificationId).None? ==>
      o == Outcome(Fail(404, "Notification not found"), db)
    ensures var f := FindNotification(db.notifications, notificationId);
      f.Some? && f.value.userId != caller.id ==>
      o == Outcome(Fail(403, "This notification doesn't belong to you"), db)
    ensures o.response.Done? <==> var f := FindNotification(db.notifications, notificationId);
      f.Some? && f.value.userId == caller.id
    ensures o.response.Done? ==>
      && o.response.status == 200 && o.response.value.id == notificationId
      && o.response.value.userId == caller.id && o.response.value.read
      && o.response.value == FindNotification(db.notifications, notificationId).value.(read := true)
      && o.db.(notifications := db.notifications) == db
      && |o.db.notifications| == |db.notifications|
      && (forall i :: 0 <= i < |db.notifications| ==>
            o.db.notifications[i] == if db.notifications[i].id == notificationId then db.notifications[i].(read := true) else db.notifications[i])
  {
    match FindNotification(db.notifications, notificationId)
    case None => Outcome(Fail(404, "Notification not found"), db)
    case Some(n) =>
      if n.userId != caller.id then Outcome(Fail(403, "This notification doesn't belong to you"), db)
      else Outcome(Done(200, n.(read := true)), db.(notifications := MarkReadWhere(db.notifications, WithId(notificationId))))
  }

  /** Read back: after a successful `markAsRead` the notification is no
      longer in the caller's unread list, whatever the page. */
  lemma MarkAsReadReadBack(db: State, caller: Caller, notificationId: Id, limit: Option<nat>, skip: Option<nat>)
    requires MarkAsRead(db, caller, notificationId).response.Done?
    ensures var after := MarkAsRead(db, caller, notificationId).db;
      forall n :: n in GetNotifications(after, caller, limit, skip, Str("true")).value.notifications ==> n.id != notificationId
  {
    var after := MarkAsRead(db, caller, notificationId).db;
    MarkedRowsRead(db, caller, notificationId);
    var page := GetNotifications(after, caller, limit, skip, Str("true")).value.notifications;
    assert forall n :: n in page ==> n in after.notifications && !n.read;
  }

  /** Every row with the id is read after a successful `markAsRead`. */
  lemma MarkedRowsRead(db: State, caller: Caller, notificationId: Id)
    requires MarkAsRead(db, caller, notificationId).response.Done?
    ensures forall n :: n in MarkAsRead(db, caller, notificationId).db.notifications && n.id == notificationId ==> n.read
  {
    var after := MarkAsRead(db, caller, notificationId).db;
    forall n | n in after.notifications && n.id == notificationId
      ensures n.read
    {
      var i :| 0 <= i < |after.notifications| && after.notifications[i] == n;
    }
  }

  /** Marking the same notification read twice is marking it once. */
  lemma MarkAsReadIdempotent(db: State, caller: Caller, notificationId: Id)
    requires MarkAsRead(db, caller, notificationId).response.Done?
    ensures var after := MarkAsRead(db, caller, notificationId).db;
      MarkAsRead(after, caller, notificationId) == Outcome(MarkAsRead(db, caller, notificationId).response, after)
  {
    var after := MarkAsRead(db, caller, notificationId).db;
    FindMarked(db.notifications, notificationId);
    MarkReadWhereTwice(db.notifications, WithId(notificationId));
  }

  /** Marking the same rows read a second time changes nothing. */
  lemma MarkReadWhereTwice(ns: seq<Notification>, sel: Notification -> bool)
    ensures MarkReadWhere(MarkReadWhere(ns, sel), sel) == MarkReadWhere(ns, sel)
  {
    var once := MarkReadWhere(ns, sel);
    var twice := MarkReadWhere(once, sel);
    forall i | 0 <= i < |ns|
      ensures twice[i] == once[i]
    {
      if sel(ns[i]) {
        assert once[i] == ns[i].(read := true);
      }
    }
  }

  /** Marking the rows with an id read leaves the first of them, read, first. */
  lemma {:induction false} FindMarked(ns: seq<Notification>, id: Id)
    requires FindNotification(ns, id).Some?
    ensures FindNotification(MarkReadWhere(ns, WithId(id)), id) == Some(FindNotification(ns, id).value.(read := true))
  {
    if ns[0].id != id {
      assert MarkReadWhere(ns, WithId(id))[1..] == MarkReadWhere(ns[1..], WithId(id));
      FindMarked(ns[1..], id);
    }
  }

  /** `markAllAsRead`: afterwards the caller has no unread notification and
      every other user's notifications are as they were. */
  function MarkAllAsRead(db: State, caller: Caller): (o: Outcome<string>)
    ensures o.response == Done(200, "All notifications marked as read")
    ensures |o.db.notifications| == |db.notifications|
    ensures forall i :: 0 <= i < |db.notifications| ==>
      && (db.notifications[i].userId == caller.id ==> o.db.notifications[i] == db.notifications[i].(read := true))
      && (db.notifications[i].userId != caller.id ==> o.db.notifications[i] == db.notifications[i])
    ensures o.db.(notifications := db.notifications) == db
  {
    Outcome(Done(200, "All notifications marked as read"), db.(notifications := MarkReadWhere(db.notifications, OwnedBy(caller.id))))
  }

  /** After `markAllAsRead` the unread counter of `getNotifications` is zero. */
  lemma MarkAllAsReadClearsCount(db: State, caller: Caller)
    ensures GetNotifications(MarkAllAsRead(db, caller).db, caller, None, None, Undefined).value.unreadCount == 0
  {
    FilterNone(MarkAllAsRead(db, caller).db.notifications, UnreadFor(caller.id));
  }

  /** Not the row with the given id. */
  function OtherThan(id: Id): Notification -> bool {
    (n: Notification) => n.id != id
  }

  /** `deleteNotification`: 404 / 403 as `markAsRead`; otherwise the row is
      removed and every other row stays, in order. */
  function DeleteNotification(db: State, caller: Caller, notificationId: Id): (o: Outcome<string>)
    ensures FindNotification(db.notifications, notificationId).None? ==>
      o == Outcome(Fail(404, "Notification not found"), db)
    ensures var f := FindNotification(db.notifications, notificationId);
      f.Some? && f.value.userId != caller.id ==>
      o == Outcome(Fail(403, "This notification doesn't belong to you"), db)
    ensures o.response.Done? <==> var f := FindNotification(db.notifications, notificationId);
      f.Some? && f.value.userId == caller.id
    ensures o.response.Done? ==>
      && o.response == Done(200, "Notification deleted successfully")
      && (exists n :: n in db.notifications && n.id == notificationId && n.userId == caller.id)
      && (forall n :: n in o.db.notifications <==> n in db.notifications && n.id != notificationId)
      && o.db.(notifications := db.notifications) == db
  {
    match FindNotification(db.notifications, notificationId)
    case None => Outcome(Fail(404, "Notification not found"), db)
    case Some(n) =>
      if n.userId != caller.id then Outcome(Fail(403, "This notification doesn't belong to you"), db)
      else Outcome(Done(200, "Notification deleted successfully"), db.(notifications := Filter(db.notifications, OtherThan(notificationId))))
  }

  /** Read back: after a successful `deleteNotification` the notification
      is in none of the caller's lists, and deleting it again answers 404. */
  lemma DeleteNotificationReadBack(db: State, caller: Caller, notificationId: Id, limit: Option<nat>, skip: Option<nat>, unreadOnly: JStr)
    requires DeleteNotification(db, caller, notificationId).response.Done?
    ensures var after := DeleteNotification(db, caller, notificationId).db;
      forall n :: n in GetNotifications(after, caller, limit, skip, unreadOnly).value.notifications ==> n.id != notificationId
    ensures var after := DeleteNotification(db, caller, notificationId).db;
      DeleteNotification(after, caller, notificationId).response == Fail(404, "Notification not found")
  {
    var after := DeleteNotification(db, caller, notificationId).db;
    assert FindNotification(after.notifications, notificationId).None?;
  }

  /** Not the user's. */
  function NotOwnedBy(userId: Id): Notification -> bool {
    (n: Notification) => n.userId != userId
  }

  /** `clearAllNotifications`: the caller's notifications are removed; every
      other user's remain, in order. */
  function ClearAll(db: State, caller: Caller): (o: Outcome<string>)
    ensures o.response == Done(200, "All notifications cleared")
    ensures forall n :: n in o.db.notifications <==> n in db.notifications && n.userId != caller.id
    ensures o.db.(notifications := db.notifications) == db
  {
    Outcome(Done(200, "All notifications cleared"), db.(notifications := Filter(db.notifications, NotOwnedBy(caller.id))))
  }

  /** After clearing, `getNotifications` returns nothing and a zero count. */
  lemma ClearAllEmptiesList(db: State, caller: Caller, limit: Option<nat>, skip: Option<nat>, unreadOnly: JStr)
    ensures var r := GetNotifications(ClearAll(db, caller).db, caller, limit, skip, unreadOnly);
      r.value.notifications == [] && r.value.unreadCount == 0
  {
    var after := ClearAll(db, caller).db.notifications;
    FilterNone(after, UnreadFor(caller.id));
    FilterNone(after, OwnedBy(caller.id));
  }

  /** `createNotification`: inserts the row (unread) and returns it; when the
      insert throws — `inserted` is false, e.g. a foreign key that does not
      resolve — the error is swallowed and the result is null. */
  function CreateNotification(db: State, userId: Id, senderId: Option<Id>, postId: Option<Id>, kind: string, content: string, newId: Id, inserted: bool): (r: (Option<Notification>, State))
    ensures !inserted ==> r == (None, db)
    ensures inserted ==>
      && r.0 == Some(Notification(newId, userId, senderId, postId, kind, content, false))
      && r.1 == db.(notifications := db.notifications + [r.0.value])
  {
    if !inserted then (None, db)
    else
      var n := Notification(newId, userId, senderId, postId, kind, content, false);
      (Some(n), db.(notifications := db.notifications + [n]))
  }

  /** A notification created for a user shows up as that user's newest
      unread notification. */
  lemma CreatedNotificationIsNewest(db: State, caller: Caller, senderId: Option<Id>, postId: Option<Id>, kind: string, content: string, newId: Id)
    ensures var (n, db2) := CreateNotification(db, caller.id, senderId, postId, kind, content, newId, true);
      var r := GetNotifications(db2, caller, None, None, Str("true"));
      r.value.notifications != [] && r.value.notifications[0] == n.value
  {
    var n := Notification(newId, caller.id, senderId, postId, kind, content, false);
    FilterSnoc(db.notifications, n, UnreadFor(caller.id));
  }
}
