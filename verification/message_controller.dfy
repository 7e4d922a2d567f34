/** The direct-message endpoints (backend/src/controllers/message.controller.js):
    sending between friends with a real-time push and a persisted
    notification, one conversation oldest first, the conversation list
    grouped by partner, and deleting one's own message. */
module MessageController {
  import opened Js
  import opened Seqs
  import opened Domain
  import opened Realtime
  import NotificationController

  /** What `sendMessage` leaves behind: the answer, the new state and the
      Socket.IO pushes it made, in order. */
  datatype Sent = Sent(response: Response<Message>, db: State, pushes: seq<Emission>)

  /** `sendMessage`. The checks run in this order: messaging oneself (400),
      unknown receiver (404), not friends (403). On success the message is
      stored unread, pushed to the receiver's room, a "message" notification
      is persisted for the receiver and, when that insert succeeded, pushed
      too. `newId`/`notificationId` are the ids the database assigns and
      `notificationInserted` whether the notification insert succeeded. */
  function SendMessage(db: State, io: Io, caller: Caller, receiverId: Id, content: string,
                       newId: Id, notificationId: Id, notificationInserted: bool): (r: Sent)
    ensures caller.id == receiverId ==> r == Sent(Fail(400, "You cannot send a message to yourself"), db, [])
    ensures caller.id != receiverId && FindUser(db.users, receiverId).None? ==>
      r == Sent(Fail(404, "Receiver not found"), db, [])
    ensures caller.id != receiverId && FindUser(db.users, receiverId).Some? && !AreFriends(db, caller.id, receiverId) ==>
      r == Sent(Fail(403, "You can only message your friends"), db, [])
    ensures r.response.Done? <==>
      caller.id != receiverId && FindUser(db.users, receiverId).Some? && AreFriends(db, caller.id, receiverId)
    ensures r.response.Done? ==>
      var m := Message(newId, caller.id, receiverId, content, false);
      var n := Notification(notificationId, receiverId, Some(caller.id), None, "message", caller.name + " sent you a message", false);
      && r.response == Done(201, m)
      && r.db.messages == db.messages + [m]
      && r.db.(messages := db.messages, notifications := db.notifications) == db
      && (notificationInserted ==> r.db.notifications == db.notifications + [n])
      && (!notificationInserted ==> r.db.notifications == db.notifications)
      && (io.Running? ==> |r.pushes| >= 1 && r.pushes[0] == Emission(ToRoom(RoomName(receiverId)), MessageNew(m)))
      && (io.Running? && notificationInserted ==> r.pushes == [r.pushes[0], Emission(ToRoom(RoomName(receiverId)), NotificationNew(n))])
      && (io.Running? ==> |r.pushes| == if notificationInserted then 2 else 1)
      && (io.Uninitialized? ==> r.pushes == [])
  {
    if caller.id == receiverId then Sent(Fail(400, "You cannot send a message to yourself"), db, [])
    else if FindUser(db.users, receiverId).None? then Sent(Fail(404, "Receiver not found"), db, [])
    else if !AreFriends(db, caller.id, receiverId) then Sent(Fail(403, "You can only message your friends"), db, [])
    else
      var m := Message(newId, caller.id, receiverId, content, false);
      var db1 := db.(messages := db.messages + [m]);
      var live := SendMessageToUser(io, receiverId, m);
      var (notification, db2) := NotificationController.CreateNotification(
        db1, receiverId, Some(caller.id), None, "message", caller.name + " sent you a message", notificationId, notificationInserted);
      var pushed := if notification.Some? then SendNotificationToUser(io, receiverId, notification.value) else [];
      Sent(Done(201, m), db2, live + pushed)
  }

  /** The message was exchanged between `a` and `b`, in either direction. */
  predicate Between(m: Message, a: Id, b: Id) {
    (m.senderId == a && m.receiverId == b) || (m.senderId == b && m.receiverId == a)
  }

  function BetweenOf(a: Id, b: Id): Message -> bool {
    (m: Message) => Between(m, a, b)
  }

  /** `getConversation`: 403 unless the two are friends; otherwise the
      messages between them oldest first, `skip`/`limit` applied with
      defaults 0 and 50. */
  function GetConversation(db: State, caller: Caller, userId: Id, limit: Option<nat>, skip: Option<nat>): (r: Response<seq<Message>>)
    ensures !AreFriends(db, caller.id, userId) <==> r == Fail(403, "You can only message your friends")
    ensures r.Done? <==> AreFriends(db, caller.id, userId)
    ensures r.Done? ==>
      && r.status == 200
      && var all := Filter(db.messages, BetweenOf(caller.id, userId));
         var drop := if skip.Some? then skip.value else 0;
         && |r.value| == PageLength(|all|, drop, if limit.Some? then limit.value else 50)
         && forall i :: 0 <= i < |r.value| ==> drop + i < |all| && r.value[i] == all[drop + i]
    ensures r.Done? ==> forall m :: m in r.value ==> m in db.messages && Between(m, caller.id, userId)
  {
    if !AreFriends(db, caller.id, userId) then Fail(403, "You can only message your friends")
    else
      var page := Window(Filter(db.messages, BetweenOf(caller.id, userId)),
                         if skip.Some? then skip.value else 0, if limit.Some? then limit.value else 50);
      assert forall m :: m in page ==> m in Filter(db.messages, BetweenOf(caller.id, userId));
      Done(200, page)
  }

  /** Both participants are shown the same conversation. */
  lemma ConversationSymmetric(db: State, a: Caller, b: Caller, limit: Option<nat>, skip: Option<nat>)
    ensures GetConversation(db, a, b.id, limit, skip) == GetConversation(db, b, a.id, limit, skip)
  {
    FilterEquiv(db.messages, BetweenOf(a.id, b.id), BetweenOf(b.id, a.id));
  }

  /** The caller sent or received the message. */
  function Involves(userId: Id): Message -> bool {
    (m: Message) => m.senderId == userId || m.receiverId == userId
  }

  /** The caller's messages, newest first: what `getConversations` walks. */
  function Scan(db: State, userId: Id): (r: seq<Message>)
    ensures forall m :: m in r ==> m in db.messages && (m.senderId == userId || m.receiverId == userId)
  {
    var mine := Filter(db.messages, Involves(userId));
    assert forall m :: m in Reverse(mine) ==> m in mine;
    Reverse(mine)
  }

  /** The other participant of a message, for the given user. */
  function PartnerOf(m: Message, userId: Id): Id {
    if m.senderId == userId then m.receiverId else m.senderId
  }

  /** A message to the user that is still unread. */
  predicate UnreadBy(m: Message, userId: Id) {
    m.receiverId == userId && !m.isRead
  }

  /** The partners of `ms`, each once, in order of first appearance. */
  function Partners(ms: seq<Message>, userId: Id): (ps: seq<Id>)
    ensures forall p :: p in ps <==> exists m :: m in ms && PartnerOf(m, userId) == p
    ensures forall i, j :: 0 <= i < j < |ps| ==> ps[i] != ps[j]
    decreases |ms|
  {
    if ms == [] then []
    else
      var init := ms[..|ms| - 1];
      var before := Partners(init, userId);
      var p := PartnerOf(ms[|ms| - 1], userId);
      assert forall m :: m in ms <==> m in init || m == ms[|ms| - 1];
      if p in before then before else before + [p]
  }

  /** The first message of `ms` exchanged with partner `p`, if any. */
  function FirstWith(ms: seq<Message>, userId: Id, p: Id): (r: Option<Message>)
    ensures r.Some? ==> r.value in ms && PartnerOf(r.value, userId) == p
    ensures r.None? <==> forall m :: m in ms ==> PartnerOf(m, userId) != p
  {
    if ms == [] then None
    else if PartnerOf(ms[0], userId) == p then Some(ms[0])
    else
      assert forall m :: m in ms ==> m == ms[0] || m in ms[1..];
      FirstWith(ms[1..], userId, p)
  }

  /** The message found is the first one exchanged with `p`: every earlier
      message involves another partner. */
  lemma {:induction false} FirstWithIsFirst(ms: seq<Message>, userId: Id, p: Id)
    requires FirstWith(ms, userId, p).Some?
    ensures exists i :: (0 <= i < |ms| && ms[i] == FirstWith(ms, userId, p).value && PartnerOf(ms[i], userId) == p
      && forall j :: 0 <= j < i ==> PartnerOf(ms[j], userId) != p)
  {
    var found := FirstWith(ms, userId, p).value;
    if PartnerOf(ms[0], userId) == p {
      assert ms[0] == found;
    } else {
      var rest := ms[1..];
      assert FirstWith(rest, userId, p) == Some(found);
      FirstWithIsFirst(rest, userId, p);
      var i :| 0 <= i < |rest| && rest[i] == found && PartnerOf(rest[i], userId) == p
        && forall j :: 0 <= j < i ==> PartnerOf(rest[j], userId) != p;
      forall j | 0 <= j < i + 1
        ensures PartnerOf(ms[j], userId) != p
      {
        if j > 0 {
          assert ms[j] == rest[j - 1];
        }
      }
      assert ms[i + 1] == found;
    }
  }

  /** Appending a message changes the first message of a partner only when
      that partner had none. */
  lemma {:induction false} FirstWithSnoc(ms: seq<Message>, m: Message, userId: Id, p: Id)
    ensures FirstWith(ms + [m], userId, p) ==
      if FirstWith(ms, userId, p).Some? then FirstWith(ms, userId, p)
      else if PartnerOf(m, userId) == p then Some(m) else None
  {
    if ms != [] {
      assert (ms + [m])[1..] == ms[1..] + [m];
      FirstWithSnoc(ms[1..], m, userId, p);
    }
  }

  /** Number of messages of `ms` exchanged with `p` that the user has not read. */
  function UnreadWith(ms: seq<Message>, userId: Id, p: Id): (n: nat)
    ensures n <= |ms|
    ensures n == 0 <== forall m :: m in ms ==> !(PartnerOf(m, userId) == p && UnreadBy(m, userId))
    decreases |ms|
  {
    if ms == [] then 0
    else
      var init := ms[..|ms| - 1];
      assert forall m :: m in init ==> m in ms;
      var last := ms[|ms| - 1];
      UnreadWith(init, userId, p) + if PartnerOf(last, userId) == p && UnreadBy(last, userId) then 1 else 0
  }

  /** One entry of `getConversations`: the partner (also the `otherUser`),
      the newest message with them and how many of their messages the
      caller has not read. */
  datatype Conversation = Conversation(id: Id, otherUserId: Id, lastMessage: Message, unreadCount: nat)

  /** Position of partner `p` among the entries, or `|cs|` when absent. */
  function IndexOf(cs: seq<Conversation>, p: Id): (j: nat)
    ensures j <= |cs|
    ensures j < |cs| ==> cs[j].id == p
    ensures j == |cs| ==> forall k :: 0 <= k < |cs| ==> cs[k].id != p
  {
    if cs == [] then 0
    else if cs[0].id == p then 0
    else 1 + IndexOf(cs[1..], p)
  }

  /** The entry of partner `p` agrees with `ms`: its first message with `p`
      and the number of those the user has not read. */
  predicate EntryOf(c: Conversation, ms: seq<Message>, userId: Id, p: Id) {
    && c.id == p && c.otherUserId == p
    && FirstWith(ms, userId, p) == Some(c.lastMessage)
    && c.unreadCount == UnreadWith(ms, userId, p)
  }

  /** The entries are exactly the grouping of `ms` by partner. */
  predicate Grouped(cs: seq<Conversation>, ms: seq<Message>, userId: Id) {
    var ps := Partners(ms, userId);
    && |cs| == |ps|
    && forall k :: 0 <= k < |cs| ==> EntryOf(cs[k], ms, userId, ps[k])
  }

  /** One step of the walk: the message opens its partner's entry when there
      is none yet, and counts there when it is unread by the caller. */
  function Absorb(cs: seq<Conversation>, m: Message, userId: Id): seq<Conversation> {
    var p := if m.senderId == userId then m.receiverId else m.senderId;
    var j := IndexOf(cs, p);
    var withEntry := if j == |cs| then cs + [Conversation(p, p, m, 0)] else cs;
    if m.receiverId == userId && !m.isRead then
      withEntry[j := withEntry[j].(unreadCount := withEntry[j].unreadCount + 1)]
    else withEntry
  }

  /** An entry after message `m`: one more unread when `m` is an unread
      message from its partner. */
  function Counted(c: Conversation, m: Message, userId: Id): Conversation {
    if PartnerOf(m, userId) == c.id && UnreadBy(m, userId) then c.(unreadCount := c.unreadCount + 1) else c
  }

  /** A later message adds its partner at the end unless seen before. */
  lemma PartnersSnoc(ms: seq<Message>, m: Message, userId: Id)
    ensures var before := Partners(ms, userId);
      var p := PartnerOf(m, userId);
      Partners(ms + [m], userId) == if p in before then before else before + [p]
  {
    assert (ms + [m])[..|ms|] == ms;
  }

  /** A later message adds one to its partner's unread count when unread. */
  lemma UnreadWithSnoc(ms: seq<Message>, m: Message, userId: Id, p: Id)
    ensures UnreadWith(ms + [m], userId, p) ==
      UnreadWith(ms, userId, p) + if PartnerOf(m, userId) == p && UnreadBy(m, userId) then 1 else 0
  {
    assert (ms + [m])[..|ms|] == ms;
  }

  /** An entry that agrees with `ms` agrees with `ms + [m]` once `m` is counted. */
  lemma EntryAbsorbs(c: Conversation, ms: seq<Message>, m: Message, userId: Id, p: Id)
    requires EntryOf(c, ms, userId, p)
    ensures EntryOf(Counted(c, m, userId), ms + [m], userId, p)
  {
    FirstWithSnoc(ms, m, userId, p);
    UnreadWithSnoc(ms, m, userId, p);
  }

  /** Absorbing a message from a partner seen before: the entries keep their
      order and first messages; that partner's count may grow by one. */
  lemma AbsorbKnown(cs: seq<Conversation>, ms: seq<Message>, m: Message, userId: Id)
    requires Grouped(cs, ms, userId)
    requires IndexOf(cs, PartnerOf(m, userId)) < |cs|
    ensures Grouped(Absorb(cs, m, userId), ms + [m], userId)
  {
    var ps := Partners(ms, userId);
    PartnersSnoc(ms, m, userId);
    assert PartnerOf(m, userId) in ps by { assert ps[IndexOf(cs, PartnerOf(m, userId))] == PartnerOf(m, userId); }
    var r := Absorb(cs, m, userId);
    AbsorbKnownLength(cs, m, userId);
    forall k | 0 <= k < |r|
      ensures EntryOf(r[k], ms + [m], userId, ps[k])
    {
      KnownEntryStep(cs, ms, m, userId, k);
    }
  }

  /** A known partner's message adds no entry. */
  lemma AbsorbKnownLength(cs: seq<Conversation>, m: Message, userId: Id)
    requires IndexOf(cs, PartnerOf(m, userId)) < |cs|
    ensures |Absorb(cs, m, userId)| == |cs|
  {
  }

  /** Entry `k` after absorbing a message from a known partner. */
  lemma KnownEntryStep(cs: seq<Conversation>, ms: seq<Message>, m: Message, userId: Id, k: nat)
    requires Grouped(cs, ms, userId)
    requires IndexOf(cs, PartnerOf(m, userId)) < |cs|
    requires k < |cs|
    ensures |Absorb(cs, m, userId)| == |cs|
    ensures EntryOf(Absorb(cs, m, userId)[k], ms + [m], userId, Partners(ms, userId)[k])
  {
    var ps := Partners(ms, userId);
    var j := IndexOf(cs, PartnerOf(m, userId));
    assert EntryOf(cs[k], ms, userId, ps[k]);
    assert EntryOf(cs[j], ms, userId, ps[j]);
    AbsorbKnownAt(cs, m, userId, k);
    EntryAbsorbs(cs[k], ms, m, userId, ps[k]);
  }

  /** Absorbing a message from a known partner counts it in that partner's
      entry only. */
  lemma AbsorbKnownAt(cs: seq<Conversation>, m: Message, userId: Id, k: nat)
    requires IndexOf(cs, PartnerOf(m, userId)) < |cs| && k < |cs|
    requires cs[k].id == PartnerOf(m, userId) ==> k == IndexOf(cs, PartnerOf(m, userId))
    ensures |Absorb(cs, m, userId)| == |cs|
    ensures Absorb(cs, m, userId)[k] == Counted(cs[k], m, userId)
  {
  }

  /** Absorbing a message from a new partner: a new last entry opens with
      this message; the old entries are unchanged. */
  lemma AbsorbNew(cs: seq<Conversation>, ms: seq<Message>, m: Message, userId: Id)
    requires Grouped(cs, ms, userId)
    requires IndexOf(cs, PartnerOf(m, userId)) == |cs|
    ensures Grouped(Absorb(cs, m, userId), ms + [m], userId)
  {
    var p := PartnerOf(m, userId);
    var ps := Partners(ms, userId);
    PartnersSnoc(ms, m, userId);
    assert p !in ps;
    var r := Absorb(cs, m, userId);
    AbsorbNewAt(cs, m, userId, |cs|);
    forall k | 0 <= k < |cs|
      ensures EntryOf(r[k], ms + [m], userId, ps[k])
    {
      assert EntryOf(cs[k], ms, userId, ps[k]);
      AbsorbNewAt(cs, m, userId, k);
      EntryAbsorbs(cs[k], ms, m, userId, ps[k]);
    }
    NewEntry(ms, m, userId);
  }

  /** Absorbing a message from a new partner appends its entry and leaves
      the others as they were. */
  lemma AbsorbNewAt(cs: seq<Conversation>, m: Message, userId: Id, k: nat)
    requires IndexOf(cs, PartnerOf(m, userId)) == |cs| && k <= |cs|
    ensures |Absorb(cs, m, userId)| == |cs| + 1
    ensures k < |cs| ==> Absorb(cs, m, userId)[k] == Counted(cs[k], m, userId)
    ensures k == |cs| ==>
      Absorb(cs, m, userId)[k] == Counted(Conversation(PartnerOf(m, userId), PartnerOf(m, userId), m, 0), m, userId)
  {
  }

  /** The entry a new partner's message opens agrees with `ms + [m]`. */
  lemma NewEntry(ms: seq<Message>, m: Message, userId: Id)
    requires PartnerOf(m, userId) !in Partners(ms, userId)
    ensures var p := PartnerOf(m, userId);
      EntryOf(Counted(Conversation(p, p, m, 0), m, userId), ms + [m], userId, p)
  {
    var p := PartnerOf(m, userId);
    FirstWithSnoc(ms, m, userId, p);
    UnreadWithSnoc(ms, m, userId, p);
    assert FirstWith(ms, userId, p).None?;
    assert UnreadWith(ms, userId, p) == 0;
  }

  /** Absorbing a message keeps the entries equal to the grouping of the
      messages seen so far. */
  lemma AbsorbGrouped(cs: seq<Conversation>, ms: seq<Message>, m: Message, userId: Id)
    requires Grouped(cs, ms, userId)
    ensures Grouped(Absorb(cs, m, userId), ms + [m], userId)
  {
    if IndexOf(cs, PartnerOf(m, userId)) < |cs| {
      AbsorbKnown(cs, ms, m, userId);
    } else {
      AbsorbNew(cs, ms, m, userId);
    }
  }

  /** `getConversations`: walk the caller's messages newest first; the first
      message seen with a partner opens that partner's entry (so it is the
      newest one), and every unread message to the caller adds one to its
      partner's entry. Entries come in order of first appearance, i.e. most
      recently active partner first. */
  method GetConversations(db: State, caller: Caller) returns (cs: seq<Conversation>)
    ensures Grouped(cs, Scan(db, caller.id), caller.id)
  {
    var ms := Scan(db, caller.id);
    cs := [];
    var i := 0;
    while i < |ms|
      invariant 0 <= i <= |ms|
      invariant Grouped(cs, ms[..i], caller.id)
    {
      assert ms[..i + 1] == ms[..i] + [ms[i]];
      AbsorbGrouped(cs, ms[..i], ms[i], caller.id);
      cs := Absorb(cs, ms[i], caller.id);
      i := i + 1;
    }
    assert ms[..|ms|] == ms;
  }

  /** `findUnique` on the message id. */
  function FindMessage(ms: seq<Message>, id: Id): (r: Option<Message>)
    ensures r.Some? <==> exists m :: m in ms && m.id == id
    ensures r.Some? ==> r.value in ms && r.value.id == id
  {
    if ms == [] then None
    else if ms[0].id == id then Some(ms[0])
    else FindMessage(ms[1..], id)
  }

  function OtherThan(id: Id): Message -> bool {
    (m: Message) => m.id != id
  }

  /** `deleteMessage`: 404 for an unknown message, 403 unless the caller sent
      it; otherwise the message is removed and nothing else changes. */
  function DeleteMessage(db: State, caller: Caller, messageId: Id): (o: Outcome<string>)
    ensures FindMessage(db.messages, messageId).None? ==> o == Outcome(Fail(404, "Message not found"), db)
    ensures var f := FindMessage(db.messages, messageId);
      f.Some? && f.value.senderId != caller.id ==>
      o == Outcome(Fail(403, "You can only delete your own messages"), db)
    ensures o.response.Done? <==> var f := FindMessage(db.messages, messageId);
      f.Some? && f.value.senderId == caller.id
    ensures o.response.Done? ==>
      && o.response == Done(200, "Message deleted successfully")
      && (exists m :: m in db.messages && m.id == messageId && m.senderId == caller.id)
      && (forall m :: m in o.db.messages <==> m in db.messages && m.id != messageId)
      && o.db.(messages := db.messages) == db
  {
    match FindMessage(db.messages, messageId)
    case None => Outcome(Fail(404, "Message not found"), db)
    case Some(m) =>
      if m.senderId != caller.id then Outcome(Fail(403, "You can only delete your own messages"), db)
      else Outcome(Done(200, "Message deleted successfully"), db.(messages := Filter(db.messages, OtherThan(messageId))))
  }

  /** A message that was sent successfully can be deleted by its sender and
      then no longer appears in the conversation. */
  lemma SendThenDelete(db: State, io: Io, caller: Caller, receiverId: Id, content: string,
                       newId: Id, notificationId: Id, notificationInserted: bool)
    requires SendMessage(db, io, caller, receiverId, content, newId, notificationId, notificationInserted).response.Done?
    requires forall m :: m in db.messages ==> m.id != newId
    ensures var sent := SendMessage(db, io, caller, receiverId, content, newId, notificationId, notificationInserted);
      var deleted := DeleteMessage(sent.db, caller, newId);
      && deleted.response.Done?
      && deleted.db.messages == db.messages
  {
    var sent := SendMessage(db, io, caller, receiverId, content, newId, notificationId, notificationInserted);
    var m := Message(newId, caller.id, receiverId, content, false);
    assert m in sent.db.messages;
    FilterSnoc(db.messages, m, OtherThan(newId));
    FilterAll(db.messages, OtherThan(newId));
  }
}
