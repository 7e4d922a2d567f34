/** The Socket.IO server (backend/src/config/socket.js): token handshake,
    per-user rooms `user:<id>`, the online snapshot and presence broadcasts,
    the relays for messages, typing and notifications, and the helpers the
    controllers call. Connected sockets are a sequence in connection order;
    an emission is a target plus an event, and `Reaches` says which sockets
    a target addresses. */
module Realtime {
  import opened Js
  import opened Seqs
  import opened Domain

  /** A connected socket: its id and `socket.userId`, the `userId` claim of
      its token (absent when the token carries none). */
  datatype Socket = Socket(sid: nat, userId: Option<Id>)

  datatype OutEvent =
    | UsersOnline(ids: seq<Id>)
    | UserOnline(userId: Option<Id>)
    | UserOffline(userId: Option<Id>)
    | MessageNew(message: Message)
    | UserTyping(typist: Option<Id>, isTyping: bool)
    | NotificationNew(notification: Notification)

  /** Events a client emits; only the fields the server reads are kept. */
  datatype InEvent =
    | MessageSend(data: Message)
    | TypingStart(receiverId: Id)
    | TypingStop(receiverId: Id)
    | NotificationSend(userId: Id, notification: Notification)

  /** `socket.emit`, `io.to(room).emit`, `socket.broadcast.emit`. */
  datatype Target = ToSocket(sid: nat) | ToRoom(room: string) | BroadcastFrom(sid: nat)

  datatype Emission = Emission(target: Target, event: OutEvent)

  /** The module-level `io`: `null` until `initializeSocket` ran. */
  datatype Io = Uninitialized | Running(sockets: seq<Socket>)

  /** A template literal renders an absent value as `undefined`. */
  function Render(userId: Option<Id>): string {
    if userId.Some? then userId.value else "undefined"
  }

  /** `user:${userId}`. */
  function RoomName(userId: Id): string {
    "user:" + userId
  }

  /** The room a socket joins on connection. */
  function RoomOf(s: Socket): string {
    "user:" + Render(s.userId)
  }

  /** Different users have different rooms. */
  lemma RoomNameInjective(a: Id, b: Id)
    ensures RoomName(a) == RoomName(b) <==> a == b
  {
    if RoomName(a) == RoomName(b) {
      assert a == RoomName(a)[5..];
      assert b == RoomName(b)[5..];
    }
  }

  predicate Reaches(s: Socket, t: Target) {
    match t
    case ToSocket(sid) => s.sid == sid
    case ToRoom(room) => RoomOf(s) == room
    case BroadcastFrom(sid) => s.sid != sid
  }

  /** The ids of the sockets an emission is delivered to. */
  function Recipients(sockets: seq<Socket>, t: Target): set<nat> {
    set s | s in sockets && Reaches(s, t) :: s.sid
  }

  /** An emission to the room of user `u` is delivered to exactly the
      sockets authenticated as `u`, plus, when `u` is literally "undefined",
      the sockets whose token carried no user id (they joined
      `user:undefined`). */
  lemma RoomRecipients(sockets: seq<Socket>, u: Id)
    ensures Recipients(sockets, ToRoom(RoomName(u)))
      == set s | s in sockets && (s.userId == Some(u) || (s.userId.None? && u == "undefined")) :: s.sid
  {
    forall s | s in sockets
      ensures Reaches(s, ToRoom(RoomName(u))) <==> s.userId == Some(u) || (s.userId.None? && u == "undefined")
    {
      RoomNameInjective(Render(s.userId), u);
    }
  }

  /** The outcome of the handshake middleware. */
  datatype Auth = Authenticated(userId: Option<Id>) | AuthError(message: string)

  /** `io.use`: a falsy token and a token that `verify` rejects (it throws)
      both fail with "Authentication error"; otherwise the socket carries the
      token's `userId` claim. `verify` stands for `jwt.verify` with the
      server's secret. */
  function Handshake(token: JStr, verify: string -> Option<Option<Id>>): (r: Auth)
    ensures r.Authenticated? <==> Truthy(token) && verify(token.s).Some?
    ensures r.Authenticated? ==> r.userId == verify(token.s).value
    ensures r.AuthError? ==> r.message == "Authentication error"
  {
    if !Truthy(token) then AuthError("Authentication error")
    else match verify(token.s)
      case None => AuthError("Authentication error")
      case Some(userId) => Authenticated(userId)
  }

  /** The socket is authenticated as `u`. */
  function WithUser(u: Id): Socket -> bool {
    (s: Socket) => s.userId == Some(u)
  }

  /** `Array.from(io.sockets.sockets.values()).map(s => s.userId).filter(Boolean)`:
      the truthy user ids of the connected sockets, in connection order, one
      entry per socket (a user with two tabs appears twice). */
  function OnlineIds(sockets: seq<Socket>): (ids: seq<Id>)
    ensures |ids| <= |sockets|
    ensures forall u :: u in ids <==> u != "" && exists s :: s in sockets && s.userId == Some(u)
    ensures forall u :: u != "" ==> multiset(ids)[u] == |Filter(sockets, WithUser(u))|
    ensures multiset(ids)[""] == 0
  {
    if sockets == [] then []
    else
      var rest := OnlineIds(sockets[1..]);
      assert forall s :: s in sockets <==> s == sockets[0] || s in sockets[1..];
      if Filled(sockets[0].userId) then [sockets[0].userId.value] + rest else rest
  }

  datatype Step = Step(sockets: seq<Socket>, out: seq<Emission>)

  /** The `connection` handler: the socket joins its room (it is now among
      the sockets), receives the snapshot of online ids — its own included —
      and every other socket is told that its user came online. */
  function Connect(sockets: seq<Socket>, s: Socket): (r: Step)
    ensures r.sockets == sockets + [s]
    ensures |r.out| == 2
    ensures r.out[0].target == ToSocket(s.sid) && r.out[0].event.UsersOnline?
    ensures forall u :: u in r.out[0].event.ids <==>
      u != "" && (s.userId == Some(u) || exists t :: t in sockets && t.userId == Some(u))
    ensures r.out[1] == Emission(BroadcastFrom(s.sid), UserOnline(s.userId))
  {
    var after := sockets + [s];
    assert forall t :: t in after <==> t == s || t in sockets;
    Step(after, [Emission(ToSocket(s.sid), UsersOnline(OnlineIds(after))),
                 Emission(BroadcastFrom(s.sid), UserOnline(s.userId))])
  }

  /** The handlers registered on a connected socket. */
  function OnEvent(sender: Socket, e: InEvent): (out: Emission)
    ensures e.MessageSend? ==> out == Emission(ToRoom(RoomName(e.data.receiverId)), MessageNew(e.data))
    ensures (e.TypingStart? || e.TypingStop?) ==>
      out.target == ToRoom(RoomName(e.receiverId)) && out.event.UserTyping?
      && out.event.typist == sender.userId && out.event.isTyping == e.TypingStart?
    ensures e.NotificationSend? ==>
      out == Emission(ToRoom(RoomName(e.userId)), NotificationNew(e.notification))
  {
    match e
    case MessageSend(data) => Emission(ToRoom(RoomName(data.receiverId)), MessageNew(data))
    case TypingStart(receiverId) => Emission(ToRoom(RoomName(receiverId)), UserTyping(sender.userId, true))
    case TypingStop(receiverId) => Emission(ToRoom(RoomName(receiverId)), UserTyping(sender.userId, false))
    case NotificationSend(userId, notification) => Emission(ToRoom(RoomName(userId)), NotificationNew(notification))
  }

  /** A relayed message reaches every socket of the receiver, and a socket
      with a user id only when that id is the receiver's. (A socket whose
      token had no user id sits in `user:undefined`.) */
  lemma RelayReachesReceiver(sender: Socket, m: Message, s: Socket)
    ensures s.userId == Some(m.receiverId) ==> Reaches(s, OnEvent(sender, MessageSend(m)).target)
    ensures s.userId.Some? && Reaches(s, OnEvent(sender, MessageSend(m)).target) ==> s.userId.value == m.receiverId
  {
    if s.userId.Some? {
      RoomNameInjective(s.userId.value, m.receiverId);
    }
  }

  /** The `disconnect` handler for the socket at index `i`: it leaves, and
      every other socket is told that its user went offline. */
  function Disconnect(sockets: seq<Socket>, i: nat): (r: Step)
    requires i < |sockets|
    ensures r.sockets == sockets[..i] + sockets[i + 1..]
    ensures r.out == [Emission(BroadcastFrom(sockets[i].sid), UserOffline(sockets[i].userId))]
  {
    Step(sockets[..i] + sockets[i + 1..],
         [Emission(BroadcastFrom(sockets[i].sid), UserOffline(sockets[i].userId))])
  }

  /** Presence is not counted per user: closing one of two tabs of the same
      user broadcasts `user:offline` for that user to the remaining tab's
      peers although the user still has a connected socket. */
  lemma PresenceNotRefCounted(sockets: seq<Socket>, i: nat, j: nat)
    requires i < |sockets| && j < |sockets| && i != j
    requires sockets[i].userId == sockets[j].userId && Filled(sockets[i].userId)
    requires sockets[i].sid != sockets[j].sid
    ensures var r := Disconnect(sockets, i);
      && r.out[0].event == UserOffline(sockets[i].userId)
      && Reaches(sockets[j], r.out[0].target)
      && exists t :: t in r.sockets && t.userId == sockets[i].userId
  {
    var r := Disconnect(sockets, i);
    if j < i {
      assert r.sockets[j] == sockets[j];
    } else {
      assert r.sockets[j - 1] == sockets[j];
    }
  }

  /** `getIO`: the server, or the error it throws before initialisation. */
  datatype IoResult = IoReady(sockets: seq<Socket>) | IoError(message: string)

  function GetIO(io: Io): (r: IoResult)
    ensures io.Uninitialized? <==> r == IoError("Socket.IO not initialized")
    ensures io.Running? ==> r == IoReady(io.sockets)
  {
    match io
    case Uninitialized => IoError("Socket.IO not initialized")
    case Running(sockets) => IoReady(sockets)
  }

  /** `sendMessageToUser`: a push to the user's room, or nothing at all when
      the server is not initialised (no error). */
  function SendMessageToUser(io: Io, userId: Id, m: Message): (out: seq<Emission>)
    ensures io.Uninitialized? <==> out == []
    ensures io.Running? ==> out == [Emission(ToRoom(RoomName(userId)), MessageNew(m))]
  {
    if io.Uninitialized? then [] else [Emission(ToRoom(RoomName(userId)), MessageNew(m))]
  }

  /** `sendNotificationToUser`: as `sendMessageToUser`, with `notification:new`. */
  function SendNotificationToUser(io: Io, userId: Id, n: Notification): (out: seq<Emission>)
    ensures io.Uninitialized? <==> out == []
    ensures io.Running? ==> out == [Emission(ToRoom(RoomName(userId)), NotificationNew(n))]
  {
    if io.Uninitialized? then [] else [Emission(ToRoom(RoomName(userId)), NotificationNew(n))]
  }

  /** The events a socket receives from a sequence of emissions, in order. */
  function Inbox(s: Socket, out: seq<Emission>): (r: seq<OutEvent>)
    ensures |r| <= |out|
    ensures forall e :: e in r ==> exists x :: x in out && x.event == e && Reaches(s, x.target)
  {
    if out == [] then []
    else
      var rest := Inbox(s, out[1..]);
      if Reaches(s, out[0].target) then [out[0].event] + rest else rest
  }

  lemma {:induction false} InboxConcat(s: Socket, a: seq<Emission>, b: seq<Emission>)
    ensures Inbox(s, a + b) == Inbox(s, a) + Inbox(s, b)
  {
    if a == [] {
      assert a + b == b;
    } else {
      assert (a + b)[1..] == a[1..] + b;
      InboxConcat(s, a[1..], b);
    }
  }
}
