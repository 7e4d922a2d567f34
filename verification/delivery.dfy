/** End to end: one message sent from the chat window reaches the receiver
    twice. The server pushes the stored message to the receiver's room
    (backend/src/controllers/message.controller.js:73), and the sender's
    window relays the same message over its socket
    (frontend/src/components/chat/ChatWindow.jsx:157), which the server
    forwards to the same room (backend/src/config/socket.js:57-60). The
    receiver's store has no duplicate check, and every `message:new` listener
    adds what it hears: App.jsx's global listener always, and an open chat
    window's listener too when the message is to or from its peer. So the
    conversation shows the message twice, or four times while the receiver
    has the sender's chat open. */
module Delivery {
  import opened Js
  import opened Domain
  import opened Realtime
  import ChatStore
  import ChatWindow
  import MessageController

  /** The messages carried by `message:new` events, in order. */
  function LiveMessages(events: seq<OutEvent>): (ms: seq<Message>)
    ensures |ms| <= |events|
  {
    if events == [] then []
    else (if events[0].MessageNew? then [events[0].message] else []) + LiveMessages(events[1..])
  }

  /** Each message occurs in `LiveMessages` exactly as often as a
      `message:new` event carrying it occurs among the events. */
  lemma {:induction false} LiveMessagesCount(events: seq<OutEvent>, m: Message)
    ensures multiset(LiveMessages(events))[m] == multiset(events)[MessageNew(m)]
  {
    if events != [] {
      LiveMessagesCount(events[1..], m);
      assert events == [events[0]] + events[1..];
      assert multiset(events) == multiset([events[0]]) + multiset(events[1..]);
    }
  }

  /** The server's pushes for a sent message — `message:new` to the
      receiver's room, possibly followed by a `notification:new` — plus one
      relayed `message:new` give a receiver's socket the message twice. */
  lemma InboxHoldsTwoCopies(receiverSocket: Socket, receiverId: Id, m: Message, pushes: seq<Emission>, relayed: Emission)
    requires receiverSocket.userId == Some(receiverId)
    requires 1 <= |pushes| <= 2 && pushes[0] == Emission(ToRoom(RoomName(receiverId)), MessageNew(m))
    requires |pushes| == 2 ==> pushes[1].event.NotificationNew?
    requires relayed == Emission(ToRoom(RoomName(receiverId)), MessageNew(m))
    ensures LiveMessages(Inbox(receiverSocket, pushes + [relayed])) == [m, m]
  {
    InboxConcat(receiverSocket, pushes, [relayed]);
    assert Inbox(receiverSocket, [relayed]) == [MessageNew(m)];
    if |pushes| == 2 {
      var tail := Inbox(receiverSocket, pushes[1..]);
      assert tail == [] || tail == [pushes[1].event];
      assert Inbox(receiverSocket, pushes) == [MessageNew(m)] + tail;
      assert LiveMessages(tail + [MessageNew(m)]) == [m] by {
        if tail != [] {
          assert (tail + [MessageNew(m)])[1..] == [MessageNew(m)];
        }
      }
      assert LiveMessages(Inbox(receiverSocket, pushes + [relayed])) == [m] + LiveMessages(tail + [MessageNew(m)]) by {
        assert Inbox(receiverSocket, pushes + [relayed]) == [MessageNew(m)] + (tail + [MessageNew(m)]);
      }
    } else {
      assert pushes[1..] == [];
      assert Inbox(receiverSocket, pushes) == [MessageNew(m)];
      assert Inbox(receiverSocket, pushes + [relayed]) == [MessageNew(m), MessageNew(m)];
    }
  }

  /** Two copies of a received message end up in the receiver's store under
      its sender. */
  lemma StoreKeepsTwoCopies(store: ChatStore.ChatState, m: Message)
    requires m.senderId != m.receiverId
    ensures ChatStore.ListOf(ChatStore.AddAll(store, [m, m], Some(m.receiverId)), m.senderId)
      == ChatStore.ListOf(store, m.senderId) + [m, m]
  {
    var s1 := ChatStore.AddMessage(store, m, Some(m.receiverId));
    var s2 := ChatStore.AddMessage(s1, m, Some(m.receiverId));
    assert [m, m][1..] == [m];
    assert ChatStore.AddAll(s1, [m], Some(m.receiverId)) == ChatStore.AddAll(s2, [], Some(m.receiverId));
    ChatStore.AddMessageTwice(store, m, Some(m.receiverId));
  }

  /** Whether a chat window open on `openPeer` listens for `m`. */
  predicate WindowHears(m: Message, openPeer: Option<Id>) {
    openPeer.Some? && (m.senderId == openPeer.value || m.receiverId == openPeer.value)
  }

  /** The receiver's `message:new` listeners handling one event in the order
      they were registered: App.jsx's global listener, then the listener of
      the chat window open on `openPeer`, if any. */
  function Receive(store: ChatStore.ChatState, m: Message, currentUserId: Option<Id>, openPeer: Option<Id>): (r: ChatStore.ChatState)
    ensures var p := ChatStore.PeerOf(m, currentUserId);
      && ChatStore.ListOf(r, p) == ChatStore.ListOf(store, p) + (if WindowHears(m, openPeer) then [m, m] else [m])
      && (forall q :: q != p ==> ChatStore.ListOf(r, q) == ChatStore.ListOf(store, q))
  {
    var s := ChatStore.AddMessage(store, m, currentUserId);
    if openPeer.Some? then ChatWindow.OnLiveMessage(s, openPeer.value, m, currentUserId) else s
  }

  /** The listeners handling a sequence of `message:new` events. */
  function ReceiveAll(store: ChatStore.ChatState, ms: seq<Message>, currentUserId: Option<Id>, openPeer: Option<Id>): ChatStore.ChatState
    decreases |ms|
  {
    if ms == [] then store else ReceiveAll(Receive(store, ms[0], currentUserId, openPeer), ms[1..], currentUserId, openPeer)
  }

  /** Both deliveries of a received message pass through every listener:
      two copies with no chat window on the sender, four with one. */
  lemma ListenersMultiplyCopies(store: ChatStore.ChatState, m: Message, openPeer: Option<Id>)
    requires m.senderId != m.receiverId
    ensures ChatStore.ListOf(ReceiveAll(store, [m, m], Some(m.receiverId), openPeer), m.senderId)
      == ChatStore.ListOf(store, m.senderId) + (if WindowHears(m, openPeer) then [m, m, m, m] else [m, m])
  {
    var cur := Some(m.receiverId);
    var s1 := Receive(store, m, cur, openPeer);
    var s2 := Receive(s1, m, cur, openPeer);
    assert [m, m][1..] == [m];
    assert ReceiveAll(s1, [m], cur, openPeer) == ReceiveAll(s2, [], cur, openPeer);
  }

  /** A socket of the receiver gets `message:new` for the message twice;
      one listener adding both leaves two copies at the end of the sender's
      conversation, and the receiver's listeners together leave two, or four
      while the receiver has a chat window open on the sender. */
  lemma MessageDeliveredTwice(
    db: State, sockets: seq<Socket>, sender: Caller, senderSocket: Socket, view: ChatWindow.View,
    senderStore: ChatStore.ChatState, newId: Id, notificationId: Id, inserted: bool,
    receiverSocket: Socket, receiverStore: ChatStore.ChatState, receiverOpenPeer: Option<Id>)
    requires senderSocket.userId == Some(sender.id)
    requires receiverSocket.userId == Some(view.peer)
    requires !AllSpace(view.input)
    requires MessageController.SendMessage(db, Running(sockets), sender, view.peer, Trim(view.input), newId, notificationId, inserted).response.Done?
    ensures
      var sent := MessageController.SendMessage(db, Running(sockets), sender, view.peer, Trim(view.input), newId, notificationId, inserted);
      var m := sent.response.value;
      var submitted := ChatWindow.Submit(view, senderStore, Some(sender.id), Some(m));
      && submitted.request == Some((view.peer, Trim(view.input)))
      && submitted.out[0] == MessageSend(m)
      && var inbox := Inbox(receiverSocket, sent.pushes + [OnEvent(senderSocket, submitted.out[0])]);
      && LiveMessages(inbox) == [m, m]
      && ChatStore.ListOf(ChatStore.AddAll(receiverStore, LiveMessages(inbox), Some(view.peer)), sender.id)
           == ChatStore.ListOf(receiverStore, sender.id) + [m, m]
      && ChatStore.ListOf(ReceiveAll(receiverStore, LiveMessages(inbox), Some(view.peer), receiverOpenPeer), sender.id)
           == ChatStore.ListOf(receiverStore, sender.id)
              + (if receiverOpenPeer == Some(sender.id) || receiverOpenPeer == Some(view.peer) then [m, m, m, m] else [m, m])
  {
    var sent := MessageController.SendMessage(db, Running(sockets), sender, view.peer, Trim(view.input), newId, notificationId, inserted);
    var m := sent.response.value;
    assert m == Message(newId, sender.id, view.peer, Trim(view.input), false);
    var submitted := ChatWindow.Submit(view, senderStore, Some(sender.id), Some(m));
    var relayed := OnEvent(senderSocket, submitted.out[0]);
    InboxHoldsTwoCopies(receiverSocket, view.peer, m, sent.pushes, relayed);
    assert LiveMessages(Inbox(receiverSocket, sent.pushes + [relayed])) == [m, m];
    StoreKeepsTwoCopies(receiverStore, m);
    ListenersMultiplyCopies(receiverStore, m, receiverOpenPeer);
    assert WindowHears(m, receiverOpenPeer) <==> receiverOpenPeer == Some(sender.id) || receiverOpenPeer == Some(view.peer);
  }
}
