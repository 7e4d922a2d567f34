/** The client chat store (frontend/src/stores/chatStore.js): per-peer message
    lists, per-peer unread counters, a typing map, the online set and the open
    conversation. Every action is a pure function from state to state. */
module ChatStore {
  import opened Js
  import opened Domain

  datatype ChatState = ChatState(
    activeConversation: Option<Id>,
    messages: map<Id, seq<Message>>,
    typingUsers: map<Id, bool>,
    onlineUsers: set<Id>,
    unreadCounts: map<Id, int>)

  const Initial: ChatState := ChatState(None, map[], map[], {}, map[])

  /** `messages[p] || []`. */
  function ListOf(s: ChatState, p: Id): seq<Message> {
    if p in s.messages then s.messages[p] else []
  }

  /** `unreadCounts[p] || 0`. */
  function UnreadOf(s: ChatState, p: Id): int {
    if p in s.unreadCounts then s.unreadCounts[p] else 0
  }

  /** The conversation partner of a message for the signed-in user: the
      receiver when that user sent it, the sender otherwise. */
  function PeerOf(m: Message, currentUserId: Option<Id>): (p: Id)
    ensures p == m.senderId || p == m.receiverId
    ensures currentUserId == Some(m.senderId) ==> p == m.receiverId
    ensures currentUserId != Some(m.senderId) ==> p == m.senderId
  {
    if currentUserId == Some(m.senderId) then m.receiverId else m.senderId
  }

  /** `currentUserId && message.senderId !== currentUserId`. */
  predicate IsReceived(m: Message, currentUserId: Option<Id>) {
    currentUserId.Some? && currentUserId.value != "" && m.senderId != currentUserId.value
  }

  /** `addMessage`: append the message to its partner's list (no duplicate
      check) and count it as unread when it was received outside the open
      conversation. */
  function AddMessage(s: ChatState, m: Message, currentUserId: Option<Id>): (r: ChatState)
    ensures var p := PeerOf(m, currentUserId);
      && r.messages.Keys == s.messages.Keys + {p}
      && ListOf(r, p) == ListOf(s, p) + [m]
      && (forall q :: q != p ==> ListOf(r, q) == ListOf(s, q))
    ensures IsReceived(m, currentUserId) && s.activeConversation != Some(m.senderId)
      ==> r.unreadCounts.Keys == s.unreadCounts.Keys + {m.senderId}
          && UnreadOf(r, m.senderId) == UnreadOf(s, m.senderId) + 1
          && (forall q :: q != m.senderId ==> UnreadOf(r, q) == UnreadOf(s, q))
    ensures !(IsReceived(m, currentUserId) && s.activeConversation != Some(m.senderId))
      ==> r.unreadCounts == s.unreadCounts
    ensures r.activeConversation == s.activeConversation
    ensures r.typingUsers == s.typingUsers && r.onlineUsers == s.onlineUsers
  {
    var p := PeerOf(m, currentUserId);
    var withMessage := s.(messages := s.messages[p := ListOf(s, p) + [m]]);
    var isReceived := currentUserId.Some? && currentUserId.value != "" && m.senderId != currentUserId.value;
    var isActive := s.activeConversation == Some(p);
    if isReceived && !isActive then
      withMessage.(unreadCounts := s.unreadCounts[m.senderId := UnreadOf(s, m.senderId) + 1])
    else withMessage
  }

  /** `addMessage` is not idempotent: delivering the same message twice leaves
      two copies in the partner's list and changes the state again. */
  lemma AddMessageTwice(s: ChatState, m: Message, currentUserId: Option<Id>)
    ensures var once := AddMessage(s, m, currentUserId);
      var twice := AddMessage(once, m, currentUserId);
      && ListOf(twice, PeerOf(m, currentUserId)) == ListOf(s, PeerOf(m, currentUserId)) + [m, m]
      && twice != once
  {
    var p := PeerOf(m, currentUserId);
    var once := AddMessage(s, m, currentUserId);
    var twice := AddMessage(once, m, currentUserId);
    assert ListOf(twice, p) == ListOf(s, p) + [m] + [m];
    assert |ListOf(twice, p)| != |ListOf(once, p)|;
  }

  /** Applies `addMessage` to each message in order, as live `message:new`
      events do. */
  function AddAll(s: ChatState, ms: seq<Message>, currentUserId: Option<Id>): ChatState
    decreases |ms|
  {
    if ms == [] then s else AddAll(AddMessage(s, ms[0], currentUserId), ms[1..], currentUserId)
  }

  /** Receiving N messages from a peer whose conversation is not open raises
      that peer's unread counter by exactly N, and opening the conversation
      afterwards clears it. */
  lemma {:induction false} UnreadCountsReceivedMessages(s: ChatState, ms: seq<Message>, currentUserId: Option<Id>, peer: Id)
    requires currentUserId.Some? && currentUserId.value != "" && peer != currentUserId.value
    requires forall i :: 0 <= i < |ms| ==> ms[i].senderId == peer
    requires s.activeConversation != Some(peer)
    ensures UnreadOf(AddAll(s, ms, currentUserId), peer) == UnreadOf(s, peer) + |ms|
    ensures AddAll(s, ms, currentUserId).activeConversation == s.activeConversation
    ensures peer !in SetActiveConversation(AddAll(s, ms, currentUserId), peer).unreadCounts
    decreases |ms|
  {
    if ms != [] {
      var s1 := AddMessage(s, ms[0], currentUserId);
      assert IsReceived(ms[0], currentUserId);
      assert UnreadOf(s1, peer) == UnreadOf(s, peer) + 1;
      UnreadCountsReceivedMessages(s1, ms[1..], currentUserId, peer);
    }
  }

  /** `setActiveConversation`: open the conversation and drop its unread entry. */
  function SetActiveConversation(s: ChatState, userId: Id): (r: ChatState)
    ensures r.activeConversation == Some(userId)
    ensures userId !in r.unreadCounts
    ensures forall q :: q != userId ==> (q in r.unreadCounts <==> q in s.unreadCounts) && UnreadOf(r, q) == UnreadOf(s, q)
    ensures r.messages == s.messages && r.typingUsers == s.typingUsers && r.onlineUsers == s.onlineUsers
  {
    s.(activeConversation := Some(userId), unreadCounts := s.unreadCounts - {userId})
  }

  /** `setUnreadCounts`: the whole map is replaced. */
  function SetUnreadCounts(s: ChatState, counts: map<Id, int>): (r: ChatState)
    ensures r.unreadCounts == counts
    ensures r.activeConversation == s.activeConversation && r.messages == s.messages
    ensures r.typingUsers == s.typingUsers && r.onlineUsers == s.onlineUsers
  {
    s.(unreadCounts := counts)
  }

  /** `setMessages`: replace one peer's list; no other list changes. */
  function SetMessages(s: ChatState, userId: Id, ms: seq<Message>): (r: ChatState)
    ensures userId in r.messages && ListOf(r, userId) == ms
    ensures forall q :: q != userId ==> (q in r.messages <==> q in s.messages) && ListOf(r, q) == ListOf(s, q)
    ensures r.activeConversation == s.activeConversation && r.unreadCounts == s.unreadCounts
    ensures r.typingUsers == s.typingUsers && r.onlineUsers == s.onlineUsers
  {
    s.(messages := s.messages[userId := ms])
  }

  /** `setTyping`: last write wins for that peer; no other peer changes. */
  function SetTyping(s: ChatState, userId: Id, isTyping: bool): (r: ChatState)
    ensures userId in r.typingUsers && r.typingUsers[userId] == isTyping
    ensures forall q :: q != userId ==> (q in r.typingUsers <==> q in s.typingUsers)
    ensures forall q :: q != userId && q in s.typingUsers ==> r.typingUsers[q] == s.typingUsers[q]
    ensures r.activeConversation == s.activeConversation && r.messages == s.messages
    ensures r.unreadCounts == s.unreadCounts && r.onlineUsers == s.onlineUsers
  {
    s.(typingUsers := s.typingUsers[userId := isTyping])
  }

  /** Two typing events for the same peer: only the later one is visible. */
  lemma SetTypingLastWriteWins(s: ChatState, userId: Id, first: bool, second: bool)
    ensures SetTyping(SetTyping(s, userId, first), userId, second) == SetTyping(s, userId, second)
  {
  }

  /** `setOnlineUsers`: the set of the listed ids (duplicates collapse). */
  function SetOnlineUsers(s: ChatState, users: seq<Id>): (r: ChatState)
    ensures forall u :: u in r.onlineUsers <==> u in users
    ensures |r.onlineUsers| <= |users|
    ensures r.activeConversation == s.activeConversation && r.messages == s.messages
    ensures r.unreadCounts == s.unreadCounts && r.typingUsers == s.typingUsers
  {
    OnlineCardinality(users);
    s.(onlineUsers := set u | u in users)
  }

  lemma {:induction false} OnlineCardinality(users: seq<Id>)
    ensures |set u | u in users| <= |users|
  {
    if users != [] {
      OnlineCardinality(users[1..]);
      assert (set u | u in users) == (set u | u in users[1..]) + {users[0]};
    }
  }

  /** `addOnlineUser`: the id becomes a member; other ids are untouched. */
  function AddOnlineUser(s: ChatState, userId: Id): (r: ChatState)
    ensures userId in r.onlineUsers
    ensures forall u :: u != userId ==> (u in r.onlineUsers <==> u in s.onlineUsers)
    ensures r.activeConversation == s.activeConversation && r.messages == s.messages
    ensures r.unreadCounts == s.unreadCounts && r.typingUsers == s.typingUsers
  {
    s.(onlineUsers := s.onlineUsers + {userId})
  }

  /** `removeOnlineUser`: the id stops being a member; other ids are untouched. */
  function RemoveOnlineUser(s: ChatState, userId: Id): (r: ChatState)
    ensures userId !in r.onlineUsers
    ensures forall u :: u != userId ==> (u in r.onlineUsers <==> u in s.onlineUsers)
    ensures r.activeConversation == s.activeConversation && r.messages == s.messages
    ensures r.unreadCounts == s.unreadCounts && r.typingUsers == s.typingUsers
  {
    s.(onlineUsers := s.onlineUsers - {userId})
  }

  /** Adding an online user twice is the same as adding it once. */
  lemma AddOnlineUserIdempotent(s: ChatState, userId: Id)
    ensures AddOnlineUser(AddOnlineUser(s, userId), userId) == AddOnlineUser(s, userId)
  {
  }

  /** `clearChat`: reset the open conversation, the message lists and the
      typing map; unread counters and the online set survive. */
  function ClearChat(s: ChatState): (r: ChatState)
    ensures r.activeConversation == None && r.messages == map[] && r.typingUsers == map[]
    ensures r.unreadCounts == s.unreadCounts && r.onlineUsers == s.onlineUsers
  {
    s.(activeConversation := None, messages := map[], typingUsers := map[])
  }

  /** Every stored unread counter is at least one. */
  predicate PositiveCounts(s: ChatState) {
    forall p :: p in s.unreadCounts ==> s.unreadCounts[p] >= 1
  }

  /** The store's actions keep every stored unread counter at least one,
      provided the maps handed to `setUnreadCounts` are positive. */
  lemma PositiveCountsPreserved(s: ChatState, m: Message, currentUserId: Option<Id>, u: Id)
    requires PositiveCounts(s)
    ensures PositiveCounts(AddMessage(s, m, currentUserId))
    ensures PositiveCounts(SetActiveConversation(s, u))
    ensures PositiveCounts(ClearChat(s))
    ensures PositiveCounts(SetMessages(s, u, []))
  {
  }
}
