/** The messages page (frontend/src/pages/Messages.jsx): the unread
    counters it copies from the conversation list into the chat store, the
    conversation or friend it opens for the active partner, and the name it
    hands to the chat window. */
module MessagesPage {
  import opened Js
  import opened Domain
  import ChatStore

  /** The `otherUser` object of a conversation entry as the page reads it. */
  datatype Peer = Peer(id: Id, name: JStr, firstName: JStr, avatarUrl: JStr, profilePicture: JStr)

  /** One entry of the `useConversations` data. */
  datatype ConversationItem = ConversationItem(otherUser: Peer, unreadCount: int)

  /** One entry of the `useFriends` data. */
  datatype FriendItem = FriendItem(id: Id, name: JStr, avatarUrl: JStr)

  /** The counters object built by the effect: walking the entries in order,
      every entry with a positive count writes it under its partner's id, so
      a later entry for the same partner overwrites an earlier one. */
  function UnreadCounts(cs: seq<ConversationItem>): (r: map<Id, int>)
    ensures forall k :: k in r <==> exists i :: 0 <= i < |cs| && cs[i].unreadCount > 0 && cs[i].otherUser.id == k
    ensures forall k :: k in r ==> r[k] >= 1
  {
    if cs == [] then map[]
    else
      var rest := UnreadCounts(cs[1..]);
      var c := cs[0];
      assert forall i :: 1 <= i < |cs| ==> cs[i] == cs[1..][i - 1];
      if c.unreadCount > 0 && c.otherUser.id !in rest then rest[c.otherUser.id := c.unreadCount] else rest
  }

  /** When no partner appears twice, every entry with a positive count is
      copied exactly (and, by the keys above, no other partner gets one). */
  lemma {:induction false} UnreadCountsOfDistinct(cs: seq<ConversationItem>)
    requires forall i, j :: 0 <= i < j < |cs| ==> cs[i].otherUser.id != cs[j].otherUser.id
    ensures forall i :: 0 <= i < |cs| && cs[i].unreadCount > 0 ==>
      cs[i].otherUser.id in UnreadCounts(cs) && UnreadCounts(cs)[cs[i].otherUser.id] == cs[i].unreadCount
    ensures forall i :: 0 <= i < |cs| && cs[i].unreadCount <= 0 ==> cs[i].otherUser.id !in UnreadCounts(cs)
  {
    if cs != [] {
      var tail := cs[1..];
      assert forall i :: 1 <= i < |cs| ==> cs[i] == tail[i - 1];
      UnreadCountsOfDistinct(tail);
      var rest := UnreadCounts(tail);
      var r := UnreadCounts(cs);
      var c := cs[0];
      assert c.otherUser.id !in rest;
      assert r == if c.unreadCount > 0 then rest[c.otherUser.id := c.unreadCount] else rest;
      forall i | 1 <= i < |cs|
        ensures cs[i].unreadCount > 0 ==> cs[i].otherUser.id in r && r[cs[i].otherUser.id] == cs[i].unreadCount
        ensures cs[i].unreadCount <= 0 ==> cs[i].otherUser.id !in r
      {
        assert cs[i] == tail[i - 1];
      }
    }
  }

  /** The effect: once the conversations have loaded, the store's counters
      are replaced by the ones built from them; before that nothing changes. */
  function SyncUnread(store: ChatStore.ChatState, conversations: Option<seq<ConversationItem>>): (r: ChatStore.ChatState)
    ensures conversations.None? ==> r == store
    ensures conversations.Some? ==> r == ChatStore.SetUnreadCounts(store, UnreadCounts(conversations.value))
  {
    match conversations
    case None => store
    case Some(cs) => ChatStore.SetUnreadCounts(store, UnreadCounts(cs))
  }

  /** Syncing keeps every stored counter at least one. */
  lemma SyncKeepsCountsPositive(store: ChatStore.ChatState, conversations: Option<seq<ConversationItem>>)
    requires ChatStore.PositiveCounts(store)
    ensures ChatStore.PositiveCounts(SyncUnread(store, conversations))
  {
  }

  /** `conversations?.find(conv => conv.otherUser?.id === activeConversation)`:
      the first entry with the active partner. With no active partner
      (`null`) no entry matches, since every id is a string. */
  function SelectedConversation(conversations: Option<seq<ConversationItem>>, active: Option<Id>): (r: Option<ConversationItem>)
    ensures r.Some? <==> (conversations.Some? && active.Some?
      && exists i :: 0 <= i < |conversations.value| && conversations.value[i].otherUser.id == active.value)
    ensures r.Some? ==> exists i :: (0 <= i < |conversations.value| && conversations.value[i] == r.value
      && r.value.otherUser.id == active.value
      && forall j :: 0 <= j < i ==> conversations.value[j].otherUser.id != active.value)
  {
    if conversations.None? || active.None? then None
    else FirstConversation(conversations.value, active.value)
  }

  function FirstConversation(cs: seq<ConversationItem>, id: Id): (r: Option<ConversationItem>)
    ensures r.Some? <==> exists i :: 0 <= i < |cs| && cs[i].otherUser.id == id
    ensures r.Some? ==> exists i :: (0 <= i < |cs| && cs[i] == r.value && r.value.otherUser.id == id
      && forall j :: 0 <= j < i ==> cs[j].otherUser.id != id)
  {
    if cs == [] then None
    else if cs[0].otherUser.id == id then Some(cs[0])
    else
      var r := FirstConversation(cs[1..], id);
      assert forall i :: 1 <= i < |cs| ==> cs[i] == cs[1..][i - 1];
      if r.Some? then
        var i :| 0 <= i < |cs[1..]| && cs[1..][i] == r.value && r.value.otherUser.id == id
          && forall j :: 0 <= j < i ==> cs[1..][j].otherUser.id != id;
        assert cs[i + 1] == r.value;
        r
      else r
  }

  /** `friends?.find(f => f.id === activeConversation)`. */
  function FallbackUser(friends: Option<seq<FriendItem>>, active: Option<Id>): (r: Option<FriendItem>)
    ensures r.Some? <==> (friends.Some? && active.Some?
      && exists i :: 0 <= i < |friends.value| && friends.value[i].id == active.value)
    ensures r.Some? ==> r.value in friends.value && r.value.id == active.value
  {
    if friends.None? || active.None? then None
    else FirstFriend(friends.value, active.value)
  }

  function FirstFriend(fs: seq<FriendItem>, id: Id): (r: Option<FriendItem>)
    ensures r.Some? <==> exists i :: 0 <= i < |fs| && fs[i].id == id
    ensures r.Some? ==> r.value in fs && r.value.id == id
    ensures r.Some? && fs != [] && fs[0].id == id ==> r.value == fs[0]
  {
    if fs == [] then None
    else if fs[0].id == id then Some(fs[0])
    else
      var r := FirstFriend(fs[1..], id);
      assert forall i :: 1 <= i < |fs| ==> fs[i] == fs[1..][i - 1];
      r
  }

  /** The chat window is shown for a truthy active partner found either
      among the conversations or among the friends. */
  predicate ShowsChat(conversations: Option<seq<ConversationItem>>, friends: Option<seq<FriendItem>>, active: Option<Id>) {
    active.Some? && active.value != ""
      && (SelectedConversation(conversations, active).Some? || FallbackUser(friends, active).Some?)
  }

  /** The chat window opens exactly when the active partner is a non-empty
      id that some conversation or some friend carries. */
  lemma ShowsChatIff(conversations: Option<seq<ConversationItem>>, friends: Option<seq<FriendItem>>, active: Option<Id>)
    ensures ShowsChat(conversations, friends, active) <==>
      active.Some? && active.value != ""
      && ((conversations.Some? && exists i :: 0 <= i < |conversations.value| && conversations.value[i].otherUser.id == active.value)
        || (friends.Some? && exists i :: 0 <= i < |friends.value| && friends.value[i].id == active.value))
  {
  }

  /** The `userName` prop: with a conversation entry, the partner's `name`,
      else `firstName`, else `''`; without one, the friend's `name`. */
  function ChatUserName(selected: Option<ConversationItem>, fallback: Option<FriendItem>): (r: JStr)
    ensures selected.Some? ==> r.Str?
    ensures selected.Some? && Truthy(selected.value.otherUser.name) ==> r == selected.value.otherUser.name
    ensures selected.Some? && !Truthy(selected.value.otherUser.name) && Truthy(selected.value.otherUser.firstName) ==>
      r == selected.value.otherUser.firstName
    ensures selected.Some? && !Truthy(selected.value.otherUser.name) && !Truthy(selected.value.otherUser.firstName) ==>
      r == Str("")
    ensures selected.None? && fallback.Some? ==> r == fallback.value.name
    ensures selected.None? && fallback.None? ==> r == Undefined
  {
    match selected
    case Some(c) =>
      if Truthy(c.otherUser.name) then c.otherUser.name
      else if Truthy(c.otherUser.firstName) then c.otherUser.firstName
      else Str("")
    case None => if fallback.Some? then fallback.value.name else Undefined
  }

  /** The `userAvatar` prop: the partner's `avatarUrl`, else its
      `profilePicture` as it is; without an entry, the friend's `avatarUrl`. */
  function ChatUserAvatar(selected: Option<ConversationItem>, fallback: Option<FriendItem>): (r: JStr)
    ensures selected.Some? && Truthy(selected.value.otherUser.avatarUrl) ==> r == selected.value.otherUser.avatarUrl
    ensures selected.Some? && !Truthy(selected.value.otherUser.avatarUrl) ==> r == selected.value.otherUser.profilePicture
    ensures selected.None? ==> r == if fallback.Some? then fallback.value.avatarUrl else Undefined
  {
    match selected
    case Some(c) => if Truthy(c.otherUser.avatarUrl) then c.otherUser.avatarUrl else c.otherUser.profilePicture
    case None => if fallback.Some? then fallback.value.avatarUrl else Undefined
  }

  /** Whenever the page shows a conversation entry, the chat window's title
      is a string (never `undefined`) and it belongs to the active partner. */
  lemma ChatNameFromActivePartner(conversations: Option<seq<ConversationItem>>, friends: Option<seq<FriendItem>>, active: Option<Id>)
    requires ShowsChat(conversations, friends, active)
    ensures var selected := SelectedConversation(conversations, active);
      var fallback := FallbackUser(friends, active);
      && (selected.Some? ==> ChatUserName(selected, fallback).Str? && selected.value.otherUser.id == active.value)
      && (selected.None? ==>
            fallback.Some? && fallback.value.id == active.value
            && ChatUserName(selected, fallback) == fallback.value.name)
  {
  }
}
