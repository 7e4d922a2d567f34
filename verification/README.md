# familia — a verified model of the social app's core

This project models, in Dafny, the decision logic of *familia*, a small
social network with friends, posts, likes, comments, notifications and
one-to-one chat:

- the Express controllers as state transitions over an abstract relational
  state (users, friendships, posts, likes, comments, messages,
  notifications), with bcrypt and JWT as oracle parameters;
- the Socket.IO router (rooms `user:<id>`, relays, presence broadcasts);
- the request-body schemas, the validation, error, upload and CORS
  middleware;
- the React side's zustand stores (chat, notifications, UI), the TanStack
  Query updaters and keys, and the decision logic of the pages and
  components that consume them (chat window, messages page, navigation
  bar, profile, notifications, registration, settings, post composer).

Everything is immutable data and pure functions. Each controller is a
function `(state, caller, request) -> (response, state')`; each store
action is `state -> state'`; each page handler returns what it sends and
the state it leaves. Tables are sequences in insertion order, so "ordered
by `createdAt`" is table order. Ids of new rows, the outcome of network
calls, and the crypto and format checks are parameters.

Modules: `Js` (JavaScript value conventions and string built-ins), `Seqs`
(filtering and paging), `Domain` (rows, state, responses), one module per
source file, and `Delivery` and `ApiErrors` for properties that span
several files.

## Model

| member | source | states |
|---|---|---|
| ChatStore.PeerOf | frontend/src/stores/chatStore.js:28-31 | the conversation partner is the receiver for a message the current user sent, otherwise the sender |
| ChatStore.AddMessage | frontend/src/stores/chatStore.js:25-54 | the message is appended once to the end of its partner's list (no duplicate check) and no other list changes; the sender's unread counter rises by exactly one iff a current user is given, did not send it and the partner is not the open conversation, else the counters are unchanged |
| ChatStore.AddMessageTwice | frontend/src/stores/chatStore.js:33-38 | adding the same message twice leaves two copies at the end of the partner's list |
| ChatStore.UnreadCountsReceivedMessages | frontend/src/stores/chatStore.js:13-53 | N messages from a peer whose conversation is closed raise its counter by N, and opening the conversation removes the entry |
| ChatStore.SetActiveConversation | frontend/src/stores/chatStore.js:13-19 | opens the conversation and drops its unread entry; other peers' counters and everything else are unchanged |
| ChatStore.SetUnreadCounts | frontend/src/stores/chatStore.js:21-23 | the counters are replaced as a whole; nothing else changes |
| ChatStore.SetMessages | frontend/src/stores/chatStore.js:56-63 | only the named peer's list is replaced |
| ChatStore.SetTyping | frontend/src/stores/chatStore.js:65-72 | sets the flag for one peer, touching no other peer |
| ChatStore.SetTypingLastWriteWins | frontend/src/stores/chatStore.js:65-72 | of two typing events for a peer only the later is visible |
| ChatStore.SetOnlineUsers | frontend/src/stores/chatStore.js:74-76 | the online set holds exactly the listed ids, duplicates collapsed |
| ChatStore.AddOnlineUser | frontend/src/stores/chatStore.js:78-82 | the id becomes a member; other ids are untouched |
| ChatStore.RemoveOnlineUser | frontend/src/stores/chatStore.js:84-90 | the id stops being a member; other ids are untouched |
| ChatStore.AddOnlineUserIdempotent | frontend/src/stores/chatStore.js:78-82 | adding an online user twice equals adding it once |
| ChatStore.ClearChat | frontend/src/stores/chatStore.js:92-98 | resets the open conversation, the lists and the typing map, and keeps the unread counters and the online set |
| ChatStore.PositiveCountsPreserved | frontend/src/stores/chatStore.js:13-98 | the actions keep every stored unread counter at least one |
| ChatWindow.DisplayedList | frontend/src/components/chat/ChatWindow.jsx:28 | the shown list is the store's list for the peer when present (even empty), else the fetched conversation, else empty |
| ChatWindow.Seed | frontend/src/components/chat/ChatWindow.jsx:77-82 | a loaded conversation replaces the peer's stored list; before loading the store is unchanged |
| ChatWindow.SeededWindowShowsConversation | frontend/src/components/chat/ChatWindow.jsx:28-82 | after seeding, the window shows the fetched conversation |
| ChatWindow.OnLiveMessage | frontend/src/components/chat/ChatWindow.jsx:86-91 | a live message enters the store only when it was sent by or to the open peer |
| ChatWindow.OnTypingEvent | frontend/src/components/chat/ChatWindow.jsx:93-97 | a typing event is applied only for the open peer |
| ChatWindow.Keystroke | frontend/src/components/chat/ChatWindow.jsx:129-145 | `typing:start` goes out only on the idle-to-typing transition; every keystroke re-arms the single timer |
| ChatWindow.TimerFires | frontend/src/components/chat/ChatWindow.jsx:140-144 | an expiring timer sends exactly one `typing:stop` and returns to idle |
| ChatWindow.Submit | frontend/src/components/chat/ChatWindow.jsx:148-176 | whitespace-only input sends nothing; otherwise the request is the open peer with the trimmed text; on success the message is relayed and stored, the input cleared, the timer cancelled and `typing:stop` sent; on failure nothing changes |
| ChatWindow.TypingEventsWellNested | frontend/src/components/chat/ChatWindow.jsx:129-176 | over any sequence of keystrokes, expiries and sends, `typing:start` is never sent twice without a `typing:stop` between, and the local flag ends as the peer infers it from the stream |
| ChatWindow.AutoScroll | frontend/src/components/chat/ChatWindow.jsx:56-75 | scrolls iff the list grew and the last message is the user's or the view was following the bottom; the jump is instant only for the user's own message when not following |
| ChatWindow.OnScroll | frontend/src/components/chat/ChatWindow.jsx:35-40 | after a scroll event the view follows the bottom iff the container is gone or less than 120 px from its bottom; the remembered length is kept |
| ChatWindow.OnMessages | frontend/src/components/chat/ChatWindow.jsx:56-75 | the effect scrolls as `AutoScroll` decides from the remembered follow flag and length, then remembers the new length and keeps the flag |
| ChatWindow.ScrollFollowsLastScroll | frontend/src/components/chat/ChatWindow.jsx:35-115 | after a scroll event, a grown list is followed smoothly when the view was within 120 px of the bottom; farther up, only the user's own message scrolls, and then instantly |
| ChatWindow.FirstListScrolls | frontend/src/components/chat/ChatWindow.jsx:21-75 | from the mount state (following, nothing seen) the first non-empty list is scrolled to smoothly |
| ChatWindow.GetInitials | frontend/src/components/chat/ChatWindow.jsx:178-183 | a falsy name gives `U`; two or more words of the trimmed name give their upper-cased first letters; otherwise the upper-cased first two characters |
| ChatWindow.InitialsShape | frontend/src/components/chat/ChatWindow.jsx:178-183 | the initials have one or two characters, each the upper-case form of a character of the name |
| Realtime.RoomNameInjective | backend/src/config/socket.js:43 | different users get different rooms |
| Realtime.RoomRecipients | backend/src/config/socket.js:43-59 | an emission to `user:<u>` reaches exactly the sockets authenticated as `u`, plus the sockets without a user id when `u` is the text "undefined" |
| Realtime.Handshake | backend/src/config/socket.js:22-36 | a missing token or one that fails verification is refused with "Authentication error"; otherwise the socket's user is the token's `userId` |
| Realtime.OnlineIds | backend/src/config/socket.js:46-48 | the snapshot holds every non-empty user id once per socket authenticated as that user (two tabs, two entries), and nothing else |
| Realtime.Connect | backend/src/config/socket.js:39-52 | the new socket joins its own room, receives the online snapshot that includes itself, and every other socket gets `user:online` |
| Realtime.OnEvent | backend/src/config/socket.js:57-82 | `message:send` is relayed unchanged as `message:new` to the receiver's room; typing events go to the receiver's room with the sender's authenticated id; `notification:send` goes to the named user's room |
| Realtime.RelayReachesReceiver | backend/src/config/socket.js:57-60 | a relayed message reaches every socket of the receiver and no socket of anyone else |
| Realtime.Disconnect | backend/src/config/socket.js:86-89 | the socket leaves and every other socket gets `user:offline` |
| Realtime.PresenceNotRefCounted | backend/src/config/socket.js:86-89 | closing one of two tabs of a user still broadcasts that user offline |
| Realtime.GetIO | backend/src/config/socket.js:96-101 | before initialisation `getIO` throws "Socket.IO not initialized" |
| Realtime.SendMessageToUser | backend/src/config/socket.js:111-115 | pushes `message:new` to the user's room, or nothing before initialisation |
| Realtime.SendNotificationToUser | backend/src/config/socket.js:104-108 | pushes `notification:new` to the user's room, or nothing before initialisation |
| Realtime.InboxConcat | backend/src/config/socket.js:59-113 | what a socket receives from two batches of emissions is what it receives from each, in order |
| Delivery.LiveMessagesCount | frontend/src/components/chat/ChatWindow.jsx:86-91 | the chat listener receives each message exactly as often as a `message:new` carrying it reached the socket |
| Delivery.InboxHoldsTwoCopies | backend/src/config/socket.js:57-60 | the controller's push and the client's relay both reach the receiver's socket |
| Delivery.StoreKeepsTwoCopies | frontend/src/stores/chatStore.js:33-38 | one listener adding the same received message twice leaves two copies at the end of the sender's conversation |
| Delivery.Receive | frontend/src/App.jsx:51-54 | each `message:new` is added by the global listener and, while a chat window is open on the sender or receiver, added again by that window's listener (frontend/src/components/chat/ChatWindow.jsx:86-99); no other conversation changes |
| Delivery.ListenersMultiplyCopies | frontend/src/App.jsx:51-54 | two deliveries of a received message leave two copies in the sender's conversation, or four while the receiver has a chat window open on it |
| Delivery.MessageDeliveredTwice | frontend/src/components/chat/ChatWindow.jsx:153-157 | after a successful send from the chat window, the receiver's socket gets `message:new` twice (the controller's push and the relayed `message:send`); one listener stores two copies, and the receiver's listeners together store two, or four while the receiver has the sender's chat open |
| MessageController.SendMessage | backend/src/controllers/message.controller.js:20-92 | the checks in order: oneself 400, unknown receiver 404, not friends 403, and success iff all three pass; on success the message is stored unread and answered 201; the unread "message" notification from the caller to the receiver, reading "<name> sent you a message", is appended after the existing rows iff its insert succeeded; no other table changes; the receiver's room gets `message:new` first and then `notification:new` with that notification only when it was inserted |
| MessageController.GetConversation | backend/src/controllers/message.controller.js:95-154 | 403 iff the two are not friends, success iff they are; then the messages of that conversation from position `skip` (default 0), oldest first, exactly `limit` (default 50) of them or all that remain when fewer do |
| MessageController.ConversationSymmetric | backend/src/controllers/message.controller.js:117-125 | both participants get the same conversation page |
| MessageController.Partners | backend/src/controllers/message.controller.js:192-210 | the partners are exactly those of the scanned messages, each once |
| MessageController.FirstWith | backend/src/controllers/message.controller.js:200-210 | the message found is one exchanged with that partner, and there is none iff no message involves the partner |
| MessageController.FirstWithIsFirst | backend/src/controllers/message.controller.js:200-210 | the message found is the first one exchanged with that partner in scan order: every earlier message involves someone else |
| MessageController.AbsorbGrouped | backend/src/controllers/message.controller.js:195-217 | one step of the walk keeps the entries equal to the grouping by partner of the messages seen so far: order of first appearance, newest message, unread count |
| MessageController.GetConversations | backend/src/controllers/message.controller.js:157-225 | the result is the caller's messages, newest first, grouped by partner: one entry per partner in order of most recent activity, with the newest message and the number of messages to the caller still unread |
| MessageController.DeleteMessage | backend/src/controllers/message.controller.js:228-256 | 404 for an unknown id, 403 when the caller did not send it, and success iff neither applies; on success the answer is "Message deleted successfully", the messages left are exactly those with another id, and no other table changes |
| MessageController.SendThenDelete | backend/src/controllers/message.controller.js:228-252 | a message just sent with a fresh id can be deleted by its sender, which restores the message table |
| NotificationStore.SetNotifications | frontend/src/stores/notificationStore.js:7-13 | the list is stored as given and the counter agrees with it: the unread notifications that are not of type "message" |
| NotificationStore.AddNotification | frontend/src/stores/notificationStore.js:15-23 | the notification is prepended; the counter rises by one iff it is unread and not a message notification, so an accurate counter stays accurate |
| NotificationStore.MarkRead | frontend/src/stores/notificationStore.js:27-29 | every item with the id is marked read in place and every other item is unchanged |
| NotificationStore.MarkAsRead | frontend/src/stores/notificationStore.js:25-32 | marks the items with the id read and lowers the counter by one, never below zero, whether or not the item was counted |
| NotificationStore.MarkReadCount | frontend/src/stores/notificationStore.js:27-30 | marking an id read lowers the true badge count by the number of counted items carrying that id |
| NotificationStore.MarkAsReadAccurate | frontend/src/stores/notificationStore.js:25-32 | marking the one counted item with the id keeps an accurate counter accurate |
| NotificationStore.MarkAsReadUndercounts | frontend/src/stores/notificationStore.js:25-32 | marking an id that is not counted (already read, a message notification, or absent) with a positive counter leaves the counter one below the true count |
| NotificationStore.MarkAllAsRead | frontend/src/stores/notificationStore.js:34-39 | every item is marked read, the list keeps its length and order, and the counter is zero and accurate |
| NotificationStore.Without | frontend/src/stores/notificationStore.js:45 | the remaining items are exactly those with another id |
| NotificationStore.RemoveNotification | frontend/src/stores/notificationStore.js:41-51 | all items with the id go; the counter drops by one (not below zero) iff the first such item is unread, message notifications included |
| NotificationStore.RemoveNotificationAccuracy | frontend/src/stores/notificationStore.js:41-51 | with distinct ids, removal keeps an accurate counter accurate iff it does not remove an unread message notification while the counter is positive |
| NotificationStore.ClearAll | frontend/src/stores/notificationStore.js:53-55 | the list is empty and the counter zero |
| NotificationStore.CountNeverNegative | frontend/src/stores/notificationStore.js:7-55 | from a non-negative counter, no sequence of store actions makes it negative |
| NotificationController.Selected | backend/src/controllers/notification.controller.js:9-13 | the selection is exactly the caller's notifications, restricted to unread ones iff `unreadOnly` is the string "true" |
| NotificationController.GetNotifications | backend/src/controllers/notification.controller.js:4-45 | always 200; the selected notifications newest first from position `skip` (default 0), exactly `limit` (default 20) of them or all that remain when fewer do, all the caller's and unread under the filter; the count is of ALL the caller's unread notifications, independent of filter and page |
| NotificationController.UnreadCountMatchesUnreadList | backend/src/controllers/notification.controller.js:9-36 | asking for the unread notifications with a page that holds them all returns exactly `unreadCount` of them |
| NotificationController.MarkAsRead | backend/src/controllers/notification.controller.js:48-77 | 404 for an unknown id, 403 for another user's notification, both changing nothing, and success iff neither applies; on success the found notification is returned marked read, every row with that id is marked read in place and nothing else changes |
| NotificationController.MarkAsReadReadBack | backend/src/controllers/notification.controller.js:4-77 | after a successful mark the notification is in no page of the caller's unread list |
| NotificationController.MarkAsReadIdempotent | backend/src/controllers/notification.controller.js:48-77 | marking the same notification again gives the same answer and changes nothing more |
| NotificationController.MarkAllAsRead | backend/src/controllers/notification.controller.js:80-98 | every row of the caller becomes the same row marked read, in place; every other row and every other table is unchanged |
| NotificationController.MarkAllAsReadClearsCount | backend/src/controllers/notification.controller.js:80-98 | afterwards the caller's unread count is zero |
| NotificationController.DeleteNotification | backend/src/controllers/notification.controller.js:101-129 | 404 and 403 as for marking, and success iff neither applies; on success the caller's notification existed and the rows left are exactly those with another id |
| NotificationController.DeleteNotificationReadBack | backend/src/controllers/notification.controller.js:4-129 | after a successful delete the notification is in no page of the caller's list and deleting it again answers 404 |
| NotificationController.ClearAll | backend/src/controllers/notification.controller.js:132-144 | the rows left are exactly the other users' notifications; nothing else changes |
| NotificationController.ClearAllEmptiesList | backend/src/controllers/notification.controller.js:132-144 | afterwards the caller's list is empty and the count zero, for any filter and page |
| NotificationController.CreateNotification | backend/src/controllers/notification.controller.js:147-178 | a failed insert is swallowed into `null` with no change; otherwise the unread row with the given fields is appended and returned |
| NotificationController.CreatedNotificationIsNewest | backend/src/controllers/notification.controller.js:147-178 | a notification created for a user is first in that user's unread list |
| Domain.AreFriends | backend/src/controllers/message.controller.js:5-17 | true iff both ids are non-empty and an accepted record links the two in either direction, so it is symmetric |
| Domain.FriendIdsAreFriends | backend/src/controllers/friendship.controller.js:204-237 | for non-empty distinct ids, being listed among a user's friends is the `areFriends` test |
| FriendshipController.SendFriendRequest | backend/src/controllers/friendship.controller.js:5-72 | 400 for oneself, 404 for an unknown user, 400 "You are already friends" or "Friend request already sent" when a record links the two, and success iff none of these; on success one pending record with the caller as requester is appended, answered 201, and a "FRIEND_REQUEST" notification goes to the addressee when its insert succeeds |
| FriendshipController.AcceptFriendRequest | backend/src/controllers/friendship.controller.js:75-127 | 404 for an unknown request, 403 unless the caller is the addressee, 400 when already accepted, all changing nothing, and success iff none applies (a pending request addressed to the caller); on success the record becomes accepted in place and the requester gets a "friend_accept" notification |
| FriendshipController.RejectFriendRequest | backend/src/controllers/friendship.controller.js:130-166 | 404 for an unknown request, 403 unless the caller is the addressee, and success iff neither applies; on success the record is deleted whatever its status, every other record stays, and the requester gets a "friend_reject" notification |
| FriendshipController.Unfriend | backend/src/controllers/friendship.controller.js:169-197 | 404 iff no record links the two, success iff one does; then exactly the first linking record is removed, pending or accepted, and nothing else changes |
| FriendshipController.GetFriends | backend/src/controllers/friendship.controller.js:200-243 | lists exactly the other party of each accepted record of the caller |
| FriendshipController.GetFriendRequests | backend/src/controllers/friendship.controller.js:246-276 | exactly the pending records addressed to the caller, newest first (the reverse of table order), one entry per record |
| FriendshipController.GetFriendshipStatus | backend/src/controllers/friendship.controller.js:279-312 | "self" iff the id is the caller's; null iff no record links the two; otherwise a linking record's status and requester, with exactly one of `isSent` (the caller requested) and `isReceived` (the other user requested) |
| FriendshipController.Excluded | backend/src/controllers/friendship.controller.js:330-335 | the excluded ids are exactly the caller and everyone linked to the caller by any record |
| FriendshipController.GetSuggestedFriends | backend/src/controllers/friendship.controller.js:315-362 | at most `limit` (default 10) users, none the caller or linked to the caller; fewer than the limit only when every such user is listed |
| FriendshipController.SuggestionsAreStrangers | backend/src/controllers/friendship.controller.js:5-362 | every suggested user has no friendship status with the caller, is not among the caller's friends, and can be sent a friend request |
| FriendshipController.RequestKeepsOnePerPair | backend/src/controllers/friendship.controller.js:24-39 | a successful request never creates a second record for a pair of users |
| FriendshipController.AcceptKeepsOnePerPair | backend/src/controllers/friendship.controller.js:98-112 | accepting changes a status only, so the records keep one per pair |
| FriendshipController.OnePerPairPreserved | backend/src/controllers/friendship.controller.js:5-197 | under sequential execution no sequence of requests, accepts, rejects and unfriends creates a second record for a pair |
| PostController.ViewOf | backend/src/controllers/post.controller.js:116-127 | a listed post carries `isLiked` iff the caller liked it, and the numbers of its likes and comments |
| PostController.Authors | backend/src/controllers/post.controller.js:134-151 | a profile listing draws from the requested user only; the feed draws from exactly the caller and the caller's accepted friends |
| PostController.FeedAuthorsAreVisible | backend/src/controllers/post.controller.js:76-151 | for non-empty ids, an author contributes to the feed iff the visibility rule of the profile listing admits them |
| PostController.ListPage | backend/src/controllers/post.controller.js:153-206 | a page holds `take` posts from `skip` newest first (fewer only at the end of the rows), each the view of the matching row, and `hasMore` iff rows remain after it |
| PostController.ListPageHasMore | backend/src/controllers/post.controller.js:131 | with a positive page size, a page reports more rows iff the next page is non-empty |
| PostController.GetPosts | backend/src/controllers/post.controller.js:69-210 | 403 iff a user is named who is neither the caller nor an accepted friend; otherwise 200 with the page of `limit` (default 20) posts starting at `(page - 1) * limit` |
| PostController.HasMoreIffNextPageNonEmpty | backend/src/controllers/post.controller.js:69-210 | with a positive limit, `hasMore` holds iff requesting the next page returns posts |
| PostController.PageSkipIsProduct | backend/src/controllers/post.controller.js:73 | the rows skipped before a page are `(page - 1) * limit`, `limit` for each earlier page |
| PostController.GetPostById | backend/src/controllers/post.controller.js:213-284 | 404 iff the post is missing, 403 iff it exists but the caller is neither its author nor an accepted friend of the author, and no other failure; otherwise the found post, all its comments newest first, and exactly its likes |
| PostController.CreatePost | backend/src/controllers/post.controller.js:19-66 | succeeds iff there is content or an image (an uploaded file taking precedence over the body's URL), else 400 with nothing changed; the new post is the caller's, empty content is stored as null, the media list holds the image when there is one, and only the post table grows |
| PostController.UpdatePost | backend/src/controllers/post.controller.js:287-347 | 404 iff missing, 403 iff someone else's, and no other failure; otherwise content changes only when supplied (null clears it), the media only when a file is uploaded, the stored post read back by id is the returned one, and every other post and table is unchanged |
| PostController.UpdateThenView | backend/src/controllers/post.controller.js:213-347 | the author's update of an existing post succeeds, and afterwards the author's `getPostById` answers the updated post with the comments and likes it had before |
| PostController.DeletePost | backend/src/controllers/post.controller.js:350-375 | 404 iff missing, 403 iff someone else's, and no other failure; otherwise exactly the posts with another id remain and no other table changes |
| PostController.DeleteThenView | backend/src/controllers/post.controller.js:213-375 | after a successful delete every viewer gets 404 for the post and a second delete answers 404 |
| PostController.Notice | backend/src/controllers/post.controller.js:432-443 | a like or comment by someone other than the author appends one unread notification for the author; the author's own action adds none |
| PostController.ToggleLike | backend/src/controllers/post.controller.js:378-450 | 404 iff missing, 403 iff not visible, and no other failure; an existing like of the caller is removed ("Post unliked", false), otherwise one is appended ("Post liked", true) and the author is notified |
| PostController.ToggleLikeFlips | backend/src/controllers/post.controller.js:378-450 | with unique likes and a fresh id, a successful toggle flips whether the caller likes the post, reports the new state, and keeps at most one like per post and user |
| PostController.ToggleTwiceRestores | backend/src/controllers/post.controller.js:378-450 | two successful toggles restore whether the caller likes the post, and starting from no like they restore the like table |
| PostController.AddComment | backend/src/controllers/post.controller.js:453-519 | 400 iff the content is empty (checked first), then 404 iff missing, then 403 iff not visible, and no other failure; otherwise the comment is appended, answered 201, and the author (when not the caller) gets a "comment" notification |
| PostController.AddCommentThenList | backend/src/controllers/post.controller.js:453-560 | after a successful comment, the author's first page of comments starts with it and the post has one comment more |
| PostController.GetComments | backend/src/controllers/post.controller.js:522-538 | 404 iff the post is missing, 403 iff the caller may not see it, and these are the only failures; otherwise 200 |
| PostController.CommentsNewestFirst | backend/src/controllers/post.controller.js:540-560 | a visible post's answer holds its comments newest first, starting `skip` (default 0) from the newest, exactly `limit` (default 20) of them or all that remain when fewer do |
| PostController.SameVisibilityRule | backend/src/controllers/post.controller.js:213-564 | viewing a post, listing its comments, liking it and commenting on it are refused with 403 for exactly the same callers |
| UserController.ProfileOf | backend/src/controllers/user.controller.js:40-51 | the own profile carries the selected fields of the row, email included |
| UserController.PublicOf | backend/src/controllers/user.controller.js:70-88 | another user's profile carries the public fields and the numbers of that user's posts, sent and received friendship records |
| UserController.ProfileHidesPassword | backend/src/controllers/user.controller.js:36-95 | for every database, neither profile depends on the stored password |
| UserController.GetMyProfile | backend/src/controllers/user.controller.js:36-62 | 404 iff the caller's row is gone, success iff it exists; then the caller's own profile |
| UserController.GetUserById | backend/src/controllers/user.controller.js:65-99 | 404 iff the id is unknown, success iff it is known; then that user's public profile |
| UserController.Image | backend/src/controllers/user.controller.js:129-130 | an uploaded file wins, else a truthy body URL, else the stored value |
| UserController.Merge | backend/src/controllers/user.controller.js:120-131 | name and username change only when truthy; bio, location and website change whenever supplied, null clearing them; each image is the truthy upload, else the truthy body URL, else unchanged; id, email and password never change |
| UserController.MergeNothing | backend/src/controllers/user.controller.js:120-131 | an empty body without uploads changes nothing |
| UserController.UpdateMyProfile | backend/src/controllers/user.controller.js:102-151 | 400 "Username already taken" iff a truthy username is held by someone else's row, found by the lookup; success iff neither that nor a missing caller row; failures change nothing; success merges into the caller's row only and returns the merged profile |
| UserController.UsernameTakenIffOtherHolder | backend/src/controllers/user.controller.js:111-118 | with unique usernames, the check refuses exactly the usernames another user holds; keeping one's own is allowed |
| UserController.FindByUsernameUnique | backend/src/controllers/user.controller.js:112-114 | with unique usernames, the lookup finds the one holder |
| UserController.MergeRowsUnique | backend/src/controllers/user.controller.js:120-131 | merging keeps ids and usernames unique when the new username is free or the caller's own |
| UserController.UpdateKeepsUsersUnique | backend/src/controllers/user.controller.js:102-151 | a profile update keeps ids and usernames unique |
| UserController.UpdatePassword | backend/src/controllers/user.controller.js:154-182 | a missing caller row fails with the null-read error, a current password that does not match answers 400 "Current password is incorrect", both changing nothing, and success iff the row exists and the password matches; then only the caller's stored hash changes, to the hash of the new password |
| UserController.PasswordChangeReadBack | backend/src/controllers/user.controller.js:154-182 | a matching current password makes the change succeed; afterwards the new password is the one accepted next time, and the caller's profile reads as before |
| PostsApi.NextPageParam | frontend/src/api/posts.js:51-56 | a next page exists iff the last page says `hasMore`, and it is the page after those loaded |
| PostsApi.FetchPage | frontend/src/api/posts.js:6-9 | the stored page carries as many posts as the server answers for that page with limit 10, and the server's `hasMore` |
| PostsApi.NextPageParamFollowsServer | frontend/src/api/posts.js:47-59 | after `n` pages loaded, the client asks for page `n + 1` iff fetching that page yields posts, so scrolling to the end reaches the whole feed |
| PostsApi.FlipPost | frontend/src/api/posts.js:100-106 | the post with the id has `isLiked` negated and `likesCount` moved by one in the matching direction; every other post is unchanged |
| PostsApi.FlipPage | frontend/src/api/posts.js:97-108 | a page keeps its `hasMore`; a page without posts is kept as it is |
| PostsApi.ToggleInCache | frontend/src/api/posts.js:92-110 | an absent cache stays absent; otherwise page parameters and page order are kept and every page is flipped |
| PostsApi.FlipPostsTwice | frontend/src/api/posts.js:99-107 | flipping a post list twice restores it |
| PostsApi.FlipPagesTwice | frontend/src/api/posts.js:97-108 | flipping the pages twice restores them |
| PostsApi.ToggleInCacheTwice | frontend/src/api/posts.js:92-110 | the optimistic toggle is an involution on the cache |
| PostsApi.AfterLikeMutation | frontend/src/api/posts.js:80-119 | a successful like keeps the optimistic cache (nothing is refetched) and a failure restores the snapshot |
| PostsApi.OptimisticToggleAgrees | frontend/src/api/posts.js:99-106 | with unique likes and a fresh id, the optimistic `isLiked` of a post equals what the server reports after a successful toggle |
| FriendsApi.RemoveRequest | frontend/src/api/friends.js:99-102 | an absent cache stays absent; otherwise exactly the requests with another id remain |
| FriendsApi.RemoveRequestSnoc | frontend/src/api/friends.js:99-102 | the removal keeps the remaining requests in their order and number: an empty list stays empty, and each further request is kept at the end exactly when its id is another |
| FriendsApi.RemoveRequestIdempotent | frontend/src/api/friends.js:99-102 | removing the same request twice equals removing it once |
| FriendsApi.AfterMutation | frontend/src/api/friends.js:88-144 | a successful accept or reject keeps the optimistic list; a failure restores the snapshot |
| FriendsApi.PendingAfterAccept | frontend/src/api/friends.js:99-102 | accepting a request changes the pending records addressed to a user exactly by removing that request |
| FriendsApi.OptimisticAcceptAgrees | frontend/src/api/friends.js:88-118 | after a successful accept, the refetched request list equals the optimistic one |
| FriendsApi.OptimisticRejectAgrees | frontend/src/api/friends.js:120-144 | after a successful reject, the refetched request list equals the optimistic one |
| FriendsApi.StatusQueryEnabledIff | frontend/src/api/friends.js:61-67 | the status query runs iff the id is a non-empty string |
| NotificationsApi.NormalizeItem | frontend/src/api/notifications.js:46-49 | `read` becomes `read ?? isRead ?? false`, every other field is kept, and neither the unread status nor the badge status changes |
| NotificationsApi.Normalize | frontend/src/api/notifications.js:46-49 | the list keeps its length and order and every item is normalised |
| NotificationsApi.NormalizeKeepsBadgeCount | frontend/src/api/notifications.js:43-52 | normalising the fetched list does not change the badge count the store computes |
| NotificationsApi.NormalizeIdempotent | frontend/src/api/notifications.js:46-49 | normalising twice equals normalising once |
| NotificationsApi.Sync | frontend/src/api/notifications.js:43-52 | the store is replaced by the normalised list iff the body carries a `notifications` array; otherwise it is unchanged |
| NotificationsApi.Result | frontend/src/api/notifications.js:54-58 | the hook returns the raw list or `[]`, and the server's count or 0 |
| MessagesPage.UnreadCounts | frontend/src/pages/Messages.jsx:18-28 | the counters have a key exactly for the partners of entries with a positive count, and every counter is at least one |
| MessagesPage.UnreadCountsOfDistinct | frontend/src/pages/Messages.jsx:20-25 | when no partner appears twice, each entry with a positive count keeps its own count and the others get no key |
| MessagesPage.SyncUnread | frontend/src/pages/Messages.jsx:18-28 | before the conversations load the store is unchanged; afterwards its counters are replaced by those built from the entries |
| MessagesPage.SyncKeepsCountsPositive | frontend/src/pages/Messages.jsx:18-28 | syncing keeps every stored counter at least one |
| MessagesPage.SelectedConversation | frontend/src/pages/Messages.jsx:30-32 | an entry is selected iff the list is loaded, a partner is active and some entry's partner has that id, and it is the first such entry |
| MessagesPage.FallbackUser | frontend/src/pages/Messages.jsx:33 | a friend is found iff the list is loaded, a partner is active and a friend has that id |
| MessagesPage.ShowsChatIff | frontend/src/pages/Messages.jsx:94 | the chat window opens iff the active partner is a non-empty id found among the conversation entries or the friends |
| MessagesPage.ChatUserName | frontend/src/pages/Messages.jsx:97-101 | with an entry, the partner's name, else its first name, else the empty string; without one, the friend's name or `undefined` |
| MessagesPage.ChatUserAvatar | frontend/src/pages/Messages.jsx:102-106 | with an entry, the partner's `avatarUrl` if truthy, else its `profilePicture`; without one, the friend's `avatarUrl` or `undefined` |
| MessagesPage.ChatNameFromActivePartner | frontend/src/pages/Messages.jsx:94-107 | whenever the chat window shows, its title is a string of the active partner's entry or friend row |
| Navbar.TotalUnreadAtLeastPartners | frontend/src/components/layout/Navbar.jsx:26-27 | with every counter at least one, the total is at least the number of partners |
| Navbar.MessageBadgeIff | frontend/src/components/layout/Navbar.jsx:173 | with positive counters, the messages badge shows iff some partner has unread messages |
| Navbar.MessageBadgeAfterSync | frontend/src/components/layout/Navbar.jsx:26-27 | after the messages page syncs, the badge shows iff some conversation has a positive unread count |
| Navbar.Type | frontend/src/components/layout/Navbar.jsx:112-115 | typing sets the query and opens the dropdown |
| Navbar.Focus | frontend/src/components/layout/Navbar.jsx:116 | focusing opens the dropdown and keeps the query |
| Navbar.Blur | frontend/src/components/layout/Navbar.jsx:117 | the delayed blur closes the dropdown and keeps the query |
| Navbar.ChooseResult | frontend/src/components/layout/Navbar.jsx:129-133 | choosing a result navigates to `/profile/<id>` and resets the search box |
| Navbar.DropdownFollowsSearch | frontend/src/components/layout/Navbar.jsx:122 | the dropdown shows only for a query the search hook runs for; never after a choice or a blur; after typing iff the query has two or more characters and results exist |
| Navbar.InitialsAsWritten | frontend/src/components/layout/Navbar.jsx:33-40 | a falsy name gives `U`; a name with no space gives its first two characters upper-cased; otherwise the first characters of the first two space-separated pieces, where an empty piece contributes "undefined" |
| Navbar.SpaceSplits | frontend/src/components/layout/Navbar.jsx:35-36 | a name splits into two or more pieces iff it holds a space |
| Navbar.TrailingSpaceInitials | frontend/src/components/layout/Navbar.jsx:33-40 | any one-word name followed by a space gets its first letter and the text `undefined`, upper-cased: ten characters instead of at most two ("Ann " gives "AUNDEFINED") |
| Navbar.Initials | frontend/src/components/layout/Navbar.jsx:33-40 | the corrected initials: one or two characters, each the upper-case form of a character of the name, and `U` for a falsy name |
| Navbar.InitialsAgreeOnTwoWords | frontend/src/components/layout/Navbar.jsx:33-40 | for two non-empty words without whitespace joined by one space, the corrected and the written initials agree |
| ProfilePage.FriendsCount | frontend/src/pages/Profile.jsx:49-51 | without counts 0; otherwise the sent and received record counts added, each defaulting to 0 |
| ProfilePage.FriendsCountIsRecords | frontend/src/pages/Profile.jsx:49-51 | for a fetched profile the count shown is the number of friendship records the user is a party to, pending requests included |
| ProfilePage.HandleFriendAction | frontend/src/pages/Profile.jsx:34-42 | a request is sent iff there is no record; an unfriend iff the record is accepted and the user confirms; both to the route's user; nothing otherwise |
| ProfilePage.ButtonFor | frontend/src/pages/Profile.jsx:104-126 | the edit button iff it is one's own profile; otherwise Add Friend iff no record, Request Sent iff a pending record, Unfriend iff an accepted one |
| ProfilePage.ButtonFollowsRecord | frontend/src/pages/Profile.jsx:104-126 | against the server's status, the button follows the record between the two users, so a request the viewer received also shows as Request Sent |
| ProfilePage.ButtonActionsSucceed | frontend/src/pages/Profile.jsx:34-42 | Add Friend for an existing user makes the server create the request; a confirmed Unfriend makes it remove the record |
| ProfilePage.AllPosts | frontend/src/pages/Profile.jsx:44-46 | the flattened list holds exactly the posts of the loaded pages |
| ProfilePage.UserPosts | frontend/src/pages/Profile.jsx:44-46 | without loaded data the list is empty; otherwise it holds exactly the loaded posts whose author is the route's user |
| NotificationsPage.IconFor | frontend/src/pages/Notifications.jsx:11-19 | the heart iff the lower-cased type is "like", the comment bubble iff "comment", the add-user icon iff "friend_request", else the bell |
| NotificationsPage.LowerOfUpper | frontend/src/pages/Notifications.jsx:12 | lower-casing forgets an earlier upper-casing |
| NotificationsPage.IconIgnoresCase | frontend/src/pages/Notifications.jsx:11-19 | the icon does not depend on the type's letter case |
| NotificationsPage.PostTypesIcons | frontend/src/pages/Notifications.jsx:13-16 | likes and comments get their icons |
| NotificationsPage.FriendRequestTypeIcon | frontend/src/pages/Notifications.jsx:11-19 | the server's "FRIEND_REQUEST" type gets the add-user icon |
| NotificationsPage.FriendAcceptTypeBell | frontend/src/pages/Notifications.jsx:11-19 | "friend_accept" notifications get the bell |
| NotificationsPage.FriendRejectTypeBell | frontend/src/pages/Notifications.jsx:11-19 | "friend_reject" notifications get the bell |
| NotificationsPage.MessageTypeBell | frontend/src/pages/Notifications.jsx:11-19 | "message" notifications get the bell |
| NotificationsPage.LinkFor | frontend/src/pages/Notifications.jsx:85-92 | the post's page when there is a post id, else the sender's profile when there is a sender, else `#` |
| NotificationsPage.LinkChoice | frontend/src/pages/Notifications.jsx:85-92 | the link is `#` iff there is neither a post nor a sender, and starts with `/post/` whenever a post is named |
| NotificationsPage.ClickMarks | frontend/src/pages/Notifications.jsx:35-39 | a click marks the notification read iff its `read` flag is not true, and marks exactly its id |
| NotificationsPage.ClickAgreesWithStore | frontend/src/pages/Notifications.jsx:35-39 | on normalised items the click rule and the store's unread rule agree; on raw items they agree iff `read` is present or `isRead` is not true |
| NotificationsPage.HeaderButtons | frontend/src/pages/Notifications.jsx:62-71 | Mark-all never shows without Clear-all, a list of read items shows no Mark-all, and before loading there is no Clear-all |
| NotificationsPage.ClearAllRequests | frontend/src/pages/Notifications.jsx:47-54 | one delete request per listed notification, in list order |
| NotificationsPage.ClearAll | frontend/src/pages/Notifications.jsx:47-54 | the delete requests go out and the store ends empty with a zero counter |
| UiStore.ToggleSidebar | frontend/src/stores/uiStore.js:12-14 | negates the sidebar flag and nothing else |
| UiStore.ToggleSidebarTwice | frontend/src/stores/uiStore.js:12-14 | two toggles restore the state |
| UiStore.SetSidebarCollapsed | frontend/src/stores/uiStore.js:16 | sets the flag and nothing else |
| UiStore.SetTheme | frontend/src/stores/uiStore.js:18-25 | sets the theme to the given text and nothing else |
| UiStore.ToggleTheme | frontend/src/stores/uiStore.js:27-35 | "light" becomes "dark" and anything else "light"; nothing else changes |
| UiStore.ToggleThemeTwice | frontend/src/stores/uiStore.js:27-35 | two toggles restore the theme iff it was "light" or "dark"; any other theme ends as "dark" |
| UiStore.SetLoading | frontend/src/stores/uiStore.js:37 | sets the loading flag and nothing else |
| UiStore.OpenModal | frontend/src/stores/uiStore.js:39-41 | the named modal is open and every other modal's entry is unchanged |
| UiStore.CloseModal | frontend/src/stores/uiStore.js:43-45 | the named modal has an entry and is closed; every other entry is unchanged |
| UiStore.ToggleModal | frontend/src/stores/uiStore.js:47-49 | the named modal is open iff it was not (a missing entry opens); every other entry is unchanged |
| UiStore.ToggleModalTwice | frontend/src/stores/uiStore.js:47-49 | two toggles restore whether every modal is open |
| QueryClient.Retry | frontend/src/lib/queryClient.js:6-13 | never after a 401; otherwise iff no failure has been retried yet |
| QueryClient.AtMostOneRetry | frontend/src/lib/queryClient.js:6-13 | a failing query is retried at most once, not at all after a 401, and exactly once when the first failure is not a 401 and there is a second attempt |
| QueryClient.PostsQueryIsPrefix | frontend/src/lib/queryClient.js:29 | the predicate on the first key element selects exactly the keys `posts.all` covers |
| QueryClient.PostsKeysCovered | frontend/src/lib/queryClient.js:28-38 | every posts key is covered by `posts.all`, and user and friend keys are not |
| QueryClient.FriendsKeysCovered | frontend/src/lib/queryClient.js:39-44 | every friends key is covered by `friends.all`; the status predicate selects status keys and no other friends key; posts and user keys are not covered |
| Schemas.CheckString | backend/src/validations/auth.validation.js:7-15 | one string field passes iff it meets its rule: present when required, a string (or an allowed `null`/`""`), within its length bounds, and of the right format; a failure names that field, and an absent required field is reported as required |
| Schemas.CheckSame | backend/src/validations/auth.validation.js:33-39 | the confirmation passes iff it is present and equal to the referenced field; otherwise it is reported as required when absent and as not matching when present |
| Schemas.CheckOr | backend/src/validations/post.validation.js:19 | the `or` rule passes iff at least one of the peer keys is present |
| Schemas.Register | backend/src/validations/auth.validation.js:6-48 | a body passes iff the name has 2 to 15 characters, the email is a well-formed address, the password has at least 6 characters, the confirmation repeats it, an optional bio is a string of at most 200 characters, and no other key is present |
| Schemas.Login | backend/src/validations/auth.validation.js:53-67 | a body passes iff it has a well-formed email and a non-empty password, and nothing else |
| Schemas.UpdateProfile | backend/src/validations/user.validation.js:7-40 | a body passes iff each known field is absent, null or within its rule (name 2 to 50; username empty or 2 to 50; bio up to 200; location up to 100; the three links empty or URIs); unknown keys never fail it |
| Schemas.UpdatePassword | backend/src/validations/user.validation.js:45-59 | a body passes iff the current password is non-empty, the new one has at least 6 characters, and nothing else is present |
| Schemas.CreatePost | backend/src/validations/post.validation.js:7-19 | a body passes iff content is absent, null or at most 5000 characters, image is absent, null or a URI, no other key is present, and at least one of the two keys is present |
| Schemas.UpdatePost | backend/src/validations/post.validation.js:25-34 | a body passes iff its content, when present, is a string of 1 to 5000 characters, and nothing else is present |
| Schemas.AddComment | backend/src/validations/post.validation.js:39-49 | a body passes iff its content has 1 to 500 characters and nothing else is present |
| Schemas.SendMessage | backend/src/validations/message.validation.js:6-22 | a body passes iff the receiver id is non-empty, the content has 1 to 1000 characters, and nothing else is present |
| Middleware.ValidateRequest | backend/src/middleware/validation.js:4-17 | the request goes on iff the schema finds no problem; otherwise 400 "Validation failed" with the one detail found |
| Middleware.ValidateSendMessage | backend/src/middleware/validation.js:4-17 | the message route lets a body through iff the receiver id is non-empty, the content has 1 to 1000 characters, and no other key is present |
| Middleware.RequireFields | backend/src/middleware/validation.js:22-35 | the request goes on iff every listed field is present and truthy; otherwise 400 listing exactly the missing or falsy fields, in argument order |
| Middleware.RequireFieldsCases | backend/src/middleware/validation.js:22-35 | an empty list always passes, and a field holding 0, `""`, `false` or `null` is reported as missing |
| Middleware.FirstTarget | backend/src/middleware/errorHandler.js:8 | the first target field when the list is present and non-empty, `undefined` otherwise |
| Middleware.ErrorHandler | backend/src/middleware/errorHandler.js:2-21 | it always answers: P2002 is 409 naming the first target field, P2025 is 404, and anything else carries the error's own non-zero status (else 500) and its non-empty message (else a fixed text) |
| Middleware.PlainErrorIs500 | backend/src/middleware/errorHandler.js:18-20 | a plain error with a message and no code or status is answered 500 with that message |
| Middleware.NotFound | backend/src/middleware/errorHandler.js:23-28 | every unmatched route is answered 404 "Route not found" with the requested path |
| Middleware.FileFilter | backend/src/middleware/upload.middleware.js:32-38 | a file is taken iff its MIME type starts with `image/`; any other file is refused with a fixed error |
| Middleware.HandleUploadError | backend/src/middleware/upload.middleware.js:65-84 | the request goes on iff there was no error; a too-large file gets a fixed text, any other error its own message, always with 400 and a `message` key |
| Middleware.UploadFilterAnswer | backend/src/middleware/upload.middleware.js:32-84 | through the filter and the error mapper, an upload goes on iff it is an image, and a non-image is answered 400 with the filter's text |
| Cors.AllowedOrigins | backend/src/app.js:20-28 | the list holds exactly the four local development origins, the deployed origin and whichever of the two variables are set and non-empty; no entry is empty; the fixed ones keep their places |
| Cors.Decide | backend/src/app.js:31-49 | an origin is admitted iff it is absent, or it is local outside production, or it is in the allowed list; a refusal carries "Not allowed by CORS" |
| Cors.ProductionLocalhost | backend/src/app.js:36-44 | in production a local origin is admitted iff it is listed exactly |
| Cors.ProductionPorts | backend/src/app.js:20-49 | in production with neither variable set, the Vite port is admitted and another local port is refused |
| Cors.DevelopmentAdmitsLocal | backend/src/app.js:36-40 | outside production every local origin is admitted, listed or not |
| Cors.RefusalAnswer | backend/src/middleware/errorHandler.js:18-20 | a refused origin reaches the error handler as a plain error and is answered 500 with the refusal's text |
| ApiErrors.ShownAsWritten | frontend/src/pages/Settings.jsx:126-129 | the text shown differs from the fallback only when the answer's body carries a `message` key, and then it is that message |
| ApiErrors.ServerReasonHidden | frontend/src/pages/Settings.jsx:126-129 | every controller failure, and every middleware answer other than the upload mapper's, shows only the fallback, whatever reason the server gave |
| ApiErrors.Shown | frontend/src/pages/Settings.jsx:126-129 | the corrected text: the body's `message` when filled, else its `error` when filled, else the fallback |
| ApiErrors.ShownServerReason | backend/src/controllers/user.controller.js:164-167 | the corrected reading shows a controller's own reason, agrees with the written one whenever there is a message, and falls back when there is no answer |
| SettingsPage.ChangeProfile | frontend/src/pages/Settings.jsx:46-51 | the changed input takes the new value and every other input keeps its own |
| SettingsPage.ChangePassword | frontend/src/pages/Settings.jsx:53-58 | the changed input takes the new value and every other input keeps its own |
| SettingsPage.ChangeBack | frontend/src/pages/Settings.jsx:53-58 | changing an input back to its old value restores the form |
| SettingsPage.PasswordCheck | frontend/src/pages/Settings.jsx:104-112 | a mismatched confirmation is reported first, then a new password under 6 characters; the form passes iff the confirmation matches and the new password has at least 6 characters |
| SettingsPage.PasswordSubmit | frontend/src/pages/Settings.jsx:100-131 | a request is sent iff the client checks pass, carrying the current and new passwords; a success shows the success banner and clears the form; a failure keeps the form and shows the answer's `message`, else "Failed to update password" |
| SettingsPage.PasswordSubmitIntended | frontend/src/pages/Settings.jsx:100-131 | the corrected submit: the same flow, but a failure shows the server's reason, its `message` else its `error`, and the fallback only without an answer |
| SettingsPage.SentBodyValidates | frontend/src/pages/Settings.jsx:114-118 | every body the page sends meets the server's new-password rule, so the route refuses it iff the current password is empty |
| SettingsPage.WrongCurrentPassword | backend/src/controllers/user.controller.js:164-167 | a wrong current password is answered 400 with its reason; the page as written shows only "Failed to update password", the corrected page shows the reason |
| RegisterPage.ClientError | frontend/src/pages/Register.jsx:30-49 | the first failing check in order (fields filled, confirmation matches, password of 6, name of 2 to 15) gives the error; the form passes iff the email is filled, the confirmation matches, the password has at least 6 characters and the name 2 to 15 |
| RegisterPage.EmptyConfirmIsMismatch | frontend/src/pages/Register.jsx:30-39 | an empty confirmation under a filled password is reported as a mismatch, not as a missing field |
| RegisterPage.ClientAgreesWithServer | frontend/src/pages/Register.jsx:30-57 | for every email the server accepts as an address, the page sends a form iff the server's schema accepts its body |
| RegisterPage.Submit | frontend/src/pages/Register.jsx:26-61 | a form is sent iff the client checks pass, with its four fields unchanged; otherwise the check's text is shown; a rejection shows the answer's `message`, else "Registration failed. Please try again."; a success leaves no error |
| RegisterPage.SubmitIntended | frontend/src/pages/Register.jsx:26-61 | the corrected submit: the same flow, but a rejection shows the server's reason, its `message` else its `error`, and the fallback only without an answer |
| RegisterPage.RejectedEmailShown | frontend/src/pages/Register.jsx:51-60 | a form that passes the client checks with an address the server refuses is answered 400 "Validation failed"; the corrected page shows that text, the page as written only its fallback |
| CreatePost.SelectImage | frontend/src/components/feed/CreatePost.jsx:31-41 | a chosen file replaces the selection and closing the picker without a file changes nothing |
| CreatePost.RemoveImage | frontend/src/components/feed/CreatePost.jsx:43-49 | the selection is cleared and the text and upload flag are kept |
| CreatePost.Submit | frontend/src/components/feed/CreatePost.jsx:51-81 | with nothing to post nothing happens; a request is sent iff there is something to post and any chosen file was uploaded, carrying the trimmed text and the upload's URL or null; a success clears the composer, every other attempt keeps it with an error toast; the upload flag ends down |
| CreatePost.EnabledButtonSubmits | frontend/src/components/feed/CreatePost.jsx:145 | pressing the enabled Post button always ends in a toast with the upload flag down |
| CreatePost.SentPostIsCreated | backend/src/controllers/post.controller.js:19-66 | every post the composer sends with a non-empty image URL is created by the server's `createPost` |
| CreatePost.SentPostValidates | backend/src/validations/post.validation.js:7-19 | the sent body passes the create schema iff its text has at most 5000 characters and its image, if any, is a URI |
| CreatePost.FirstName | frontend/src/components/feed/CreatePost.jsx:83 | without a name the greeting says "there"; any other word shown is a space-free prefix of the name |
| CreatePost.FirstNameWord | frontend/src/components/feed/CreatePost.jsx:83 | a name starting with a space gets "there"; otherwise the greeting is the name up to its first space |

## Left out

- Prisma's query engine: tables are sequences with sequential semantics; `include`/`select` response shapes are abstracted to the fields the decisions read; delete cascades and the case-insensitive user search (`getUsers`) are not modelled.
- Concurrency: check-then-write races between requests and Socket.IO's concurrent delivery; every operation is one sequential step.
- bcrypt and JWT are oracle parameters (`matches`, `hash`, token verification); `backend/src/controllers/auth.controller.js` is a thin wrapper over them and is not part of this model, nor is `deleteMyAccount`.
- Joi internals: the email and URI grammars are the `Formats` oracle; the per-rule message texts are not modelled, only which field and rule fail; string length is the length of a character sequence, not of UTF-16 code units.
- RegisterPage.ClientError and SettingsPage.PasswordCheck: the pages' own `length` checks (frontend/src/pages/Register.jsx:41,46 and frontend/src/pages/Settings.jsx:109) count UTF-16 code units in the source and characters in the model, so a name or password with characters outside the Basic Multilingual Plane (an emoji counts 2 in JavaScript) can pass a bound in one and fail it in the other; strings have no encoding here.
- `frontend/src/lib/socket.js` (its `on` registers each listener with the socket, no de-duplication), `frontend/src/App.jsx` listener wiring other than the `message:new` listener in `Delivery.Receive`, `frontend/src/stores/authStore.js`, `frontend/src/lib/axios.js` and `frontend/src/lib/cloudinary.js` are not part of this model; upload results and mutation outcomes are parameters.
- Real time: ChatWindow's 2500 ms timer is an abstract "timer fires" event; scroll metrics are integer inputs; date formatting is not modelled.
- The `uiStore` theme actions' DOM side effects (document class list) are not modelled; only the stored theme is.
- TanStack Query caching, refetching and invalidation semantics beyond the pure updaters and key shapes; `staleTime` (300000 ms) and the mutation `retry: 0` setting are constants of `QueryClient` with no behaviour attached.
- The `getInitials` copies in CreatePost.jsx, Profile.jsx, Notifications.jsx and the presentation-only components are not modelled again; Navbar's and ChatWindow's versions are.
- The profile form submit in Settings.jsx (`handleProfileSubmit`) and the image preview (`FileReader`) are not modelled; the profile update itself is `UserController.UpdateMyProfile`.
- Multer's own size-limit enforcement (5 MiB per file) is not modelled: an oversized file reaches `Middleware.HandleUploadError` as a `LIMIT_FILE_SIZE` error; the Cloudinary storage parameters are left out.
- The 500 answers of the controllers' `catch` blocks are modelled only where a modelled oracle can fail; database failures are not.
- GetPosts: a `page` of 0, and NaN or negative `page`/`limit` query parameters, are not modelled: `page` is a natural number from 1 (`PostController.PageNo`) and `limit` a natural number. With `page=0` and a positive limit the source computes a negative `skip` (backend/src/controllers/post.controller.js:73), the database client rejects it and the catch block answers 500 with the client's own message, which the model has no text for.
- GetConversation: `limit` and `skip` are natural numbers or absent in the model, while the source passes `parseInt` of the raw query strings to the database client (backend/src/controllers/message.controller.js:125-126); a negative `limit` there takes rows from the other end of the ordering, and a NaN `limit` or a negative or NaN `skip` makes the client throw, which the catch block answers with 500. None of these inputs can be expressed here.
- GetNotifications: the same gap for its `limit` and `skip` (backend/src/controllers/notification.controller.js:23-24): a negative `limit` reads from the other end, a NaN `limit` or a negative or NaN `skip` ends in 500; the model takes natural numbers only.
- GetComments and CommentsNewestFirst: the same gap for the comment listing's `limit` and `skip` (backend/src/controllers/post.controller.js:542-543); the model takes natural numbers only.
- GetSuggestedFriends: the same gap for its `limit` (backend/src/controllers/friendship.controller.js:348): a negative value takes users from the end of the table and a NaN value ends in 500; the model takes a natural number or the default 10.
- ChatWindow.GetInitials, Navbar.InitialsAsWritten and Navbar.DropdownFollowsSearch: the model indexes and measures strings by character, while JavaScript's `[0]`, `substring(0, 2)` and `length` work on UTF-16 code units (frontend/src/components/chat/ChatWindow.jsx:181-182, frontend/src/components/layout/Navbar.jsx:37,39,122 and frontend/src/api/users.js:81). For a name starting with a character outside the Basic Multilingual Plane, such as "😀 Bob", the source's initials begin with a lone high surrogate where the model's begin with the whole character, and a one-emoji search query (length 2 in JavaScript) opens the dropdown and enables the search in the source but not in the model.
- The Socket.IO server's own CORS list is not modelled; the HTTP origin decision is `Cors.Decide`.
- Routes (`backend/src/routes/*.js`) and `server.js` only compose middleware and are not modelled as such; the lemmas that chain a validator with a controller stand for the routes they relate.
- Navbar.TotalUnreadAtLeastPartners: the total is stated over the map's values (a ghost sum, in no particular order), not as the page's `Object.values(...).reduce` in insertion order; integer addition makes the order irrelevant.
- Lower-casing and upper-casing are ASCII-only (`Js.Lower`, `Js.Upper`); the type names and initials the pages handle are ASCII in practice.

## Findings

| source | as written | input that shows it | evidently intended | confidence | as-written member | corrected member |
|---|---|---|---|---|---|---|
| frontend/src/components/layout/Navbar.jsx:33-40 | `getInitials` splits the name on single spaces, so a trailing or doubled space yields an empty second part whose first character is `undefined` | the name "Ann " gives "AUNDEFINED" | the two initials of the first two words, as ChatWindow.jsx computes them after trimming and splitting on runs of whitespace | high, not executed | Navbar.InitialsAsWritten, Navbar.TrailingSpaceInitials | Navbar.Initials, Navbar.InitialsAgreeOnTwoWords |
| frontend/src/pages/Settings.jsx:126-129 | the settings and registration pages show `error.response.data.message`, but every controller and validation failure puts its reason under `error`, so only the fixed fallback text appears | a wrong current password: the server answers 400 "Current password is incorrect" and the page shows "Failed to update password" | show the server's reason: `message` when present, else `error`, else the fallback | medium (frontend/src/lib/axios.js is not part of this model), not executed | ApiErrors.ShownAsWritten, ApiErrors.ServerReasonHidden, SettingsPage.PasswordSubmit, RegisterPage.Submit, SettingsPage.WrongCurrentPassword | ApiErrors.Shown, ApiErrors.ShownServerReason, SettingsPage.PasswordSubmitIntended, RegisterPage.SubmitIntended |
