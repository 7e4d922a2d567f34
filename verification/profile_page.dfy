/** The profile page (frontend/src/pages/Profile.jsx): whose profile it is,
    the friend count it shows, the friend button and its action, and the
    posts it lists. */
module ProfilePage {
  import opened Js
  import opened Seqs
  import opened Domain
  import FriendshipController
  import UserController
  import PostsApi

  /** `currentUser?.id === id`. */
  predicate IsOwnProfile(currentUserId: Option<Id>, routeId: Id) {
    currentUserId == Some(routeId)
  }

  /** The `_count` object of the fetched user. */
  datatype ProfileCounts = ProfileCounts(friendships1: Option<int>, friendships2: Option<int>)

  /** `x || 0` on a counter. */
  function OrZero(x: Option<int>): (r: int)
    ensures x.None? ==> r == 0
    ensures x.Some? ==> r == x.value
  {
    if x.Some? && x.value != 0 then x.value else 0
  }

  /** `friendsCount`: the two relation counts added, each defaulting to 0,
      and 0 without `_count`. */
  function FriendsCount(counts: Option<ProfileCounts>): (r: int)
    ensures counts.None? ==> r == 0
    ensures counts.Some? ==> r == OrZero(counts.value.friendships1) + OrZero(counts.value.friendships2)
  {
    match counts
    case None => 0
    case Some(c) => OrZero(c.friendships1) + OrZero(c.friendships2)
  }

  function CountsOf(p: UserController.PublicProfile): ProfileCounts {
    ProfileCounts(Some(p.friendships1), Some(p.friendships2))
  }

  function Involves(userId: Id): Friendship -> bool {
    (f: Friendship) => f.requesterId == userId || f.addresseeId == userId
  }

  /** The count shown for a fetched profile is the number of friendship
      records the user is a party to, pending requests included (no record
      has the same user on both sides, which the request rules ensure). */
  lemma FriendsCountIsRecords(db: State, id: Id)
    requires forall f :: f in db.friendships ==> f.requesterId != f.addresseeId
    requires UserController.GetUserById(db, id).Done?
    ensures FriendsCount(Some(CountsOf(UserController.GetUserById(db, id).value)))
      == |Filter(db.friendships, Involves(id))|
  {
    FilterEitherCount(db.friendships, UserController.RequestedBy(id), UserController.AddressedTo(id), Involves(id));
  }

  /** What `handleFriendAction` asks the server to do. */
  datatype FriendAction = SendRequest(userId: Id) | Unfriend(userId: Id) | NoAction

  /** `handleFriendAction`: no record sends a request; an accepted record
      unfriends once the user confirms; anything else (pending, self, not
      loaded) does nothing. */
  function HandleFriendAction(status: Option<FriendshipController.StatusView>, routeId: Id, confirmed: bool): (r: FriendAction)
    ensures r.SendRequest? <==> status == Some(FriendshipController.NoStatus)
    ensures r.Unfriend? <==> status.Some? && status.value.Linked? && status.value.status == Accepted && confirmed
    ensures r != NoAction ==> r.userId == routeId
  {
    match status
    case Some(NoStatus) => SendRequest(routeId)
    case Some(Linked(Accepted, _, _, _)) => if confirmed then Unfriend(routeId) else NoAction
    case _ => NoAction
  }

  /** The button area of the profile card. */
  datatype ProfileButton = EditProfile | AddFriend | RequestSent | UnfriendButton | NoButton

  /** One's own profile gets the edit button; another user's gets exactly
      one of Add Friend, Request Sent and Unfriend, by the status, or none
      before the status has loaded. */
  function ButtonFor(isOwn: bool, status: Option<FriendshipController.StatusView>): (r: ProfileButton)
    ensures isOwn <==> r == EditProfile
    ensures !isOwn ==> (r == AddFriend <==> status == Some(FriendshipController.NoStatus))
    ensures !isOwn ==> (r == RequestSent <==> status.Some? && status.value.Linked? && status.value.status == Pending)
    ensures !isOwn ==> (r == UnfriendButton <==> status.Some? && status.value.Linked? && status.value.status == Accepted)
  {
    if isOwn then EditProfile
    else match status
      case Some(NoStatus) => AddFriend
      case Some(Linked(Pending, _, _, _)) => RequestSent
      case Some(Linked(Accepted, _, _, _)) => UnfriendButton
      case _ => NoButton
  }

  /** Against the server's answer for another user, the button follows the
      record between the two: none gives Add Friend, a pending one (in
      either direction, so also a request the viewer has received) gives
      Request Sent, an accepted one gives Unfriend. */
  lemma ButtonFollowsRecord(db: State, caller: Caller, routeId: Id)
    requires caller.id != routeId
    ensures var b := ButtonFor(false, Some(FriendshipController.GetFriendshipStatus(db, caller, routeId)));
      var f := FindBetween(db.friendships, caller.id, routeId);
      && (b == AddFriend <==> f.None?)
      && (b == RequestSent <==> f.Some? && f.value.status == Pending)
      && (b == UnfriendButton <==> f.Some? && f.value.status == Accepted)
  {
  }

  /** The buttons' actions succeed on the server: Add Friend for an
      existing user creates the request, a confirmed Unfriend removes the
      record. */
  lemma ButtonActionsSucceed(db: State, caller: Caller, routeId: Id, newId: Id, notificationId: Id, inserted: bool)
    requires caller.id != routeId
    ensures var status := Some(FriendshipController.GetFriendshipStatus(db, caller, routeId));
      && (ButtonFor(false, status) == AddFriend && FindUser(db.users, routeId).Some? ==>
            HandleFriendAction(status, routeId, true) == SendRequest(routeId)
            && FriendshipController.SendFriendRequest(db, caller, routeId, newId, notificationId, inserted).response.Done?)
      && (ButtonFor(false, status) == UnfriendButton ==>
            HandleFriendAction(status, routeId, true) == Unfriend(routeId)
            && FriendshipController.Unfriend(db, caller, routeId).response.Done?)
  {
  }

  function ByAuthor(userId: Id): PostsApi.CachedPost -> bool {
    (p: PostsApi.CachedPost) => p.post.authorId == userId
  }

  /** Every loaded page carries its `posts` array (as the server's pages
      do; a page without one would make the page throw). */
  predicate PagesLoaded(pages: seq<PostsApi.CachedPage>) {
    forall i :: 0 <= i < |pages| ==> pages[i].posts.Some?
  }

  /** All cached posts of the pages, page after page. */
  function AllPosts(pages: seq<PostsApi.CachedPage>): (r: seq<PostsApi.CachedPost>)
    requires PagesLoaded(pages)
    ensures forall p :: p in r <==> exists i :: 0 <= i < |pages| && p in pages[i].posts.value
  {
    if pages == [] then []
    else
      var rest := AllPosts(pages[1..]);
      assert forall i :: 1 <= i < |pages| ==> pages[i] == pages[1..][i - 1];
      pages[0].posts.value + rest
  }

  /** The per-page filter, flattened. */
  function AuthoredPages(pages: seq<PostsApi.CachedPage>, routeId: Id): (r: seq<PostsApi.CachedPost>)
    requires PagesLoaded(pages)
    ensures r == Filter(AllPosts(pages), ByAuthor(routeId))
  {
    if pages == [] then []
    else
      FilterConcat(pages[0].posts.value, AllPosts(pages[1..]), ByAuthor(routeId));
      Filter(pages[0].posts.value, ByAuthor(routeId)) + AuthoredPages(pages[1..], routeId)
  }

  /** `userPosts`: the posts of the route's user among all loaded pages, in
      page order; `[]` before the feed has loaded. */
  function UserPosts(postsData: Option<PostsApi.Feed>, routeId: Id): (r: seq<PostsApi.CachedPost>)
    requires postsData.Some? ==> PagesLoaded(postsData.value.pages)
    ensures postsData.None? ==> r == []
    ensures postsData.Some? ==> r == Filter(AllPosts(postsData.value.pages), ByAuthor(routeId))
    ensures forall p :: p in r <==>
      postsData.Some? && p.post.authorId == routeId
      && exists i :: 0 <= i < |postsData.value.pages| && p in postsData.value.pages[i].posts.value
  {
    match postsData
    case None => []
    case Some(feed) => AuthoredPages(feed.pages, routeId)
  }
}
