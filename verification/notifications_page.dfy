/** The notifications page (frontend/src/pages/Notifications.jsx): the icon
    each notification gets, where it links, when a click marks it read, and
    when the two header buttons show. The page reads the hook's raw list,
    not the store's normalised one. */
module NotificationsPage {
  import opened Js
  import opened Domain
  import NotificationStore
  import NotificationsApi

  datatype Icon = HeartIcon | CommentIcon | FriendRequestIcon | BellIcon

  /** `NotificationIcon`: chosen by the lower-cased type; any type without
      an icon of its own gets the bell. */
  function IconFor(kind: string): (r: Icon)
    ensures r == HeartIcon <==> Lower(kind) == "like"
    ensures r == CommentIcon <==> Lower(kind) == "comment"
    ensures r == FriendRequestIcon <==> Lower(kind) == "friend_request"
  {
    var normalized := Lower(kind);
    if normalized == "like" then HeartIcon
    else if normalized == "comment" then CommentIcon
    else if normalized == "friend_request" then FriendRequestIcon
    else BellIcon
  }

  /** Lower-casing forgets any earlier upper-casing. */
  lemma LowerOfUpper(s: string)
    ensures Lower(Upper(s)) == Lower(s)
  {
    forall i | 0 <= i < |s|
      ensures Lower(Upper(s))[i] == Lower(s)[i]
    {
      var c := s[i];
      if 'a' <= c <= 'z' {
        assert 'A' <= UpperChar(c) <= 'Z';
      }
    }
  }

  /** The icon does not depend on the type's letter case. */
  lemma IconIgnoresCase(kind: string)
    ensures IconFor(Upper(kind)) == IconFor(kind)
  {
    LowerOfUpper(kind);
  }

  /** Lower-casing leaves a string without upper-case letters unchanged. */
  lemma LowerOfLower(s: string)
    requires forall i :: 0 <= i < |s| ==> !('A' <= s[i] <= 'Z')
    ensures Lower(s) == s
  {
  }

  lemma LowerFriendRequest(f: string)
    requires f == "FRIEND_REQUEST"
    ensures Lower(f) == "friend_request"
  {
    assert Lower(f[..7]) == "friend_";
    assert Lower(f[7..]) == "request";
    assert f == f[..7] + f[7..];
    LowerConcat(f[..7], f[7..]);
  }

  /** Likes and comments get their icons. */
  lemma PostTypesIcons()
    ensures IconFor("like") == HeartIcon
    ensures IconFor("comment") == CommentIcon
  {
    LowerOfLower("like");
    LowerOfLower("comment");
  }

  /** The server's upper-case friend-request type gets the friend-request
      icon. */
  lemma FriendRequestTypeIcon()
    ensures IconFor("FRIEND_REQUEST") == FriendRequestIcon
  {
    LowerFriendRequest("FRIEND_REQUEST");
  }

  /** Accepted-request notifications get the bell. */
  lemma FriendAcceptTypeBell()
    ensures IconFor("friend_accept") == BellIcon
  {
    LowerOfLower("friend_accept");
  }

  /** Rejected-request notifications get the bell. */
  lemma FriendRejectTypeBell()
    ensures IconFor("friend_reject") == BellIcon
  {
    LowerOfLower("friend_reject");
  }

  /** Message notifications get the bell. */
  lemma MessageTypeBell()
    ensures IconFor("message") == BellIcon
  {
    LowerOfLower("message");
  }

  /** A present, non-empty id (`x ? … : …`). */
  predicate TruthyId(x: Option<Id>) {
    x.Some? && x.value != ""
  }

  /** The link target: the post when there is one, else the sender's
      profile, else `#`. */
  function LinkFor(n: NotificationStore.Item): (r: string)
    ensures TruthyId(n.postId) ==> r == "/post/" + n.postId.value
    ensures !TruthyId(n.postId) && TruthyId(n.senderId) ==> r == "/profile/" + n.senderId.value
    ensures !TruthyId(n.postId) && !TruthyId(n.senderId) ==> r == "#"
  {
    if TruthyId(n.postId) then "/post/" + n.postId.value
    else if TruthyId(n.senderId) then "/profile/" + n.senderId.value
    else "#"
  }

  /** A link never goes to a profile when a post is named, and the `#`
      placeholder appears exactly when neither id is there. */
  lemma LinkChoice(n: NotificationStore.Item)
    ensures LinkFor(n) == "#" <==> !TruthyId(n.postId) && !TruthyId(n.senderId)
    ensures TruthyId(n.postId) ==> LinkFor(n)[..6] == "/post/"
  {
    if TruthyId(n.postId) || TruthyId(n.senderId) {
      assert LinkFor(n)[0] == '/';
    }
  }

  /** `!notification.read` on the raw item: a missing flag reads as unread. */
  predicate ShownUnread(n: NotificationStore.Item) {
    n.read != Some(true)
  }

  /** `handleNotificationClick`: the id to mark read, for an item shown as
      unread only. */
  function ClickMarks(n: NotificationStore.Item): (r: Option<Id>)
    ensures r.Some? <==> ShownUnread(n)
    ensures r.Some? ==> r.value == n.id
  {
    if ShownUnread(n) then Some(n.id) else None
  }

  /** The page reads `read` only, where the store reads `read ?? isRead`:
      they agree on the normalised item, and on a raw item exactly when
      `read` is present or `isRead` is not `true`. */
  lemma ClickAgreesWithStore(n: NotificationStore.Item)
    ensures ClickMarks(NotificationsApi.NormalizeItem(n)).Some? <==> NotificationStore.Unread(n)
    ensures (ClickMarks(n).Some? <==> NotificationStore.Unread(n)) <==> n.read.Some? || n.isRead != Some(true)
  {
  }

  /** "Mark all as read" shows when some item is shown unread. */
  predicate ShowsMarkAll(items: seq<NotificationStore.Item>) {
    exists i :: 0 <= i < |items| && ShownUnread(items[i])
  }

  /** "Clear All" shows when the list is non-empty. */
  predicate ShowsClearAll(items: seq<NotificationStore.Item>) {
    |items| > 0
  }

  /** The hook always hands the page an array, so the buttons depend only
      on its items; Mark-all never shows without Clear-all, and a list of
      read items shows Clear-all alone. */
  lemma HeaderButtons(data: Option<NotificationsApi.Body>)
    ensures var items := NotificationsApi.Result(data).data;
      && (ShowsMarkAll(items) ==> ShowsClearAll(items))
      && ((forall i :: 0 <= i < |items| ==> items[i].read == Some(true)) ==> !ShowsMarkAll(items))
      && (data.None? ==> !ShowsClearAll(items))
  {
  }

  /** `handleClearAll`: one delete request per listed item, in list order,
      and the store emptied. */
  function ClearAllRequests(items: seq<NotificationStore.Item>): (r: seq<Id>)
    ensures |r| == |items|
    ensures forall i :: 0 <= i < |items| ==> r[i] == items[i].id
  {
    if items == [] then [] else [items[0].id] + ClearAllRequests(items[1..])
  }

  function ClearAll(store: NotificationStore.StoreState, items: seq<NotificationStore.Item>): (r: (seq<Id>, NotificationStore.StoreState))
    ensures r.0 == ClearAllRequests(items)
    ensures r.1.notifications == [] && r.1.unreadCount == 0
  {
    (ClearAllRequests(items), NotificationStore.ClearAll(store))
  }
}
