/** The query client settings and the query-key factory
    (frontend/src/lib/queryClient.js). Keys are sequences of string-valued
    parts (ids are strings; an omitted argument is undefined). */
module QueryClient {
  import opened Js

  type Key = seq<JStr>

  /** Five minutes in milliseconds. */
  const StaleTimeMs: nat := 5 * 60 * 1000

  /** Mutations are not retried. */
  const MutationRetries: nat := 0

  /** The query `retry` option: never after a 401 response, otherwise only
      after the first failure (TanStack passes the number of failures so
      far, starting at 0). */
  function Retry(failureCount: nat, status: Option<int>): (r: bool)
    ensures status == Some(401) ==> !r
    ensures status != Some(401) ==> (r <==> failureCount == 0)
  {
    if status == Some(401) then false else failureCount < 1
  }

  /** The retries made for a query whose attempts fail with the given
      statuses, one after another. */
  function Retries(statuses: seq<Option<int>>, failureCount: nat): (n: nat)
    decreases |statuses|
  {
    if statuses == [] || !Retry(failureCount, statuses[0]) then 0
    else 1 + Retries(statuses[1..], failureCount + 1)
  }

  /** A failing query is retried at most once, and not at all when the
      first failure is a 401. */
  lemma {:induction false} AtMostOneRetry(statuses: seq<Option<int>>)
    ensures Retries(statuses, 0) <= 1
    ensures |statuses| >= 1 && statuses[0] == Some(401) ==> Retries(statuses, 0) == 0
    ensures |statuses| >= 2 && statuses[0] != Some(401) ==> Retries(statuses, 0) == 1
  {
    if statuses != [] && Retry(0, statuses[0]) {
      assert Retries(statuses[1..], 1) == 0 by {
        if statuses[1..] != [] {
          assert !Retry(1, statuses[1..][0]);
        }
      }
    }
  }

  const AuthMe: Key := [Str("auth"), Str("me")]
  const PostsAll: Key := [Str("posts")]
  function PostsInfinite(params: JStr): Key { [Str("posts"), Str("infinite"), params] }
  function PostsDetail(id: JStr): Key { [Str("posts"), id] }
  function PostsComments(postId: JStr): Key { [Str("posts"), postId, Str("comments")] }
  const UsersAll: Key := [Str("users")]
  function UsersDetail(id: JStr): Key { [Str("users"), id] }
  function UsersSearch(query: JStr): Key { [Str("users"), Str("search"), query] }
  const FriendsAll: Key := [Str("friends")]
  const FriendsRequests: Key := [Str("friends"), Str("requests")]
  const FriendsSuggestions: Key := [Str("friends"), Str("suggestions")]
  function FriendsStatus(userId: JStr): Key { [Str("friends"), Str("status"), userId] }
  const MessagesConversations: Key := [Str("messages"), Str("conversations")]
  function MessagesConversation(userId: JStr): Key { [Str("messages"), Str("conversation"), userId] }
  const NotificationsAll: Key := [Str("notifications")]

  /** TanStack's partial matching: `invalidateQueries({ queryKey })` hits
      every key that starts with `queryKey`. */
  predicate Covers(prefix: Key, k: Key) {
    |prefix| <= |k| && k[..|prefix|] == prefix
  }

  /** The predicate `q.queryKey[0] === 'posts'`. */
  predicate PostsQuery(k: Key) {
    |k| >= 1 && k[0] == Str("posts")
  }

  /** The predicate `q.queryKey[0] === 'friends' && q.queryKey[1] === 'status'`. */
  predicate FriendStatusQuery(k: Key) {
    |k| >= 2 && k[0] == Str("friends") && k[1] == Str("status")
  }

  /** The posts predicate is the same as invalidating `posts.all`. */
  lemma PostsQueryIsPrefix(k: Key)
    ensures PostsQuery(k) <==> Covers(PostsAll, k)
  {
    if |k| >= 1 {
      assert k[..1] == [k[0]];
    }
  }

  /** Every posts key is covered by `posts.all` and no other family's key is. */
  lemma PostsKeysCovered(x: JStr)
    ensures Covers(PostsAll, PostsInfinite(x)) && Covers(PostsAll, PostsDetail(x)) && Covers(PostsAll, PostsComments(x))
    ensures !Covers(PostsAll, UsersDetail(x)) && !Covers(PostsAll, FriendsStatus(x))
      && !Covers(PostsAll, MessagesConversation(x)) && !Covers(PostsAll, NotificationsAll)
  {
    assert PostsInfinite(x)[..1] == PostsAll;
    assert PostsDetail(x)[..1] == PostsAll;
    assert PostsComments(x)[..1] == PostsAll;
    assert "users"[0] != "posts"[0] && "friends"[0] != "posts"[0] && "messages"[0] != "posts"[0];
    assert UsersDetail(x)[..1][0] != PostsAll[0];
    assert FriendsStatus(x)[..1][0] != PostsAll[0];
    assert MessagesConversation(x)[..1][0] != PostsAll[0];
  }

  /** Every friends key is covered by `friends.all`, and a status key is
      what the status predicate selects. */
  lemma FriendsKeysCovered(x: JStr)
    ensures Covers(FriendsAll, FriendsRequests) && Covers(FriendsAll, FriendsSuggestions) && Covers(FriendsAll, FriendsStatus(x))
    ensures FriendStatusQuery(FriendsStatus(x))
    ensures !FriendStatusQuery(FriendsRequests) && !FriendStatusQuery(FriendsSuggestions) && !FriendStatusQuery(FriendsAll)
    ensures !Covers(FriendsAll, PostsDetail(x)) && !Covers(FriendsAll, UsersDetail(x))
  {
    assert FriendsRequests[..1] == FriendsAll;
    assert FriendsSuggestions[..1] == FriendsAll;
    assert FriendsStatus(x)[..1] == FriendsAll;
    assert "posts"[0] != "friends"[0] && "users"[0] != "friends"[0];
    assert "requests" != "status" && "suggestions"[1] != "status"[1];
    assert PostsDetail(x)[..1][0] != FriendsAll[0];
    assert UsersDetail(x)[..1][0] != FriendsAll[0];
  }
}
