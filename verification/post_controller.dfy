/** The post endpoints (backend/src/controllers/post.controller.js): posts
    with an optional image, the profile listing and the feed with page-based
    pagination, likes as a toggle, and comments. Viewing, liking and
    commenting share one rule: the caller is the author or an accepted friend. */
module PostController {
  import opened Js
  import opened Seqs
  import opened Domain

  /** A `page` query value; the default is 1. */
  type PageNo = n: nat | n >= 1 witness 1

  /** The visibility rule: own posts, and posts of accepted friends. */
  predicate CanView(db: State, callerId: Id, authorId: Id) {
    authorId == callerId || AreFriends(db, callerId, authorId)
  }

  /** `prisma.post.findUnique({ where: { id } })`. */
  function FindPost(posts: seq<Post>, id: Id): (r: Option<Post>)
    ensures r.Some? <==> exists p :: p in posts && p.id == id
    ensures r.Some? ==> r.value in posts && r.value.id == id
  {
    if posts == [] then None
    else if posts[0].id == id then Some(posts[0])
    else FindPost(posts[1..], id)
  }

  /** The caller has liked the post. */
  predicate Liked(likes: seq<Like>, postId: Id, userId: Id) {
    exists l :: l in likes && l.postId == postId && l.userId == userId
  }

  /** `prisma.like.findFirst({ where: { postId, userId } })`. */
  function FindLike(likes: seq<Like>, postId: Id, userId: Id): (r: Option<Like>)
    ensures r.Some? <==> Liked(likes, postId, userId)
    ensures r.Some? ==> r.value in likes && r.value.postId == postId && r.value.userId == userId
  {
    if likes == [] then None
    else if likes[0].postId == postId && likes[0].userId == userId then Some(likes[0])
    else FindLike(likes[1..], postId, userId)
  }

  function LikeOn(postId: Id): Like -> bool {
    (l: Like) => l.postId == postId
  }

  function CommentOn(postId: Id): Comment -> bool {
    (c: Comment) => c.postId == postId
  }

  /** A listed post: the `likes` relation is replaced by `isLiked` and the
      two counters. */
  datatype PostView = PostView(post: Post, isLiked: bool, likesCount: nat, commentsCount: nat)

  function ViewOf(db: State, callerId: Id, p: Post): (v: PostView)
    ensures v.post == p
    ensures v.isLiked <==> Liked(db.likes, p.id, callerId)
    ensures v.likesCount == |Filter(db.likes, LikeOn(p.id))|
    ensures v.commentsCount == |Filter(db.comments, CommentOn(p.id))|
  {
    PostView(p, FindLike(db.likes, p.id, callerId).Some?, Count(db.likes, LikeOn(p.id)), Count(db.comments, CommentOn(p.id)))
  }

  function Views(db: State, callerId: Id, ps: seq<Post>): (r: seq<PostView>)
    ensures |r| == |ps|
    ensures forall i :: 0 <= i < |ps| ==> r[i] == ViewOf(db, callerId, ps[i])
  {
    if ps == [] then [] else [ViewOf(db, callerId, ps[0])] + Views(db, callerId, ps[1..])
  }

  datatype FeedPage = FeedPage(posts: seq<PostView>, hasMore: bool)

  function AuthoredBy(authors: seq<Id>): Post -> bool {
    (p: Post) => p.authorId in authors
  }

  /** The authors a listing draws from: the requested user for a profile
      (`userId` given), else the caller followed by the caller's friends. */
  function Authors(db: State, callerId: Id, userId: JStr): (r: seq<Id>)
    ensures Truthy(userId) ==> r == [userId.s]
    ensures !Truthy(userId) ==> forall a :: a in r <==> a == callerId || a in FriendIds(db, callerId)
  {
    if Truthy(userId) then [userId.s] else [callerId] + FriendIds(db, callerId)
  }

  /** The rows `post.count` counts for the listing, oldest first. */
  function Matching(db: State, callerId: Id, userId: JStr): (r: seq<Post>)
    ensures forall p :: p in r <==> p in db.posts && p.authorId in Authors(db, callerId, userId)
  {
    Filter(db.posts, AuthoredBy(Authors(db, callerId, userId)))
  }

  /** The rows before page `page`: `limit` for each earlier page. */
  function PageSkip(limit: nat, page: PageNo): nat {
    if page == 1 then 0 else PageSkip(limit, page - 1) + limit
  }

  /** The skip is the source's `(page - 1) * limit`. */
  lemma {:induction false} PageSkipIsProduct(limit: nat, page: PageNo)
    ensures PageSkip(limit, page) == (page - 1) * limit
  {
    if page > 1 {
      PageSkipIsProduct(limit, page - 1);
      assert (page - 1) * limit == (page - 2) * limit + limit;
    }
  }

  /** One page of a listing: `take` posts from `skip`, newest first, and
      whether rows remain after it. */
  function ListPage(db: State, callerId: Id, all: seq<Post>, skip: nat, take: nat): (r: FeedPage)
    ensures |r.posts| <= take
    ensures skip <= |all| ==> |r.posts| == if take <= |all| - skip then take else |all| - skip
    ensures forall i :: 0 <= i < |r.posts| ==>
      skip + i < |all| && r.posts[i] == ViewOf(db, callerId, all[|all| - 1 - (skip + i)])
    ensures r.hasMore <==> skip + |r.posts| < |all|
  {
    var shown := NewestPage(all, skip, take);
    FeedPage(Views(db, callerId, shown), skip + |shown| < |all|)
  }

  /** `getPosts`: the profile listing (403 unless the user is the caller or
      a friend) or the feed, newest first, `limit` (default 20) posts from
      `(page - 1) * limit`; `hasMore` says whether rows remain after the page. */
  function GetPosts(db: State, caller: Caller, limit: Option<nat>, page: Option<PageNo>, userId: JStr): (r: Response<FeedPage>)
    ensures r.Fail? <==> Truthy(userId) && !CanView(db, caller.id, userId.s)
    ensures r.Fail? ==> r == Fail(403, "You can only view posts from friends.")
    ensures r.Done? ==>
      var take := if limit.Some? then limit.value else 20;
      && r.status == 200
      && r.value == ListPage(db, caller.id, Matching(db, caller.id, userId),
                             PageSkip(take, if page.Some? then page.value else 1), take)
  {
    if Truthy(userId) && !CanView(db, caller.id, userId.s) then Fail(403, "You can only view posts from friends.")
    else
      var take := if limit.Some? then limit.value else 20;
      Done(200, ListPage(db, caller.id, Matching(db, caller.id, userId), PageSkip(take, if page.Some? then page.value else 1), take))
  }

  /** Every feed author is visible to the caller, and every visible author
      (with a non-empty id) contributes to the feed. */
  lemma FeedAuthorsAreVisible(db: State, caller: Caller, a: Id)
    requires caller.id != "" && a != ""
    ensures a in Authors(db, caller.id, Undefined) <==> CanView(db, caller.id, a)
  {
    if a != caller.id {
      FriendIdsAreFriends(db, caller.id, a);
    }
  }

  /** With a positive page size, a page reports more rows exactly when the
      page after it is non-empty. */
  lemma ListPageHasMore(db: State, callerId: Id, all: seq<Post>, skip: nat, take: nat)
    requires take >= 1
    ensures ListPage(db, callerId, all, skip, take).hasMore <==> ListPage(db, callerId, all, skip + take, take).posts != []
  {
    var here := ListPage(db, callerId, all, skip, take);
    var next := ListPage(db, callerId, all, skip + take, take);
    if skip + take < |all| {
      assert |next.posts| >= 1;
    } else if skip <= |all| {
      assert |here.posts| == |all| - skip;
    } else {
      assert here.posts == [];
    }
  }

  /** With a positive limit, `hasMore` holds exactly when the next page is
      non-empty, so a client that stops at `hasMore == false` misses nothing. */
  lemma HasMoreIffNextPageNonEmpty(db: State, caller: Caller, limit: nat, page: PageNo, userId: JStr)
    requires limit >= 1
    requires GetPosts(db, caller, Some(limit), Some(page), userId).Done?
    ensures GetPosts(db, caller, Some(limit), Some(page), userId).value.hasMore
      <==> GetPosts(db, caller, Some(limit), Some(page + 1), userId).value.posts != []
  {
    PageOf(db, caller, limit, page, userId);
    PageOf(db, caller, limit, page + 1, userId);
    ListingHasMore(db, caller, limit, page, userId);
  }

  /** `ListPageHasMore` for the pages `page` and `page + 1` of a listing. */
  lemma ListingHasMore(db: State, caller: Caller, limit: nat, page: PageNo, userId: JStr)
    requires limit >= 1
    ensures ListPage(db, caller.id, Matching(db, caller.id, userId), PageSkip(limit, page), limit).hasMore
      <==> ListPage(db, caller.id, Matching(db, caller.id, userId), PageSkip(limit, page + 1), limit).posts != []
  {
    PageSkipStep(limit, page);
    ListPageHasMore(db, caller.id, Matching(db, caller.id, userId), PageSkip(limit, page), limit);
  }

  /** A listing the caller may see answers every page with that page. */
  lemma PageOf(db: State, caller: Caller, limit: nat, page: PageNo, userId: JStr)
    requires !(Truthy(userId) && !CanView(db, caller.id, userId.s))
    ensures GetPosts(db, caller, Some(limit), Some(page), userId)
      == Done(200, ListPage(db, caller.id, Matching(db, caller.id, userId), PageSkip(limit, page), limit))
  {
  }

  /** The next page starts `limit` rows further on. */
  lemma PageSkipStep(limit: nat, page: PageNo)
    ensures PageSkip(limit, page + 1) == PageSkip(limit, page) + limit
  {
  }

  /** The body of `getPostById`: the post with its comments (newest first)
      and likes. */
  datatype PostDetail = PostDetail(post: Post, comments: seq<Comment>, likes: seq<Like>)

  /** `getPostById`: 404 when missing, 403 unless visible. */
  function GetPostById(db: State, caller: Caller, id: Id): (r: Response<PostDetail>)
    ensures FindPost(db.posts, id).None? <==> r == Fail(404, "Post not found")
    ensures FindPost(db.posts, id).Some? && !CanView(db, caller.id, FindPost(db.posts, id).value.authorId)
      <==> r == Fail(403, "You can only view posts from friends.")
    ensures r.Fail? ==> r == Fail(404, "Post not found") || r == Fail(403, "You can only view posts from friends.")
    ensures r.Done? ==>
      var all := Filter(db.comments, CommentOn(id));
      && r.status == 200 && r.value.post == FindPost(db.posts, id).value
      && |r.value.comments| == |all|
      && (forall i :: 0 <= i < |all| ==> r.value.comments[i] == all[|all| - 1 - i])
      && (forall c :: c in r.value.comments <==> c in db.comments && c.postId == id)
      && (forall l :: l in r.value.likes <==> l in db.likes && l.postId == id)
  {
    match FindPost(db.posts, id)
    case None => Fail(404, "Post not found")
    case Some(p) =>
      if !CanView(db, caller.id, p.authorId) then Fail(403, "You can only view posts from friends.")
      else
        var cs := Filter(db.comments, CommentOn(id));
        assert forall c :: c in Reverse(cs) <==> c in cs by {
          forall c | c in cs ensures c in Reverse(cs) {
            var i :| 0 <= i < |cs| && cs[i] == c;
            assert Reverse(cs)[|cs| - 1 - i] == c;
          }
        }
        Done(200, PostDetail(p, Reverse(cs), Filter(db.likes, LikeOn(id))))
  }

  /** The post value `createPost` stores. */
  function NewPost(id: Id, authorId: Id, content: JStr, imageUrl: JStr): Post {
    Post(id, authorId, if Truthy(content) then Some(content.s) else None, if Truthy(imageUrl) then [imageUrl.s] else [])
  }

  /** `createPost`: an uploaded file's path takes precedence over the body's
      `image`; 400 when there is neither content nor image; empty content is
      stored as null and a media row exists only for an image. */
  function CreatePost(db: State, caller: Caller, content: JStr, image: JStr, file: Option<string>, newId: Id): (o: Outcome<Post>)
    ensures var imageUrl := if file.Some? then Str(file.value) else image;
      o.response.Done? <==> Truthy(content) || Truthy(imageUrl)
    ensures o.response.Fail? ==> o == Outcome(Fail(400, "Post must have content or an image"), db)
    ensures o.response.Done? ==>
      && o.response.status == 201
      && var p := o.response.value;
      && p.id == newId && p.authorId == caller.id
      && (p.content.None? <==> !Truthy(content))
      && (p.content.Some? ==> p.content.value == content.s)
      && (file.Some? && file.value != "" ==> p.media == [file.value])
      && (file.None? ==> p.media == if Truthy(image) then [image.s] else [])
      && o.db == db.(posts := db.posts + [p])
  {
    var imageUrl := if file.Some? then Str(file.value) else image;
    if !Truthy(content) && !Truthy(imageUrl) then Outcome(Fail(400, "Post must have content or an image"), db)
    else
      var p := NewPost(newId, caller.id, content, imageUrl);
      Outcome(Done(201, p), db.(posts := db.posts + [p]))
  }

  /** The update `updatePost` applies: `content` when it is not undefined
      (null included), and the media replaced by the upload when there is one. */
  function Revise(p: Post, content: JStr, file: Option<string>): Post {
    p.(content := if content.Undefined? then p.content else if content.Null? then None else Some(content.s),
       media := if file.Some? && file.value != "" then [file.value] else p.media)
  }

  function ReviseRows(posts: seq<Post>, id: Id, content: JStr, file: Option<string>): (r: seq<Post>)
    ensures |r| == |posts|
    ensures forall i :: 0 <= i < |posts| ==> r[i] == if posts[i].id == id then Revise(posts[i], content, file) else posts[i]
  {
    if posts == [] then []
    else [if posts[0].id == id then Revise(posts[0], content, file) else posts[0]] + ReviseRows(posts[1..], id, content, file)
  }

  /** Revising the rows with an id leaves the first of them, revised, first. */
  lemma {:induction false} FindRevised(posts: seq<Post>, id: Id, content: JStr, file: Option<string>)
    ensures FindPost(posts, id).Some? ==>
      FindPost(ReviseRows(posts, id, content, file), id) == Some(Revise(FindPost(posts, id).value, content, file))
  {
    if posts != [] && posts[0].id != id {
      assert ReviseRows(posts, id, content, file)[1..] == ReviseRows(posts[1..], id, content, file);
      FindRevised(posts[1..], id, content, file);
    }
  }

  /** `updatePost`: 404 when missing, 403 unless the caller is the author;
      otherwise content changes only when supplied and the media only when
      a file is uploaded. */
  function UpdatePost(db: State, caller: Caller, id: Id, content: JStr, file: Option<string>): (o: Outcome<Post>)
    ensures FindPost(db.posts, id).None? <==> o == Outcome(Fail(404, "Post not found"), db)
    ensures FindPost(db.posts, id).Some? && FindPost(db.posts, id).value.authorId != caller.id
      <==> o == Outcome(Fail(403, "Not authorized to update this post"), db)
    ensures o.response.Fail? ==>
      o.response == Fail(404, "Post not found") || o.response == Fail(403, "Not authorized to update this post")
    ensures o.response.Done? ==>
      var before := FindPost(db.posts, id).value;
      var p := o.response.value;
      && o.response.status == 200
      && p.id == id && p.authorId == caller.id
      && (content.Undefined? ==> p.content == before.content)
      && (content.Null? ==> p.content.None?)
      && (content.Str? ==> p.content == Some(content.s))
      && (file.Some? && file.value != "" ==> p.media == [file.value])
      && (!(file.Some? && file.value != "") ==> p.media == before.media)
      && FindPost(o.db.posts, id) == Some(p)
      && |o.db.posts| == |db.posts|
      && (forall i :: 0 <= i < |db.posts| && db.posts[i].id != id ==> o.db.posts[i] == db.posts[i])
      && o.db.(posts := db.posts) == db
  {
    FindRevised(db.posts, id, content, file);
    match FindPost(db.posts, id)
    case None => Outcome(Fail(404, "Post not found"), db)
    case Some(p) =>
      if p.authorId != caller.id then Outcome(Fail(403, "Not authorized to update this post"), db)
      else Outcome(Done(200, Revise(p, content, file)), db.(posts := ReviseRows(db.posts, id, content, file)))
  }

  /** Read back: the author's update succeeds, and afterwards the author's `getPostById`
      answers the updated post with the comments and likes it had before. */
  lemma UpdateThenView(db: State, caller: Caller, id: Id, content: JStr, file: Option<string>)
    requires FindPost(db.posts, id).Some? && FindPost(db.posts, id).value.authorId == caller.id
    ensures var o := UpdatePost(db, caller, id, content, file);
      var before := GetPostById(db, caller, id);
      var after := GetPostById(o.db, caller, id);
      && o.response.Done? && before.Done? && after.Done?
      && after.value == before.value.(post := o.response.value)
  {
    var o := UpdatePost(db, caller, id, content, file);
    assert o.db.comments == db.comments && o.db.likes == db.likes;
    assert FindPost(o.db.posts, id) == Some(o.response.value);
  }

  function PostOtherThan(id: Id): Post -> bool {
    (p: Post) => p.id != id
  }

  /** `deletePost`: 404 when missing, 403 unless the caller is the author. */
  function DeletePost(db: State, caller: Caller, id: Id): (o: Outcome<string>)
    ensures FindPost(db.posts, id).None? <==> o == Outcome(Fail(404, "Post not found"), db)
    ensures FindPost(db.posts, id).Some? && FindPost(db.posts, id).value.authorId != caller.id
      <==> o == Outcome(Fail(403, "Not authorized to delete this post"), db)
    ensures o.response.Fail? ==>
      o.response == Fail(404, "Post not found") || o.response == Fail(403, "Not authorized to delete this post")
    ensures o.response.Done? ==>
      && o.response == Done(200, "Post deleted successfully")
      && (forall p :: p in o.db.posts <==> p in db.posts && p.id != id)
      && o.db.(posts := db.posts) == db
  {
    match FindPost(db.posts, id)
    case None => Outcome(Fail(404, "Post not found"), db)
    case Some(p) =>
      if p.authorId != caller.id then Outcome(Fail(403, "Not authorized to delete this post"), db)
      else Outcome(Done(200, "Post deleted successfully"), db.(posts := Filter(db.posts, PostOtherThan(id))))
  }

  /** Read back: after a successful delete the post is gone for everyone,
      and deleting it again answers 404. */
  lemma DeleteThenView(db: State, caller: Caller, viewer: Caller, id: Id)
    requires DeletePost(db, caller, id).response.Done?
    ensures var after := DeletePost(db, caller, id).db;
      && GetPostById(after, viewer, id) == Fail(404, "Post not found")
      && DeletePost(after, caller, id).response == Fail(404, "Post not found")
  {
    var after := DeletePost(db, caller, id).db;
    assert FindPost(after.posts, id).None?;
  }

  datatype LikeResult = LikeResult(message: string, liked: bool)

  function LikeOtherThan(id: Id): Like -> bool {
    (l: Like) => l.id != id
  }

  /** The notification a like or a comment produces for the post's author. */
  function Notice(db: State, p: Post, caller: Caller, kind: string, content: string, notificationId: Id): (r: State)
    ensures r.(notifications := db.notifications) == db
    ensures p.authorId != caller.id ==>
      r.notifications == db.notifications + [Notification(notificationId, p.authorId, Some(caller.id), Some(p.id), kind, content, false)]
    ensures p.authorId == caller.id ==> r.notifications == db.notifications
  {
    if p.authorId == caller.id then db
    else db.(notifications := db.notifications + [Notification(notificationId, p.authorId, Some(caller.id), Some(p.id), kind, content, false)])
  }

  /** `toggleLike`: 404 when missing, 403 unless visible; an existing like of
      the caller is deleted, otherwise one is created and the author (when
      not the caller) gets a "like" notification. */
  function ToggleLike(db: State, caller: Caller, postId: Id, newLikeId: Id, notificationId: Id): (o: Outcome<LikeResult>)
    ensures FindPost(db.posts, postId).None? <==> o == Outcome(Fail(404, "Post not found"), db)
    ensures FindPost(db.posts, postId).Some? && !CanView(db, caller.id, FindPost(db.posts, postId).value.authorId)
      <==> o == Outcome(Fail(403, "You can only like posts from friends."), db)
    ensures o.response.Fail? ==>
      o.response == Fail(404, "Post not found") || o.response == Fail(403, "You can only like posts from friends.")
    ensures o.response.Done? && Liked(db.likes, postId, caller.id) ==>
      && o.response == Done(200, LikeResult("Post unliked", false))
      && o.db == db.(likes := Filter(db.likes, LikeOtherThan(FindLike(db.likes, postId, caller.id).value.id)))
    ensures o.response.Done? && !Liked(db.likes, postId, caller.id) ==>
      && o.response == Done(200, LikeResult("Post liked", true))
      && o.db.likes == db.likes + [Like(newLikeId, postId, caller.id)]
      && o.db == Notice(db.(likes := o.db.likes), FindPost(db.posts, postId).value, caller, "like",
                        caller.name + " liked your post", notificationId)
  {
    match FindPost(db.posts, postId)
    case None => Outcome(Fail(404, "Post not found"), db)
    case Some(p) =>
      if !CanView(db, caller.id, p.authorId) then Outcome(Fail(403, "You can only like posts from friends."), db)
      else match FindLike(db.likes, postId, caller.id)
        case Some(existing) =>
          Outcome(Done(200, LikeResult("Post unliked", false)), db.(likes := Filter(db.likes, LikeOtherThan(existing.id))))
        case None =>
          var db1 := db.(likes := db.likes + [Like(newLikeId, postId, caller.id)]);
          Outcome(Done(200, LikeResult("Post liked", true)),
                  Notice(db1, p, caller, "like", caller.name + " liked your post", notificationId))
  }

  /** Like rows have distinct ids and at most one row per (post, user). */
  predicate DistinctLikes(a: Like, b: Like) {
    a.id != b.id && !(a.postId == b.postId && a.userId == b.userId)
  }

  predicate UniqueLikes(likes: seq<Like>) {
    Pairwise(likes, DistinctLikes)
  }

  predicate FreshLikeId(likes: seq<Like>, id: Id) {
    forall l :: l in likes ==> l.id != id
  }

  /** With unique likes and a fresh id, a successful toggle flips whether the
      caller likes the post, reports the new state, and keeps likes unique. */
  lemma ToggleLikeFlips(db: State, caller: Caller, postId: Id, newLikeId: Id, notificationId: Id)
    requires UniqueLikes(db.likes) && FreshLikeId(db.likes, newLikeId)
    requires ToggleLike(db, caller, postId, newLikeId, notificationId).response.Done?
    ensures var o := ToggleLike(db, caller, postId, newLikeId, notificationId);
      && (Liked(o.db.likes, postId, caller.id) <==> !Liked(db.likes, postId, caller.id))
      && o.response.value.liked == Liked(o.db.likes, postId, caller.id)
      && UniqueLikes(o.db.likes)
  {
    var o := ToggleLike(db, caller, postId, newLikeId, notificationId);
    var likes := db.likes;
    if Liked(likes, postId, caller.id) {
      var e := FindLike(likes, postId, caller.id).value;
      FilterPairwise(likes, LikeOtherThan(e.id), DistinctLikes);
    } else {
      var added := Like(newLikeId, postId, caller.id);
      assert o.db.likes == likes + [added];
      assert added in o.db.likes;
      var r := o.db.likes;
      forall i, j | 0 <= i < j < |r|
        ensures DistinctLikes(r[i], r[j])
      {
        if j == |likes| {
          assert r[i] == likes[i] && likes[i] in likes;
        } else {
          assert r[i] == likes[i] && r[j] == likes[j];
        }
      }
    }
  }

  /** Two successful toggles (with fresh ids) restore whether the caller
      likes the post; starting from no like they restore the like table. */
  lemma ToggleTwiceRestores(db: State, caller: Caller, postId: Id, id1: Id, id2: Id, n1: Id, n2: Id)
    requires UniqueLikes(db.likes) && FreshLikeId(db.likes, id1)
    requires ToggleLike(db, caller, postId, id1, n1).response.Done?
    requires FreshLikeId(ToggleLike(db, caller, postId, id1, n1).db.likes, id2)
    ensures var mid := ToggleLike(db, caller, postId, id1, n1).db;
      var last := ToggleLike(mid, caller, postId, id2, n2);
      && last.response.Done?
      && (Liked(last.db.likes, postId, caller.id) <==> Liked(db.likes, postId, caller.id))
      && (!Liked(db.likes, postId, caller.id) ==> last.db.likes == db.likes)
  {
    var o1 := ToggleLike(db, caller, postId, id1, n1);
    var mid := o1.db;
    ToggleLikeFlips(db, caller, postId, id1, n1);
    var p := FindPost(db.posts, postId).value;
    assert mid.posts == db.posts && mid.friendships == db.friendships;
    assert FindPost(mid.posts, postId) == Some(p);
    assert CanView(mid, caller.id, p.authorId) == CanView(db, caller.id, p.authorId) by {
      assert AreFriends(mid, caller.id, p.authorId) == AreFriends(db, caller.id, p.authorId);
    }
    ToggleLikeFlips(mid, caller, postId, id2, n2);
    if !Liked(db.likes, postId, caller.id) {
      var added := Like(id1, postId, caller.id);
      assert mid.likes == db.likes + [added];
      var e := FindLike(mid.likes, postId, caller.id).value;
      assert e == added;
      FilterSnoc(db.likes, added, LikeOtherThan(id1));
      FilterAll(db.likes, LikeOtherThan(id1));
    }
  }

  /** `addComment`: 400 for empty content (checked first), 404 when the post
      is missing, 403 unless visible; the author (when not the caller) gets a
      "comment" notification. */
  function AddComment(db: State, caller: Caller, postId: Id, content: JStr, newId: Id, notificationId: Id): (o: Outcome<Comment>)
    ensures !Truthy(content) <==> o == Outcome(Fail(400, "Comment content is required"), db)
    ensures Truthy(content) && FindPost(db.posts, postId).None? <==> o == Outcome(Fail(404, "Post not found"), db)
    ensures Truthy(content) && FindPost(db.posts, postId).Some? && !CanView(db, caller.id, FindPost(db.posts, postId).value.authorId)
      <==> o == Outcome(Fail(403, "You can only comment on posts from friends."), db)
    ensures o.response.Fail? ==>
      || o.response == Fail(400, "Comment content is required") || o.response == Fail(404, "Post not found")
      || o.response == Fail(403, "You can only comment on posts from friends.")
    ensures o.response.Done? ==>
      var c := Comment(newId, postId, caller.id, content.s);
      && o.response == Done(201, c)
      && o.db == Notice(db.(comments := db.comments + [c]), FindPost(db.posts, postId).value, caller, "comment",
                        caller.name + " commented on your post", notificationId)
  {
    if !Truthy(content) then Outcome(Fail(400, "Comment content is required"), db)
    else match FindPost(db.posts, postId)
      case None => Outcome(Fail(404, "Post not found"), db)
      case Some(p) =>
        if !CanView(db, caller.id, p.authorId) then Outcome(Fail(403, "You can only comment on posts from friends."), db)
        else
          var c := Comment(newId, postId, caller.id, content.s);
          Outcome(Done(201, c), Notice(db.(comments := db.comments + [c]), p, caller, "comment",
                                       caller.name + " commented on your post", notificationId))
  }

  /** `getComments`: 404 when the post is missing, 403 unless visible;
      otherwise the post's comments newest first, `limit` (default 20) from
      `skip` (default 0). */
  function GetComments(db: State, caller: Caller, postId: Id, limit: Option<nat>, skip: Option<nat>): (r: Response<seq<Comment>>)
    ensures FindPost(db.posts, postId).None? <==> r == Fail(404, "Post not found")
    ensures FindPost(db.posts, postId).Some? && !CanView(db, caller.id, FindPost(db.posts, postId).value.authorId)
      <==> r == Fail(403, "You can only view comments on friends' posts.")
    ensures r.Fail? ==> r == Fail(404, "Post not found") || r == Fail(403, "You can only view comments on friends' posts.")
    ensures r.Done? ==> r.status == 200
  {
    match FindPost(db.posts, postId)
    case None => Fail(404, "Post not found")
    case Some(p) =>
      if !CanView(db, caller.id, p.authorId) then Fail(403, "You can only view comments on friends' posts.")
      else Done(200, NewestPage(Filter(db.comments, CommentOn(postId)), if skip.Some? then skip.value else 0,
                                if limit.Some? then limit.value else 20))
  }

  /** A visible post's comments come newest first: `limit` (default 20) of
      them, starting `skip` (default 0) from the newest. */
  lemma CommentsNewestFirst(db: State, caller: Caller, postId: Id, limit: Option<nat>, skip: Option<nat>)
    requires GetComments(db, caller, postId, limit, skip).Done?
    ensures var r := GetComments(db, caller, postId, limit, skip).value;
      var all := Filter(db.comments, CommentOn(postId));
      var drop := if skip.Some? then skip.value else 0;
      && |r| == PageLength(|all|, drop, if limit.Some? then limit.value else 20)
      && forall i :: 0 <= i < |r| ==> drop + i < |all| && r[i] == all[|all| - 1 - (drop + i)]
  {
    var all := Filter(db.comments, CommentOn(postId));
    var drop := if skip.Some? then skip.value else 0;
    var take := if limit.Some? then limit.value else 20;
    assert GetComments(db, caller, postId, limit, skip).value == NewestPage(all, drop, take);
  }

  /** Read back: a comment just added is the first one `getComments`
      answers to its author, and the post has one comment more. */
  lemma AddCommentThenList(db: State, caller: Caller, postId: Id, content: JStr, newId: Id, notificationId: Id, limit: nat)
    requires limit >= 1
    requires AddComment(db, caller, postId, content, newId, notificationId).response.Done?
    ensures var o := AddComment(db, caller, postId, content, newId, notificationId);
      var r := GetComments(o.db, caller, postId, Some(limit), None);
      && r.Done? && r.value != [] && r.value[0] == o.response.value
      && |Filter(o.db.comments, CommentOn(postId))| == |Filter(db.comments, CommentOn(postId))| + 1
  {
    var o := AddComment(db, caller, postId, content, newId, notificationId);
    var c := o.response.value;
    assert o.db.comments == db.comments + [c];
    assert o.db.posts == db.posts && o.db.friendships == db.friendships;
    assert AreFriends(o.db, caller.id, FindPost(db.posts, postId).value.authorId)
        == AreFriends(db, caller.id, FindPost(db.posts, postId).value.authorId);
    FilterSnoc(db.comments, c, CommentOn(postId));
    CommentsNewestFirst(o.db, caller, postId, Some(limit), None);
  }

  /** The post exists and the caller may not see it. */
  predicate Forbidden(db: State, callerId: Id, postId: Id) {
    FindPost(db.posts, postId).Some? && !CanView(db, callerId, FindPost(db.posts, postId).value.authorId)
  }

  /** Viewing a post, listing its comments, liking it and commenting on it
      are refused (403) for exactly the same callers. */
  lemma SameVisibilityRule(db: State, caller: Caller, postId: Id, limit: Option<nat>, skip: Option<nat>,
                           content: string, newId: Id, notificationId: Id)
    requires content != ""
    ensures var forbidden := GetPostById(db, caller, postId).Fail? && GetPostById(db, caller, postId).status == 403;
      && forbidden == (GetComments(db, caller, postId, limit, skip).Fail? && GetComments(db, caller, postId, limit, skip).status == 403)
      && forbidden == (ToggleLike(db, caller, postId, newId, notificationId).response.Fail?
                       && ToggleLike(db, caller, postId, newId, notificationId).response.status == 403)
      && forbidden == (AddComment(db, caller, postId, Str(content), newId, notificationId).response.Fail?
                       && AddComment(db, caller, postId, Str(content), newId, notificationId).response.status == 403)
  {
    ViewForbidden(db, caller, postId);
    CommentsForbidden(db, caller, postId, limit, skip);
    LikeForbidden(db, caller, postId, newId, notificationId);
    CommentForbidden(db, caller, postId, content, newId, notificationId);
  }

  /** Each of the four post routes answers 403 exactly when the post exists
      and its author's posts are hidden from the caller. */
  lemma ViewForbidden(db: State, caller: Caller, postId: Id)
    ensures var r := GetPostById(db, caller, postId); r.Fail? && r.status == 403 <==> Forbidden(db, caller.id, postId)
  {
  }

  lemma CommentsForbidden(db: State, caller: Caller, postId: Id, limit: Option<nat>, skip: Option<nat>)
    ensures var r := GetComments(db, caller, postId, limit, skip); r.Fail? && r.status == 403 <==> Forbidden(db, caller.id, postId)
  {
  }

  lemma LikeForbidden(db: State, caller: Caller, postId: Id, newId: Id, notificationId: Id)
    ensures var r := ToggleLike(db, caller, postId, newId, notificationId).response;
      r.Fail? && r.status == 403 <==> Forbidden(db, caller.id, postId)
  {
  }

  lemma CommentForbidden(db: State, caller: Caller, postId: Id, content: string, newId: Id, notificationId: Id)
    requires content != ""
    ensures var r := AddComment(db, caller, postId, Str(content), newId, notificationId).response;
      r.Fail? && r.status == 403 <==> Forbidden(db, caller.id, postId)
  {
  }
}
