/** The post hooks (frontend/src/api/posts.js): the infinite feed's page
    parameters and the optimistic like toggle on the cached feed, with its
    rollback. */
module PostsApi {
  import opened Js
  import opened Domain
  import PostController

  /** A post as the feed cache holds it. */
  datatype CachedPost = CachedPost(post: Post, isLiked: bool, likesCount: int, commentsCount: int)

  /** A fetched page; `posts` may be missing from a response. */
  datatype CachedPage = CachedPage(posts: Option<seq<CachedPost>>, hasMore: bool)

  /** The infinite query's data. */
  datatype Feed = Feed(pages: seq<CachedPage>, pageParams: seq<nat>)

  /** The page size the feed requests. */
  const FeedLimit: nat := 10

  /** The first page parameter. */
  const InitialPageParam: PostController.PageNo := 1

  /** `getNextPageParam`: the page after the pages loaded so far, while the
      last page says more remain. */
  function NextPageParam(lastPage: CachedPage, pages: seq<CachedPage>): (r: Option<nat>)
    ensures r.Some? <==> lastPage.hasMore
    ensures r.Some? ==> r.value == |pages| + 1 && r.value >= 1
  {
    if lastPage.hasMore then Some(|pages| + 1) else None
  }

  function CachedOf(v: PostController.PostView): CachedPost {
    CachedPost(v.post, v.isLiked, v.likesCount, v.commentsCount)
  }

  function CachedPosts(vs: seq<PostController.PostView>): (r: seq<CachedPost>)
    ensures |r| == |vs|
    ensures forall i :: 0 <= i < |vs| ==> r[i] == CachedOf(vs[i])
  {
    if vs == [] then [] else [CachedOf(vs[0])] + CachedPosts(vs[1..])
  }

  /** The feed page `fetchPosts` stores for page `page`. */
  function FetchPage(db: State, caller: Caller, page: PostController.PageNo): (r: CachedPage)
    ensures r.posts.Some?
    ensures r.hasMore == PostController.GetPosts(db, caller, Some(FeedLimit), Some(page), Undefined).value.hasMore
    ensures |r.posts.value| == |PostController.GetPosts(db, caller, Some(FeedLimit), Some(page), Undefined).value.posts|
  {
    var body := PostController.GetPosts(db, caller, Some(FeedLimit), Some(page), Undefined).value;
    CachedPage(Some(CachedPosts(body.posts)), body.hasMore)
  }

  /** After `n` pages loaded in order, the client asks for page `n + 1`
      exactly when the server has posts on it, so scrolling to the end shows
      the whole feed. */
  lemma NextPageParamFollowsServer(db: State, caller: Caller, pages: seq<CachedPage>, n: PostController.PageNo)
    requires |pages| == n
    ensures NextPageParam(FetchPage(db, caller, n), pages)
      == if |FetchPage(db, caller, n + 1).posts.value| > 0 then Some(n + 1) else None
  {
    FeedHasMore(db, caller, n);
    NextParamOf(FetchPage(db, caller, n), pages, n, |FetchPage(db, caller, n + 1).posts.value| > 0);
  }

  /** `getNextPageParam` on a last page whose `hasMore` is `more`. */
  lemma NextParamOf(last: CachedPage, pages: seq<CachedPage>, n: PostController.PageNo, more: bool)
    requires |pages| == n && (last.hasMore <==> more)
    ensures NextPageParam(last, pages) == if more then Some(n + 1) else None
  {
  }

  /** The feed's `hasMore` for page `n` says whether page `n + 1` has posts. */
  lemma FeedHasMore(db: State, caller: Caller, n: PostController.PageNo)
    ensures FetchPage(db, caller, n).hasMore <==> |FetchPage(db, caller, n + 1).posts.value| > 0
  {
    PostController.HasMoreIffNextPageNonEmpty(db, caller, FeedLimit, n, Undefined);
  }

  /** The optimistic change to one post: flip `isLiked` and move
      `likesCount` by one in the matching direction. */
  function FlipPost(p: CachedPost, postId: Id): (r: CachedPost)
    ensures p.post.id != postId ==> r == p
    ensures p.post.id == postId ==>
      && r.isLiked == !p.isLiked
      && r.likesCount == (if p.isLiked then p.likesCount - 1 else p.likesCount + 1)
      && r.(isLiked := p.isLiked, likesCount := p.likesCount) == p
  {
    if p.post.id == postId then p.(isLiked := !p.isLiked, likesCount := if p.isLiked then p.likesCount - 1 else p.likesCount + 1)
    else p
  }

  function FlipPosts(ps: seq<CachedPost>, postId: Id): (r: seq<CachedPost>)
    ensures |r| == |ps|
    ensures forall i :: 0 <= i < |ps| ==> r[i] == FlipPost(ps[i], postId)
  {
    if ps == [] then [] else [FlipPost(ps[0], postId)] + FlipPosts(ps[1..], postId)
  }

  /** `page.posts?.map(...)`: a page without posts is kept as it is. */
  function FlipPage(page: CachedPage, postId: Id): (r: CachedPage)
    ensures r.hasMore == page.hasMore
    ensures page.posts.None? ==> r == page
    ensures page.posts.Some? ==> r.posts == Some(FlipPosts(page.posts.value, postId))
  {
    page.(posts := if page.posts.Some? then Some(FlipPosts(page.posts.value, postId)) else None)
  }

  function FlipPages(pages: seq<CachedPage>, postId: Id): (r: seq<CachedPage>)
    ensures |r| == |pages|
    ensures forall i :: 0 <= i < |pages| ==> r[i] == FlipPage(pages[i], postId)
  {
    if pages == [] then [] else [FlipPage(pages[0], postId)] + FlipPages(pages[1..], postId)
  }

  /** The `onMutate` cache update: an absent cache stays absent; otherwise
      the page count, page order and page parameters are kept and only posts
      with the id change. */
  function ToggleInCache(cache: Option<Feed>, postId: Id): (r: Option<Feed>)
    ensures cache.None? <==> r.None?
    ensures cache.Some? ==>
      && r.value.pageParams == cache.value.pageParams
      && r.value.pages == FlipPages(cache.value.pages, postId)
  {
    match cache
    case None => None
    case Some(feed) => Some(feed.(pages := FlipPages(feed.pages, postId)))
  }

  lemma {:induction false} FlipPostsTwice(ps: seq<CachedPost>, postId: Id)
    ensures FlipPosts(FlipPosts(ps, postId), postId) == ps
  {
    if ps != [] {
      FlipPostsTwice(ps[1..], postId);
      assert FlipPosts(ps, postId)[1..] == FlipPosts(ps[1..], postId);
    }
  }

  lemma {:induction false} FlipPagesTwice(pages: seq<CachedPage>, postId: Id)
    ensures FlipPages(FlipPages(pages, postId), postId) == pages
  {
    if pages != [] {
      FlipPagesTwice(pages[1..], postId);
      assert FlipPages(pages, postId)[1..] == FlipPages(pages[1..], postId);
      if pages[0].posts.Some? {
        FlipPostsTwice(pages[0].posts.value, postId);
      }
    }
  }

  /** The optimistic toggle is an involution. */
  lemma ToggleInCacheTwice(cache: Option<Feed>, postId: Id)
    ensures ToggleInCache(ToggleInCache(cache, postId), postId) == cache
  {
    if cache.Some? {
      FlipPagesTwice(cache.value.pages, postId);
    }
  }

  /** The cache after a like mutation: the optimistic update stays when the
      call succeeds (nothing is refetched), and the snapshot returns when it
      fails. */
  function AfterLikeMutation(cache: Option<Feed>, postId: Id, succeeded: bool): (r: Option<Feed>)
    ensures !succeeded ==> r == cache
    ensures succeeded ==> r == ToggleInCache(cache, postId)
  {
    var previousData := cache;
    var optimistic := ToggleInCache(cache, postId);
    if succeeded then optimistic else previousData
  }

  /** A cached post that matches the server before a successful toggle still
      matches it afterwards, when likes are unique and the new id is fresh. */
  lemma OptimisticToggleAgrees(db: State, caller: Caller, p: Post, newLikeId: Id, notificationId: Id)
    requires PostController.UniqueLikes(db.likes) && PostController.FreshLikeId(db.likes, newLikeId)
    requires PostController.ToggleLike(db, caller, p.id, newLikeId, notificationId).response.Done?
    ensures var after := PostController.ToggleLike(db, caller, p.id, newLikeId, notificationId).db;
      FlipPost(CachedOf(PostController.ViewOf(db, caller.id, p)), p.id).isLiked
        == PostController.ViewOf(after, caller.id, p).isLiked
  {
    PostController.ToggleLikeFlips(db, caller, p.id, newLikeId, notificationId);
  }
}
