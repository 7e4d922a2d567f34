/** The friendship hooks (frontend/src/api/friends.js): accepting or
    rejecting a request removes it from the cached request list at once and
    puts the list back if the server call fails; the status query runs only
    for a truthy user id. */
module FriendsApi {
  import opened Js
  import opened Seqs
  import opened Domain
  import FriendshipController

  /** The optimistic update: an absent cache stays absent, otherwise every
      request with the id goes and the rest keep their order. */
  function RemoveRequest(cache: Option<seq<Friendship>>, requestId: Id): (r: Option<seq<Friendship>>)
    ensures cache.None? <==> r.None?
    ensures cache.Some? ==> forall f :: f in r.value <==> f in cache.value && f.id != requestId
  {
    match cache
    case None => None
    case Some(rs) => Some(Filter(rs, FriendshipController.OtherThan(requestId)))
  }

  /** The optimistic removal read one request at a time: an empty list
      stays empty, and each further request is kept at the end exactly when
      its id is not the removed one. Together the two fix the result's
      order and multiplicity. */
  lemma RemoveRequestSnoc(rs: seq<Friendship>, f: Friendship, requestId: Id)
    ensures RemoveRequest(Some([]), requestId) == Some([])
    ensures RemoveRequest(Some(rs + [f]), requestId)
      == Some(RemoveRequest(Some(rs), requestId).value + (if f.id != requestId then [f] else []))
  {
    FilterSnoc(rs, f, FriendshipController.OtherThan(requestId));
  }

  /** Removing the same request twice is removing it once. */
  lemma RemoveRequestIdempotent(cache: Option<seq<Friendship>>, requestId: Id)
    ensures RemoveRequest(RemoveRequest(cache, requestId), requestId) == RemoveRequest(cache, requestId)
  {
    if cache.Some? {
      var once := Filter(cache.value, FriendshipController.OtherThan(requestId));
      FilterAll(once, FriendshipController.OtherThan(requestId));
    }
  }

  /** The cache after an accept or reject mutation: the optimistic list when
      the call succeeds (until the refetch), the snapshot when it fails. */
  function AfterMutation(cache: Option<seq<Friendship>>, requestId: Id, succeeded: bool): (r: Option<seq<Friendship>>)
    ensures !succeeded ==> r == cache
    ensures succeeded ==> r == RemoveRequest(cache, requestId)
  {
    var previousRequests := cache;
    var optimistic := RemoveRequest(cache, requestId);
    if succeeded then optimistic else previousRequests
  }

  /** Accepting a pending request changes the caller's pending list exactly
      by removing that request. */
  lemma {:induction false} PendingAfterAccept(fs: seq<Friendship>, requestId: Id, userId: Id)
    ensures Filter(FriendshipController.AcceptRecord(fs, requestId), FriendshipController.PendingFor(userId))
      == Filter(Filter(fs, FriendshipController.PendingFor(userId)), FriendshipController.OtherThan(requestId))
  {
    if fs != [] {
      var a := FriendshipController.AcceptRecord(fs, requestId);
      assert a[1..] == FriendshipController.AcceptRecord(fs[1..], requestId);
      PendingAfterAccept(fs[1..], requestId, userId);
      var x := fs[0];
      var rest := Filter(fs[1..], FriendshipController.PendingFor(userId));
      if FriendshipController.PendingFor(userId)(x) {
        assert Filter(fs, FriendshipController.PendingFor(userId)) == [x] + rest;
        assert ([x] + rest)[1..] == rest;
      }
    }
  }

  /** The optimistic removal predicts the server: after a successful accept,
      the caller's refetched request list is the optimistic one. */
  lemma OptimisticAcceptAgrees(db: State, caller: Caller, requestId: Id, notificationId: Id, inserted: bool)
    requires FriendshipController.AcceptFriendRequest(db, caller, requestId, notificationId, inserted).response.Done?
    ensures var after := FriendshipController.AcceptFriendRequest(db, caller, requestId, notificationId, inserted).db;
      Some(FriendshipController.GetFriendRequests(after, caller))
        == RemoveRequest(Some(FriendshipController.GetFriendRequests(db, caller)), requestId)
  {
    var after := FriendshipController.AcceptFriendRequest(db, caller, requestId, notificationId, inserted).db;
    var pending := FriendshipController.PendingFor(caller.id);
    var other := FriendshipController.OtherThan(requestId);
    assert after.friendships == FriendshipController.AcceptRecord(db.friendships, requestId);
    PendingAfterAccept(db.friendships, requestId, caller.id);
    ReverseFilter(Filter(db.friendships, pending), other);
  }

  /** The same for a successful reject. */
  lemma OptimisticRejectAgrees(db: State, caller: Caller, requestId: Id, notificationId: Id, inserted: bool)
    requires FriendshipController.RejectFriendRequest(db, caller, requestId, notificationId, inserted).response.Done?
    ensures var after := FriendshipController.RejectFriendRequest(db, caller, requestId, notificationId, inserted).db;
      Some(FriendshipController.GetFriendRequests(after, caller))
        == RemoveRequest(Some(FriendshipController.GetFriendRequests(db, caller)), requestId)
  {
    var after := FriendshipController.RejectFriendRequest(db, caller, requestId, notificationId, inserted).db;
    var pending := FriendshipController.PendingFor(caller.id);
    var other := FriendshipController.OtherThan(requestId);
    assert after.friendships == Filter(db.friendships, other);
    FilterCommute(db.friendships, other, pending);
    ReverseFilter(Filter(db.friendships, pending), other);
  }

  /** `enabled: !!userId`. */
  predicate StatusQueryEnabled(userId: JStr) {
    Truthy(userId)
  }

  /** The status query runs exactly for a non-empty string id. */
  lemma StatusQueryEnabledIff(userId: JStr)
    ensures StatusQueryEnabled(userId) <==> userId.Str? && userId.s != ""
  {
  }
}
