/** The friendship endpoints (backend/src/controllers/friendship.controller.js):
    a friendship record goes from absent to pending (request) to accepted
    (accept); reject and unfriend delete it. Requests, accepts and rejects
    each persist a notification for the other party. */
module FriendshipController {
  import opened Js
  import opened Seqs
  import opened Domain
  import NotificationController

  /** `findUnique` on the friendship id. */
  function FindFriendship(fs: seq<Friendship>, id: Id): (r: Option<Friendship>)
    ensures r.Some? <==> exists f :: f in fs && f.id == id
    ensures r.Some? ==> r.value in fs && r.value.id == id
  {
    if fs == [] then None
    else if fs[0].id == id then Some(fs[0])
    else FindFriendship(fs[1..], id)
  }

  /** Adds the notification row `createNotification` inserts (if it does). */
  function Notify(db: State, userId: Id, senderId: Id, kind: string, content: string, notificationId: Id, inserted: bool): (r: State)
    ensures r.(notifications := db.notifications) == db
    ensures inserted ==> r.notifications == db.notifications + [Notification(notificationId, userId, Some(senderId), None, kind, content, false)]
    ensures !inserted ==> r.notifications == db.notifications
  {
    NotificationController.CreateNotification(db, userId, Some(senderId), None, kind, content, notificationId, inserted).1
  }

  /** `sendFriendRequest`: 400 for oneself, 404 for an unknown user, 400 when
      any record already links the two (worded by its status); otherwise one
      pending record with the caller as requester, and a "FRIEND_REQUEST"
      notification for the addressee. */
  function SendFriendRequest(db: State, caller: Caller, userId: Id, newId: Id, notificationId: Id, inserted: bool): (o: Outcome<Friendship>)
    ensures caller.id == userId ==> o == Outcome(Fail(400, "You cannot send a friend request to yourself"), db)
    ensures caller.id != userId && FindUser(db.users, userId).None? ==> o == Outcome(Fail(404, "User not found"), db)
    ensures caller.id != userId && FindUser(db.users, userId).Some? && FindBetween(db.friendships, caller.id, userId).Some? ==>
      o == Outcome(Fail(400, if FindBetween(db.friendships, caller.id, userId).value.status == Accepted
                             then "You are already friends" else "Friend request already sent"), db)
    ensures o.response.Done? <==>
      caller.id != userId && FindUser(db.users, userId).Some? && !(exists f :: f in db.friendships && Links(f, caller.id, userId))
    ensures o.response.Done? ==>
      var f := Friendship(newId, caller.id, userId, Pending);
      && o.response == Done(201, f)
      && o.db.friendships == db.friendships + [f]
      && o.db == Notify(db.(friendships := db.friendships + [f]), userId, caller.id, "FRIEND_REQUEST",
                        caller.name + " sent you a friend request", notificationId, inserted)
  {
    if caller.id == userId then Outcome(Fail(400, "You cannot send a friend request to yourself"), db)
    else if FindUser(db.users, userId).None? then Outcome(Fail(404, "User not found"), db)
    else match FindBetween(db.friendships, caller.id, userId)
      case Some(existing) =>
        Outcome(Fail(400, if existing.status == Accepted then "You are already friends" else "Friend request already sent"), db)
      case None =>
        var f := Friendship(newId, caller.id, userId, Pending);
        var db1 := db.(friendships := db.friendships + [f]);
        Outcome(Done(201, f), Notify(db1, userId, caller.id, "FRIEND_REQUEST", caller.name + " sent you a friend request", notificationId, inserted))
  }

  /** Sets the status of the records with the id to accepted. */
  function AcceptRecord(fs: seq<Friendship>, id: Id): (r: seq<Friendship>)
    ensures |r| == |fs|
    ensures forall i :: 0 <= i < |fs| ==> r[i] == if fs[i].id == id then fs[i].(status := Accepted) else fs[i]
  {
    if fs == [] then [] else [if fs[0].id == id then fs[0].(status := Accepted) else fs[0]] + AcceptRecord(fs[1..], id)
  }

  /** `acceptFriendRequest`: 404 when missing, 403 unless the caller is the
      addressee, 400 when already accepted; otherwise the pending record
      becomes accepted and the requester gets a "friend_accept" notification. */
  function AcceptFriendRequest(db: State, caller: Caller, requestId: Id, notificationId: Id, inserted: bool): (o: Outcome<Friendship>)
    ensures FindFriendship(db.friendships, requestId).None? ==> o == Outcome(Fail(404, "Friend request not found"), db)
    ensures var f := FindFriendship(db.friendships, requestId);
      f.Some? && f.value.addresseeId != caller.id ==> o == Outcome(Fail(403, "You cannot accept this friend request"), db)
    ensures var f := FindFriendship(db.friendships, requestId);
      f.Some? && f.value.addresseeId == caller.id && f.value.status == Accepted ==>
      o == Outcome(Fail(400, "Friend request already accepted"), db)
    ensures o.response.Done? <==> var f := FindFriendship(db.friendships, requestId);
      f.Some? && f.value.addresseeId == caller.id && f.value.status == Pending
    ensures o.response.Done? ==>
      var f := FindFriendship(db.friendships, requestId).value;
      && f.status == Pending && f.addresseeId == caller.id
      && o.response == Done(200, f.(status := Accepted))
      && o.db == Notify(db.(friendships := AcceptRecord(db.friendships, requestId)), f.requesterId, caller.id,
                        "friend_accept", caller.name + " accepted your friend request", notificationId, inserted)
  {
    match FindFriendship(db.friendships, requestId)
    case None => Outcome(Fail(404, "Friend request not found"), db)
    case Some(f) =>
      if f.addresseeId != caller.id then Outcome(Fail(403, "You cannot accept this friend request"), db)
      else if f.status == Accepted then Outcome(Fail(400, "Friend request already accepted"), db)
      else
        var db1 := db.(friendships := AcceptRecord(db.friendships, requestId));
        Outcome(Done(200, f.(status := Accepted)),
                Notify(db1, f.requesterId, caller.id, "friend_accept", caller.name + " accepted your friend request", notificationId, inserted))
  }

  function OtherThan(id: Id): Friendship -> bool {
    (f: Friendship) => f.id != id
  }

  /** `rejectFriendRequest`: 404 when missing, 403 unless the caller is the
      addressee; otherwise the record is deleted whatever its status and the
      requester gets a "friend_reject" notification. */
  function RejectFriendRequest(db: State, caller: Caller, requestId: Id, notificationId: Id, inserted: bool): (o: Outcome<string>)
    ensures FindFriendship(db.friendships, requestId).None? ==> o == Outcome(Fail(404, "Friend request not found"), db)
    ensures var f := FindFriendship(db.friendships, requestId);
      f.Some? && f.value.addresseeId != caller.id ==> o == Outcome(Fail(403, "You cannot reject this friend request"), db)
    ensures o.response.Done? <==> var f := FindFriendship(db.friendships, requestId);
      f.Some? && f.value.addresseeId == caller.id
    ensures o.response.Done? ==>
      var f := FindFriendship(db.friendships, requestId).value;
      && f.addresseeId == caller.id
      && o.response == Done(200, "Friend request rejected")
      && (forall g :: g in o.db.friendships <==> g in db.friendships && g.id != requestId)
      && o.db == Notify(db.(friendships := Filter(db.friendships, OtherThan(requestId))), f.requesterId, caller.id,
                        "friend_reject", caller.name + " rejected your friend request", notificationId, inserted)
  {
    match FindFriendship(db.friendships, requestId)
    case None => Outcome(Fail(404, "Friend request not found"), db)
    case Some(f) =>
      if f.addresseeId != caller.id then Outcome(Fail(403, "You cannot reject this friend request"), db)
      else
        var db1 := db.(friendships := Filter(db.friendships, OtherThan(requestId)));
        Outcome(Done(200, "Friend request rejected"),
                Notify(db1, f.requesterId, caller.id, "friend_reject", caller.name + " rejected your friend request", notificationId, inserted))
  }

  /** `unfriend`: removes the first record linking the two in either
      direction, pending or accepted; 404 when there is none. */
  function Unfriend(db: State, caller: Caller, userId: Id): (o: Outcome<string>)
    ensures !(exists f :: f in db.friendships && Links(f, caller.id, userId)) <==>
      o == Outcome(Fail(404, "Friendship not found"), db)
    ensures o.response.Done? <==> exists f :: f in db.friendships && Links(f, caller.id, userId)
    ensures o.response.Done? ==>
      var f := FindBetween(db.friendships, caller.id, userId).value;
      && o.response == Done(200, "Friendship removed")
      && (forall g :: g in o.db.friendships <==> g in db.friendships && g.id != f.id)
      && o.db.(friendships := db.friendships) == db
  {
    match FindBetween(db.friendships, caller.id, userId)
    case None => Outcome(Fail(404, "Friendship not found"), db)
    case Some(f) => Outcome(Done(200, "Friendship removed"), db.(friendships := Filter(db.friendships, OtherThan(f.id))))
  }

  /** `getFriends`: the other party of each accepted record of the caller. */
  function GetFriends(db: State, caller: Caller): (r: seq<Id>)
    ensures forall x :: x in r <==> (exists f :: (f in db.friendships && f.status == Accepted
      && ((f.requesterId == caller.id && f.addresseeId == x) || (f.addresseeId == caller.id && f.requesterId == x && f.requesterId != caller.id))))
  {
    FriendIds(db, caller.id)
  }

  /** Pending records addressed to the user. */
  function PendingFor(userId: Id): Friendship -> bool {
    (f: Friendship) => f.addresseeId == userId && f.status == Pending
  }

  /** `getFriendRequests`: the pending records addressed to the caller, newest first. */
  function GetFriendRequests(db: State, caller: Caller): (r: seq<Friendship>)
    ensures forall f :: f in r <==> f in db.friendships && f.addresseeId == caller.id && f.status == Pending
    ensures var mine := Filter(db.friendships, PendingFor(caller.id));
      && |r| == |mine|
      && forall i :: 0 <= i < |r| ==> r[i] == mine[|mine| - 1 - i]
  {
    var mine := Filter(db.friendships, PendingFor(caller.id));
    assert forall f :: f in Reverse(mine) <==> f in mine by {
      forall f | f in mine ensures f in Reverse(mine) {
        var i :| 0 <= i < |mine| && mine[i] == f;
        assert Reverse(mine)[|mine| - 1 - i] == f;
      }
    }
    Reverse(mine)
  }

  /** The body of `getFriendshipStatus`. */
  datatype StatusView = SelfStatus | NoStatus | Linked(status: FriendStatus, requesterId: Id, isSent: bool, isReceived: bool)

  /** `getFriendshipStatus`: "self" for the caller's own id, null without a
      record, otherwise the first record's status and direction. */
  function GetFriendshipStatus(db: State, caller: Caller, userId: Id): (r: StatusView)
    ensures caller.id == userId <==> r == SelfStatus
    ensures caller.id != userId ==> (r == NoStatus <==> !exists f :: f in db.friendships && Links(f, caller.id, userId))
    ensures r.Linked? ==>
      && (exists f :: f in db.friendships && Links(f, caller.id, userId) && f.status == r.status && f.requesterId == r.requesterId)
      && (r.isSent <==> r.requesterId == caller.id)
      && (r.isReceived <==> r.requesterId == userId)
      && (r.isSent != r.isReceived)
  {
    if caller.id == userId then SelfStatus
    else match FindBetween(db.friendships, caller.id, userId)
      case None => NoStatus
      case Some(f) => Linked(f.status, f.requesterId, f.requesterId == caller.id, f.addresseeId == caller.id)
  }

  /** The ids `getSuggestedFriends` excludes: the caller and both parties of
      every record involving the caller. */
  function Excluded(fs: seq<Friendship>, userId: Id): (r: set<Id>)
    ensures userId in r
    ensures forall x :: x in r <==> x == userId || exists f :: f in fs && Links(f, userId, x)
  {
    {userId} + (set f | f in fs && (f.requesterId == userId || f.addresseeId == userId) :: f.requesterId)
             + (set f | f in fs && (f.requesterId == userId || f.addresseeId == userId) :: f.addresseeId)
  }

  function NotIn(ids: set<Id>): User -> bool {
    (u: User) => u.id !in ids
  }

  /** `getSuggestedFriends`: the first `limit` users (default 10), in table
      order, that are neither the caller nor linked to the caller by any
      record, pending or accepted. */
  function GetSuggestedFriends(db: State, caller: Caller, limit: Option<nat>): (r: seq<User>)
    ensures |r| <= if limit.Some? then limit.value else 10
    ensures forall u :: u in r ==> (u in db.users && u.id != caller.id
      && !exists f :: f in db.friendships && Links(f, caller.id, u.id))
    ensures |r| < (if limit.Some? then limit.value else 10) ==>
      forall u :: u in db.users && u.id != caller.id && !(exists f :: f in db.friendships && Links(f, caller.id, u.id)) ==> u in r
  {
    var exclude := Excluded(db.friendships, caller.id);
    var eligible := Filter(db.users, NotIn(exclude));
    var take := if limit.Some? then limit.value else 10;
    var r := Window(eligible, 0, take);
    assert forall u :: u in r ==> u in eligible;
    assert |r| < take ==> r == eligible;
    r
  }

  /** Every suggested user is a stranger to the caller by every other
      read: no friendship status, not among the friends, and a friend
      request to them is accepted. */
  lemma SuggestionsAreStrangers(db: State, caller: Caller, limit: Option<nat>, u: User, newId: Id, notificationId: Id, inserted: bool)
    requires u in GetSuggestedFriends(db, caller, limit)
    ensures GetFriendshipStatus(db, caller, u.id) == NoStatus
    ensures u.id !in GetFriends(db, caller)
    ensures SendFriendRequest(db, caller, u.id, newId, notificationId, inserted).response.Done?
  {
  }

  /** At most one record per unordered pair of users. */
  predicate Apart(f: Friendship, g: Friendship) {
    !Links(g, f.requesterId, f.addresseeId)
  }

  predicate OnePerPair(fs: seq<Friendship>) {
    Pairwise(fs, Apart)
  }

  /** The friendship actions, with the ids and notification outcomes the
      database decides. */
  datatype FriendOp =
    | Request(caller: Caller, userId: Id, newId: Id, notificationId: Id, inserted: bool)
    | Accept(caller: Caller, requestId: Id, notificationId: Id, inserted: bool)
    | Reject(caller: Caller, requestId: Id, notificationId: Id, inserted: bool)
    | Remove(caller: Caller, userId: Id)

  function ApplyOp(db: State, op: FriendOp): State {
    match op
    case Request(caller, userId, newId, notificationId, inserted) => SendFriendRequest(db, caller, userId, newId, notificationId, inserted).db
    case Accept(caller, requestId, notificationId, inserted) => AcceptFriendRequest(db, caller, requestId, notificationId, inserted).db
    case Reject(caller, requestId, notificationId, inserted) => RejectFriendRequest(db, caller, requestId, notificationId, inserted).db
    case Remove(caller, userId) => Unfriend(db, caller, userId).db
  }

  function ApplyOps(db: State, ops: seq<FriendOp>): State
    decreases |ops|
  {
    if ops == [] then db else ApplyOps(ApplyOp(db, ops[0]), ops[1..])
  }

  lemma RequestKeepsOnePerPair(db: State, caller: Caller, userId: Id, newId: Id, notificationId: Id, inserted: bool)
    requires OnePerPair(db.friendships)
    ensures OnePerPair(SendFriendRequest(db, caller, userId, newId, notificationId, inserted).db.friendships)
  {
    var o := SendFriendRequest(db, caller, userId, newId, notificationId, inserted);
    if o.response.Done? {
      var fs := db.friendships;
      var r := o.db.friendships;
      forall i, j | 0 <= i < j < |r|
        ensures Apart(r[i], r[j])
      {
        if j == |fs| {
          assert r[i] == fs[i] && fs[i] in fs;
          assert !Links(fs[i], caller.id, userId);
        } else {
          assert r[i] == fs[i] && r[j] == fs[j];
        }
      }
    }
  }

  lemma AcceptKeepsOnePerPair(db: State, caller: Caller, requestId: Id, notificationId: Id, inserted: bool)
    requires OnePerPair(db.friendships)
    ensures OnePerPair(AcceptFriendRequest(db, caller, requestId, notificationId, inserted).db.friendships)
  {
    var r := AcceptFriendRequest(db, caller, requestId, notificationId, inserted).db.friendships;
    if AcceptFriendRequest(db, caller, requestId, notificationId, inserted).response.Done? {
      var fs := db.friendships;
      assert r == AcceptRecord(fs, requestId);
      forall i, j | 0 <= i < j < |r|
        ensures Apart(r[i], r[j])
      {
        assert Apart(fs[i], fs[j]);
      }
    }
  }

  /** Under sequential execution, no sequence of friendship actions creates
      a second record for a pair of users. */
  lemma {:induction false} OnePerPairPreserved(db: State, ops: seq<FriendOp>)
    requires OnePerPair(db.friendships)
    ensures OnePerPair(ApplyOps(db, ops).friendships)
    decreases |ops|
  {
    if ops != [] {
      match ops[0] {
        case Request(caller, userId, newId, notificationId, inserted) =>
          RequestKeepsOnePerPair(db, caller, userId, newId, notificationId, inserted);
        case Accept(caller, requestId, notificationId, inserted) =>
          AcceptKeepsOnePerPair(db, caller, requestId, notificationId, inserted);
        case Reject(caller, requestId, notificationId, inserted) =>
          FilterPairwise(db.friendships, OtherThan(requestId), Apart);
        case Remove(caller, userId) =>
          var f := FindBetween(db.friendships, caller.id, userId);
          if f.Some? {
            FilterPairwise(db.friendships, OtherThan(f.value.id), Apart);
          }
      }
      OnePerPairPreserved(ApplyOp(db, ops[0]), ops[1..]);
    }
  }
}
