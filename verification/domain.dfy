/** The relational state the controllers read and write (users, friendships,
    posts, likes, comments, messages, notifications), the HTTP responses they
    produce, and the friendship test shared by the message and post controllers.
    Each table is a sequence in insertion order; ordering by `createdAt` is
    that order (ascending) or its reverse (descending). */
module Domain {
  import opened Js
  import opened Seqs

  type Id = string

  datatype User = User(
    id: Id, name: string, email: string, username: Option<string>, password: string,
    bio: Option<string>, location: Option<string>, website: Option<string>,
    avatarUrl: Option<string>, coverUrl: Option<string>)

  datatype FriendStatus = Pending | Accepted

  datatype Friendship = Friendship(id: Id, requesterId: Id, addresseeId: Id, status: FriendStatus)

  /** A post; `media` holds the URLs of its image rows. */
  datatype Post = Post(id: Id, authorId: Id, content: Option<string>, media: seq<string>)

  datatype Like = Like(id: Id, postId: Id, userId: Id)

  datatype Comment = Comment(id: Id, postId: Id, authorId: Id, content: string)

  /** A direct message; the same record is what the client receives as JSON. */
  datatype Message = Message(id: Id, senderId: Id, receiverId: Id, content: string, isRead: bool)

  /** A persisted notification; `kind` is the `type` column. */
  datatype Notification = Notification(
    id: Id, userId: Id, senderId: Option<Id>, postId: Option<Id>,
    kind: string, content: string, read: bool)

  datatype State = State(
    users: seq<User>, friendships: seq<Friendship>, posts: seq<Post>, likes: seq<Like>,
    comments: seq<Comment>, messages: seq<Message>, notifications: seq<Notification>)

  /** An HTTP answer: a success status with a body, or an error status with the `error` text. */
  datatype Response<T> = Done(status: int, value: T) | Fail(status: int, error: string)

  /** A controller's answer together with the state after it. */
  datatype Outcome<T> = Outcome(response: Response<T>, db: State)

  /** The authenticated caller, `req.user`. */
  datatype Caller = Caller(id: Id, name: string)

  /** `prisma.user.findUnique({ where: { id } })`. */
  function FindUser(users: seq<User>, id: Id): (r: Option<User>)
    ensures r.Some? <==> exists u :: u in users && u.id == id
    ensures r.Some? ==> r.value in users && r.value.id == id
  {
    if users == [] then None
    else if users[0].id == id then Some(users[0])
    else FindUser(users[1..], id)
  }

  /** The friendship record connects `a` and `b`, in either direction. */
  predicate Links(f: Friendship, a: Id, b: Id) {
    (f.requesterId == a && f.addresseeId == b) || (f.requesterId == b && f.addresseeId == a)
  }

  /** `findFirst` over friendships with `OR` on both directions: the first
      record linking the pair. */
  function FindBetween(fs: seq<Friendship>, a: Id, b: Id): (r: Option<Friendship>)
    ensures r.Some? <==> exists f :: f in fs && Links(f, a, b)
    ensures r.Some? ==> r.value in fs && Links(r.value, a, b)
  {
    if fs == [] then None
    else if Links(fs[0], a, b) then Some(fs[0])
    else FindBetween(fs[1..], a, b)
  }

  /** `findFirst` over accepted friendships linking the pair. */
  function FindAccepted(fs: seq<Friendship>, a: Id, b: Id): (r: Option<Friendship>)
    ensures r.Some? <==> exists f :: f in fs && f.status == Accepted && Links(f, a, b)
  {
    if fs == [] then None
    else if fs[0].status == Accepted && Links(fs[0], a, b) then Some(fs[0])
    else FindAccepted(fs[1..], a, b)
  }

  /** `areFriends` (message and post controllers): false when either id is
      falsy, otherwise whether an accepted friendship links the two users in
      either direction; so it is symmetric. */
  function AreFriends(db: State, a: Id, b: Id): (r: bool)
    ensures r <==> a != "" && b != "" && exists f :: f in db.friendships && f.status == Accepted && Links(f, a, b)
    ensures r <==> a != "" && b != "" && exists f :: f in db.friendships && f.status == Accepted && Links(f, b, a)
  {
    if a == "" || b == "" then false
    else FindAccepted(db.friendships, a, b).Some?
  }

  /** An accepted record with the user on either side. */
  function AcceptedWith(userId: Id): Friendship -> bool {
    (f: Friendship) => f.status == Accepted && (f.requesterId == userId || f.addresseeId == userId)
  }

  /** The party of a record that is not `userId` (the requester unless the
      user is the requester). */
  function OtherParty(f: Friendship, userId: Id): Id {
    if f.requesterId == userId then f.addresseeId else f.requesterId
  }

  function OtherParties(fs: seq<Friendship>, userId: Id): (r: seq<Id>)
    ensures |r| == |fs|
    ensures forall i :: 0 <= i < |fs| ==> r[i] == OtherParty(fs[i], userId)
  {
    if fs == [] then [] else [OtherParty(fs[0], userId)] + OtherParties(fs[1..], userId)
  }

  /** The user's friends as the friendship and post controllers list them:
      the other party of each accepted record involving the user. */
  function FriendIds(db: State, userId: Id): (r: seq<Id>)
    ensures forall x :: x in r <==> (exists f :: (f in db.friendships && f.status == Accepted
      && ((f.requesterId == userId && f.addresseeId == x) || (f.addresseeId == userId && f.requesterId == x && f.requesterId != userId))))
  {
    OtherPartiesOfAccepted(db.friendships, userId);
    OtherParties(Filter(db.friendships, AcceptedWith(userId)), userId)
  }

  /** The other parties of the accepted records involving `userId` are
      exactly the users such a record pairs with `userId`. */
  lemma OtherPartiesOfAccepted(fs: seq<Friendship>, userId: Id)
    ensures forall x :: x in OtherParties(Filter(fs, AcceptedWith(userId)), userId) <==> (exists f :: (f in fs && f.status == Accepted
        && ((f.requesterId == userId && f.addresseeId == x) || (f.addresseeId == userId && f.requesterId == x && f.requesterId != userId))))
  {
    var mine := Filter(fs, AcceptedWith(userId));
    var r := OtherParties(mine, userId);
    forall x | x in r
      ensures exists f :: f in fs && AcceptedWith(userId)(f) && OtherParty(f, userId) == x
    {
      var i :| 0 <= i < |r| && r[i] == x;
      assert mine[i] in mine;
    }
    forall f | f in fs && AcceptedWith(userId)(f)
      ensures OtherParty(f, userId) in r
    {
      var i :| 0 <= i < |mine| && mine[i] == f;
      assert r[i] == OtherParty(f, userId);
    }
  }

  /** For non-empty ids, being listed among the friends is the `areFriends` test. */
  lemma FriendIdsAreFriends(db: State, userId: Id, x: Id)
    requires userId != "" && x != "" && x != userId
    ensures x in FriendIds(db, userId) <==> AreFriends(db, userId, x)
  {
  }

  /** The ids in use in a table, for the lemmas that need fresh ids. */
  function FriendshipIds(fs: seq<Friendship>): set<Id> {
    set f | f in fs :: f.id
  }
}
