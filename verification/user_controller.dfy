/** The profile endpoints (backend/src/controllers/user.controller.js):
    reading one's own or another user's profile, the partial profile update
    with its username check, and the password change. Password hashing and
    comparison are parameters (the bcrypt oracles). */
module UserController {
  import opened Js
  import opened Seqs
  import opened Domain

  /** The fields `getMyProfile` and `updateMyProfile` select; there is no
      password field. */
  datatype Profile = Profile(
    id: Id, name: string, email: string, username: Option<string>,
    bio: Option<string>, location: Option<string>, website: Option<string>,
    avatarUrl: Option<string>, coverUrl: Option<string>)

  function ProfileOf(u: User): (p: Profile)
    ensures p.id == u.id && p.name == u.name && p.email == u.email && p.username == u.username
    ensures p.bio == u.bio && p.location == u.location && p.website == u.website
    ensures p.avatarUrl == u.avatarUrl && p.coverUrl == u.coverUrl
  {
    Profile(u.id, u.name, u.email, u.username, u.bio, u.location, u.website, u.avatarUrl, u.coverUrl)
  }

  /** A profile response reveals nothing about the password: users that
      differ only in their password have the same profile. */
  lemma ProfileHidesPassword(db: State, u: User, password: string)
    ensures ProfileOf(u.(password := password)) == ProfileOf(u)
    ensures PublicOf(db, u.(password := password)) == PublicOf(db, u)
  {
  }

  /** `getMyProfile`: 404 when the caller's row is gone. */
  function GetMyProfile(db: State, caller: Caller): (r: Response<Profile>)
    ensures FindUser(db.users, caller.id).None? <==> r == Fail(404, "User not found")
    ensures r.Done? <==> FindUser(db.users, caller.id).Some?
    ensures r.Done? ==> (r.status == 200 && r.value.id == caller.id
      && exists u :: u in db.users && u.id == caller.id && r.value == ProfileOf(u))
  {
    match FindUser(db.users, caller.id)
    case None => Fail(404, "User not found")
    case Some(u) => Done(200, ProfileOf(u))
  }

  /** The fields `getUserById` selects: no email and no password, plus the
      number of posts and of friendship records on each side. */
  datatype PublicProfile = PublicProfile(
    id: Id, name: string, username: Option<string>,
    bio: Option<string>, location: Option<string>, website: Option<string>,
    avatarUrl: Option<string>, coverUrl: Option<string>,
    posts: nat, friendships1: nat, friendships2: nat)

  function PostBy(userId: Id): Post -> bool {
    (p: Post) => p.authorId == userId
  }

  function RequestedBy(userId: Id): Friendship -> bool {
    (f: Friendship) => f.requesterId == userId
  }

  function AddressedTo(userId: Id): Friendship -> bool {
    (f: Friendship) => f.addresseeId == userId
  }

  function PublicOf(db: State, u: User): (p: PublicProfile)
    ensures p.id == u.id && p.name == u.name && p.username == u.username
    ensures p.bio == u.bio && p.location == u.location && p.website == u.website
    ensures p.avatarUrl == u.avatarUrl && p.coverUrl == u.coverUrl
    ensures p.posts == |Filter(db.posts, PostBy(u.id))|
    ensures p.friendships1 == |Filter(db.friendships, RequestedBy(u.id))|
    ensures p.friendships2 == |Filter(db.friendships, AddressedTo(u.id))|
  {
    PublicProfile(u.id, u.name, u.username, u.bio, u.location, u.website, u.avatarUrl, u.coverUrl,
                  Count(db.posts, PostBy(u.id)), Count(db.friendships, RequestedBy(u.id)), Count(db.friendships, AddressedTo(u.id)))
  }

  /** `getUserById`: 404 for an unknown id. */
  function GetUserById(db: State, id: Id): (r: Response<PublicProfile>)
    ensures FindUser(db.users, id).None? <==> r == Fail(404, "User not found")
    ensures r.Done? <==> FindUser(db.users, id).Some?
    ensures r.Done? ==> (r.status == 200 && r.value.id == id
      && exists u :: u in db.users && u.id == id && r.value == PublicOf(db, u))
  {
    match FindUser(db.users, id)
    case None => Fail(404, "User not found")
    case Some(u) => Done(200, PublicOf(db, u))
  }

  /** The request body of `updateMyProfile`; every field may be absent. */
  datatype ProfileBody = ProfileBody(
    name: JStr, username: JStr, bio: JStr, location: JStr, website: JStr, avatarUrl: JStr, coverUrl: JStr)

  /** `prisma.user.findUnique({ where: { username } })`. */
  function FindByUsername(users: seq<User>, username: string): (r: Option<User>)
    ensures r.Some? <==> exists u :: u in users && u.username == Some(username)
    ensures r.Some? ==> r.value in users && r.value.username == Some(username)
  {
    if users == [] then None
    else if users[0].username == Some(username) then Some(users[0])
    else FindByUsername(users[1..], username)
  }

  /** A field set whenever the body supplies it, `""` and null included. */
  function Supplied(v: JStr, current: Option<string>): Option<string> {
    match v
    case Undefined => current
    case Null => None
    case Str(s) => Some(s)
  }

  /** An image field: the uploaded file's path if truthy, else the body's URL
      if truthy, else unchanged. */
  function Image(file: Option<string>, url: JStr, current: Option<string>): (r: Option<string>)
    ensures Filled(file) ==> r == file
    ensures !Filled(file) && Truthy(url) ==> r == Some(url.s)
    ensures !Filled(file) && !Truthy(url) ==> r == current
  {
    if Filled(file) then file else if Truthy(url) then Some(url.s) else current
  }

  /** The merge `updateMyProfile` applies to the caller's row. */
  function Merge(u: User, body: ProfileBody, profilePicture: Option<string>, coverPhoto: Option<string>): (r: User)
    ensures r.name == if Truthy(body.name) then body.name.s else u.name
    ensures r.username == if Truthy(body.username) then Some(body.username.s) else u.username
    ensures body.bio.Undefined? ==> r.bio == u.bio
    ensures body.bio.Null? ==> r.bio.None?
    ensures body.bio.Str? ==> r.bio == Some(body.bio.s)
    ensures body.location.Undefined? ==> r.location == u.location
    ensures body.location.Null? ==> r.location.None?
    ensures body.location.Str? ==> r.location == Some(body.location.s)
    ensures body.website.Undefined? ==> r.website == u.website
    ensures body.website.Null? ==> r.website.None?
    ensures body.website.Str? ==> r.website == Some(body.website.s)
    ensures Filled(profilePicture) ==> r.avatarUrl == profilePicture
    ensures !Filled(profilePicture) && Truthy(body.avatarUrl) ==> r.avatarUrl == Some(body.avatarUrl.s)
    ensures !Filled(profilePicture) && !Truthy(body.avatarUrl) ==> r.avatarUrl == u.avatarUrl
    ensures Filled(coverPhoto) ==> r.coverUrl == coverPhoto
    ensures !Filled(coverPhoto) && Truthy(body.coverUrl) ==> r.coverUrl == Some(body.coverUrl.s)
    ensures !Filled(coverPhoto) && !Truthy(body.coverUrl) ==> r.coverUrl == u.coverUrl
    ensures r.id == u.id && r.email == u.email && r.password == u.password
  {
    u.(name := if Truthy(body.name) then body.name.s else u.name,
       username := if Truthy(body.username) then Some(body.username.s) else u.username,
       bio := Supplied(body.bio, u.bio),
       location := Supplied(body.location, u.location),
       website := Supplied(body.website, u.website),
       avatarUrl := Image(profilePicture, body.avatarUrl, u.avatarUrl),
       coverUrl := Image(coverPhoto, body.coverUrl, u.coverUrl))
  }

  /** An empty body and no upload change nothing. */
  lemma MergeNothing(u: User)
    ensures Merge(u, ProfileBody(Undefined, Undefined, Undefined, Undefined, Undefined, Undefined, Undefined), None, None) == u
  {
  }

  function MergeRows(users: seq<User>, id: Id, body: ProfileBody, profilePicture: Option<string>, coverPhoto: Option<string>): (r: seq<User>)
    ensures |r| == |users|
    ensures forall i :: 0 <= i < |users| ==> r[i] == if users[i].id == id then Merge(users[i], body, profilePicture, coverPhoto) else users[i]
  {
    if users == [] then []
    else [if users[0].id == id then Merge(users[0], body, profilePicture, coverPhoto) else users[0]]
         + MergeRows(users[1..], id, body, profilePicture, coverPhoto)
  }

  /** `updateMyProfile`: 400 when a truthy username is held by another user;
      a missing caller row makes the update throw, answered with 500 and the
      engine's message (a parameter here); otherwise the merged profile. */
  function UpdateMyProfile(db: State, caller: Caller, body: ProfileBody, profilePicture: Option<string>, coverPhoto: Option<string>,
                           engineError: string): (o: Outcome<Profile>)
    ensures Truthy(body.username) && FindByUsername(db.users, body.username.s).Some?
      && FindByUsername(db.users, body.username.s).value.id != caller.id
      <==> o == Outcome(Fail(400, "Username already taken"), db)
    ensures o.response.Done? <==> o.response != Fail(400, "Username already taken") && FindUser(db.users, caller.id).Some?
    ensures o.response.Fail? ==> o.db == db
    ensures o.response.Done? ==>
      && o.response == Done(200, ProfileOf(Merge(FindUser(db.users, caller.id).value, body, profilePicture, coverPhoto)))
      && o.db == db.(users := MergeRows(db.users, caller.id, body, profilePicture, coverPhoto))
  {
    if Truthy(body.username) && FindByUsername(db.users, body.username.s).Some?
       && FindByUsername(db.users, body.username.s).value.id != caller.id
    then Outcome(Fail(400, "Username already taken"), db)
    else match FindUser(db.users, caller.id)
      case None => Outcome(Fail(500, engineError), db)
      case Some(u) =>
        Outcome(Done(200, ProfileOf(Merge(u, body, profilePicture, coverPhoto))),
                db.(users := MergeRows(db.users, caller.id, body, profilePicture, coverPhoto)))
  }

  /** User rows have distinct ids and distinct usernames (the unique
      columns). */
  predicate DistinctUsers(a: User, b: User) {
    a.id != b.id && (a.username.Some? ==> a.username != b.username)
  }

  predicate UniqueUsers(users: seq<User>) {
    Pairwise(users, DistinctUsers)
  }

  /** With unique usernames, the username check refuses exactly the
      usernames another user holds; keeping one's own is allowed. */
  lemma UsernameTakenIffOtherHolder(db: State, caller: Caller, body: ProfileBody, profilePicture: Option<string>,
                                    coverPhoto: Option<string>, engineError: string)
    requires UniqueUsers(db.users)
    ensures UpdateMyProfile(db, caller, body, profilePicture, coverPhoto, engineError).response == Fail(400, "Username already taken")
      <==> Truthy(body.username) && exists u :: u in db.users && u.username == Some(body.username.s) && u.id != caller.id
  {
    if Truthy(body.username) && (exists u :: u in db.users && u.username == Some(body.username.s) && u.id != caller.id) {
      var u :| u in db.users && u.username == Some(body.username.s) && u.id != caller.id;
      FindByUsernameUnique(db.users, body.username.s, u);
    }
  }

  /** With unique usernames, the lookup finds the one holder. */
  lemma {:induction false} FindByUsernameUnique(us: seq<User>, name: string, u: User)
    requires UniqueUsers(us) && u in us && u.username == Some(name)
    ensures FindByUsername(us, name) == Some(u)
  {
    if us[0] != u {
      assert us[0].username != Some(name) by {
        var k :| 0 <= k < |us| && us[k] == u;
        assert k != 0;
        assert DistinctUsers(us[0], us[k]);
      }
      assert Pairwise(us[1..], DistinctUsers) by {
        forall i, j | 0 <= i < j < |us[1..]|
          ensures DistinctUsers(us[1..][i], us[1..][j])
        {
          assert DistinctUsers(us[i + 1], us[j + 1]);
        }
      }
      FindByUsernameUnique(us[1..], name, u);
    }
  }

  /** Merging into the rows of `id` keeps ids and usernames unique when no
      other user holds the new username. */
  lemma MergeRowsUnique(us: seq<User>, id: Id, body: ProfileBody, profilePicture: Option<string>, coverPhoto: Option<string>)
    requires UniqueUsers(us)
    requires Truthy(body.username) ==> forall u :: u in us && u.username == Some(body.username.s) ==> u.id == id
    ensures UniqueUsers(MergeRows(us, id, body, profilePicture, coverPhoto))
  {
    var r := MergeRows(us, id, body, profilePicture, coverPhoto);
    forall i, j | 0 <= i < j < |r|
      ensures DistinctUsers(r[i], r[j])
    {
      assert us[i] in us && us[j] in us;
      MergedPairDistinct(us[i], us[j], id, body, profilePicture, coverPhoto);
    }
  }

  /** Two distinct rows stay distinct after the merge into the rows of `id`
      when neither row of another user holds the new username. */
  lemma MergedPairDistinct(a: User, b: User, id: Id, body: ProfileBody, profilePicture: Option<string>, coverPhoto: Option<string>)
    requires DistinctUsers(a, b)
    requires Truthy(body.username) && a.username == Some(body.username.s) ==> a.id == id
    requires Truthy(body.username) && b.username == Some(body.username.s) ==> b.id == id
    ensures DistinctUsers(if a.id == id then Merge(a, body, profilePicture, coverPhoto) else a,
                          if b.id == id then Merge(b, body, profilePicture, coverPhoto) else b)
  {
  }

  /** A successful profile update keeps ids and usernames unique. */
  lemma UpdateKeepsUsersUnique(db: State, caller: Caller, body: ProfileBody, profilePicture: Option<string>,
                               coverPhoto: Option<string>, engineError: string)
    requires UniqueUsers(db.users)
    ensures UniqueUsers(UpdateMyProfile(db, caller, body, profilePicture, coverPhoto, engineError).db.users)
  {
    var o := UpdateMyProfile(db, caller, body, profilePicture, coverPhoto, engineError);
    if o.response.Done? {
      UsernameTakenIffOtherHolder(db, caller, body, profilePicture, coverPhoto, engineError);
      MergeRowsUnique(db.users, caller.id, body, profilePicture, coverPhoto);
    }
  }

  function SetPassword(users: seq<User>, id: Id, hashed: string): (r: seq<User>)
    ensures |r| == |users|
    ensures forall i :: 0 <= i < |users| ==> r[i] == if users[i].id == id then users[i].(password := hashed) else users[i]
  {
    if users == [] then []
    else [if users[0].id == id then users[0].(password := hashed) else users[0]] + SetPassword(users[1..], id, hashed)
  }

  /** The error JavaScript raises for `user.password` when `user` is null. */
  const NullPasswordRead := "Cannot read properties of null (reading 'password')"

  /** `updatePassword`: with `matches` standing for `bcrypt.compare` and
      `hash` for `bcrypt.hash`, 400 (and no change) when the current
      password does not match; otherwise only the caller's stored hash
      changes, to the hash of the new password. */
  function UpdatePassword(db: State, caller: Caller, currentPassword: string, newPassword: string,
                          matches: (string, string) -> bool, hash: string -> string): (o: Outcome<string>)
    ensures FindUser(db.users, caller.id).None? ==> o == Outcome(Fail(500, NullPasswordRead), db)
    ensures FindUser(db.users, caller.id).Some? && !matches(currentPassword, FindUser(db.users, caller.id).value.password)
      <==> o == Outcome(Fail(400, "Current password is incorrect"), db)
    ensures o.response.Done? <==>
      FindUser(db.users, caller.id).Some? && matches(currentPassword, FindUser(db.users, caller.id).value.password)
    ensures o.response.Done? ==>
      && o.response == Done(200, "Password updated successfully")
      && |o.db.users| == |db.users|
      && (forall i :: 0 <= i < |db.users| ==>
            (db.users[i].id == caller.id ==> o.db.users[i].password == hash(newPassword))
            && o.db.users[i].(password := db.users[i].password) == db.users[i])
      && o.db.(users := db.users) == db
  {
    match FindUser(db.users, caller.id)
    case None => Outcome(Fail(500, NullPasswordRead), db)
    case Some(u) =>
      if !matches(currentPassword, u.password) then Outcome(Fail(400, "Current password is incorrect"), db)
      else Outcome(Done(200, "Password updated successfully"), db.(users := SetPassword(db.users, caller.id, hash(newPassword))))
  }

  /** Setting the caller's hash leaves the caller's row, with the new hash,
      first among the rows with that id. */
  lemma {:induction false} FindSetPassword(users: seq<User>, id: Id, hashed: string)
    ensures FindUser(users, id).Some? ==>
      FindUser(SetPassword(users, id, hashed), id) == Some(FindUser(users, id).value.(password := hashed))
  {
    if users != [] && users[0].id != id {
      assert SetPassword(users, id, hashed)[1..] == SetPassword(users[1..], id, hashed);
      FindSetPassword(users[1..], id, hashed);
    }
  }

  /** Read back: after a successful change, with `matches` accepting a
      password against its own hash, the new password is the one that is
      accepted next time, and the caller's profile reads as before. */
  lemma PasswordChangeReadBack(db: State, caller: Caller, currentPassword: string, newPassword: string, nextPassword: string,
                               matches: (string, string) -> bool, hash: string -> string)
    requires forall p :: matches(p, hash(p))
    requires FindUser(db.users, caller.id).Some? && matches(currentPassword, FindUser(db.users, caller.id).value.password)
    ensures var first := UpdatePassword(db, caller, currentPassword, newPassword, matches, hash);
      var after := first.db;
      && first.response.Done?
      && UpdatePassword(after, caller, newPassword, nextPassword, matches, hash).response.Done?
      && GetMyProfile(after, caller) == GetMyProfile(db, caller)
  {
    FindSetPassword(db.users, caller.id, hash(newPassword));
    var u := FindUser(db.users, caller.id).value;
    ProfileHidesPassword(db, u, hash(newPassword));
  }
}
