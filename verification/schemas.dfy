/** The request-body schemas (the four files under backend/src/validations/) as
    predicates over a JSON body, following Joi's rules for the features the
    schemas use: a string field must be a string; `""` is refused unless
    allowed, `null` likewise; `min`/`max` bound the length; `required`
    refuses an absent key; `valid(ref)` demands the referenced value;
    unknown keys are refused unless the schema allows them; `or` demands
    one of its keys. Validation stops at the first problem: the fields in
    schema order, then unknown keys, then `or`. */
module Schemas {
  import opened Js

  /** A parsed JSON body: key to value; an absent key is `undefined`. */
  type Body = map<string, JVal>

  function Get(body: Body, key: string): Option<JVal> {
    if key in body then Some(body[key]) else None
  }

  /** The format checks Joi performs (`email()`, `uri()`); their grammars
      are not part of this model. */
  datatype Formats = Formats(isEmail: string -> bool, isUri: string -> bool)

  datatype Format = Plain | Email | Uri

  /** One `Joi.string()` field: `min(0)` stands for no minimum. */
  datatype StringRule = StringRule(
    required: bool, min: nat, max: Option<nat>, allowEmpty: bool, allowNull: bool, format: Format)

  datatype Kind = Required | NotString | Empty | TooShort | TooLong | NotEmail | NotUri | NotMatching

  /** The first problem found: the field and the broken rule, the keys no
      schema entry names, or the `or` group none of whose keys is present. */
  datatype Issue = FieldIssue(field: string, kind: Kind) | UnknownKeys(keys: set<string>) | MissingPeers(peers: set<string>)

  predicate FormatOk(format: Format, s: string, fm: Formats) {
    match format
    case Plain => true
    case Email => fm.isEmail(s)
    case Uri => fm.isUri(s)
  }

  /** Whether a value satisfies a string rule, stated directly. */
  predicate StringOk(rule: StringRule, v: Option<JVal>, fm: Formats) {
    match v
    case None => !rule.required
    case Some(JNull) => rule.allowNull
    case Some(JString(s)) =>
      if s == "" then rule.allowEmpty
      else rule.min <= |s| && (rule.max.None? || |s| <= rule.max.value) && FormatOk(rule.format, s, fm)
    case Some(_) => false
  }

  /** Checking one string field, in Joi's order: presence, type (with the
      allowed `null` and `""`), then the rules as declared. */
  function CheckString(field: string, rule: StringRule, v: Option<JVal>, fm: Formats): (r: Option<Issue>)
    ensures r.None? <==> StringOk(rule, v, fm)
    ensures r.Some? ==> r.value.FieldIssue? && r.value.field == field
    ensures r.Some? && v.None? ==> r.value.kind == Required
  {
    match v
    case None => if rule.required then Some(FieldIssue(field, Required)) else None
    case Some(JNull) => if rule.allowNull then None else Some(FieldIssue(field, NotString))
    case Some(JString(s)) =>
      if s == "" then (if rule.allowEmpty then None else Some(FieldIssue(field, Empty)))
      else if |s| < rule.min then Some(FieldIssue(field, TooShort))
      else if rule.max.Some? && |s| > rule.max.value then Some(FieldIssue(field, TooLong))
      else if rule.format == Email && !fm.isEmail(s) then Some(FieldIssue(field, NotEmail))
      else if rule.format == Uri && !fm.isUri(s) then Some(FieldIssue(field, NotUri))
      else None
    case Some(_) => Some(FieldIssue(field, NotString))
  }

  /** A required `valid(Joi.ref(other))` field: present and equal to the
      other key's value (an absent other key matches nothing). */
  function CheckSame(field: string, v: Option<JVal>, other: Option<JVal>): (r: Option<Issue>)
    ensures r.None? <==> v.Some? && v == other
    ensures r.Some? ==> r.value == FieldIssue(field, if v.None? then Required else NotMatching)
  {
    if v.None? then Some(FieldIssue(field, Required))
    else if v == other then None
    else Some(FieldIssue(field, NotMatching))
  }

  /** The first problem of two checks run in order. */
  function Then(a: Option<Issue>, b: Option<Issue>): (r: Option<Issue>)
    ensures r.None? <==> a.None? && b.None?
    ensures a.Some? ==> r == a
  {
    if a.Some? then a else b
  }

  /** Unknown keys are refused for a schema without `.unknown(true)`. */
  function CheckKnown(body: Body, known: set<string>): (r: Option<Issue>)
    ensures r.None? <==> body.Keys <= known
    ensures r.Some? ==> r.value == UnknownKeys(body.Keys - known)
  {
    if body.Keys <= known then None else Some(UnknownKeys(body.Keys - known))
  }

  // registerSchema

  const RegisterName := StringRule(true, 2, Some(15), false, false, Plain)
  const RegisterEmail := StringRule(true, 0, None, false, false, Email)
  const RegisterPassword := StringRule(true, 6, None, false, false, Plain)
  const RegisterBio := StringRule(false, 0, Some(200), true, false, Plain)
  const RegisterKeys := {"name", "email", "password", "confirmPassword", "bio"}

  /** A present non-empty string of length `lo..hi` (`hi` absent: unbounded). */
  predicate StrIn(body: Body, key: string, lo: nat, hi: Option<nat>) {
    key in body && body[key].JString? && body[key].s != ""
      && lo <= |body[key].s| && (hi.None? || |body[key].s| <= hi.value)
  }

  /** `registerSchema`: accepted exactly when the name has 2 to 15
      characters, the email is a well-formed address, the password has at
      least 6 characters, `confirmPassword` repeats it, the optional bio
      is a string of at most 200 characters (`""` allowed), and no other
      key is present. */
  function Register(body: Body, fm: Formats): (r: Option<Issue>)
    ensures r.None? <==>
      && StrIn(body, "name", 2, Some(15))
      && StrIn(body, "email", 0, None) && fm.isEmail(body["email"].s)
      && StrIn(body, "password", 6, None)
      && "confirmPassword" in body && body["confirmPassword"] == body["password"]
      && ("bio" in body ==> body["bio"].JString? && |body["bio"].s| <= 200)
      && body.Keys <= RegisterKeys
  {
    Then(CheckString("name", RegisterName, Get(body, "name"), fm),
    Then(CheckString("email", RegisterEmail, Get(body, "email"), fm),
    Then(CheckString("password", RegisterPassword, Get(body, "password"), fm),
    Then(CheckSame("confirmPassword", Get(body, "confirmPassword"), Get(body, "password")),
    Then(CheckString("bio", RegisterBio, Get(body, "bio"), fm),
         CheckKnown(body, RegisterKeys))))))
  }

  // loginSchema

  const LoginPassword := StringRule(true, 0, None, false, false, Plain)
  const LoginKeys := {"email", "password"}

  /** `loginSchema`: a well-formed email and a non-empty password of any
      length, nothing else. */
  function Login(body: Body, fm: Formats): (r: Option<Issue>)
    ensures r.None? <==>
      && StrIn(body, "email", 0, None) && fm.isEmail(body["email"].s)
      && StrIn(body, "password", 0, None)
      && body.Keys <= LoginKeys
  {
    Then(CheckString("email", RegisterEmail, Get(body, "email"), fm),
    Then(CheckString("password", LoginPassword, Get(body, "password"), fm),
         CheckKnown(body, LoginKeys)))
  }

  // updateProfileSchema (unknown keys allowed)

  const ProfileName := StringRule(false, 2, Some(50), false, true, Plain)
  const ProfileUsername := StringRule(false, 2, Some(50), true, true, Plain)
  const ProfileBio := StringRule(false, 0, Some(200), true, true, Plain)
  const ProfileLocation := StringRule(false, 0, Some(100), true, true, Plain)
  const ProfileLink := StringRule(false, 0, None, true, true, Uri)

  /** Absent, `null`, or a string passing `ok` (`""` passing when allowed). */
  predicate NullOr(body: Body, key: string, ok: string -> bool) {
    key in body ==> body[key].JNull? || (body[key].JString? && ok(body[key].s))
  }

  /** `updateProfileSchema`: `name` absent, null or 2..50 characters;
      `username` absent, null, `""` or 2..50; `bio` up to 200 and
      `location` up to 100 (each also `""`/null); the three links absent,
      null, `""` or URIs; any other key is let through. */
  function UpdateProfile(body: Body, fm: Formats): (r: Option<Issue>)
    ensures r.None? <==>
      && NullOr(body, "name", (s: string) => 2 <= |s| <= 50)
      && NullOr(body, "username", (s: string) => s == "" || 2 <= |s| <= 50)
      && NullOr(body, "bio", (s: string) => |s| <= 200)
      && NullOr(body, "location", (s: string) => |s| <= 100)
      && NullOr(body, "website", (s: string) => s == "" || fm.isUri(s))
      && NullOr(body, "avatarUrl", (s: string) => s == "" || fm.isUri(s))
      && NullOr(body, "coverUrl", (s: string) => s == "" || fm.isUri(s))
  {
    Then(CheckString("name", ProfileName, Get(body, "name"), fm),
    Then(CheckString("username", ProfileUsername, Get(body, "username"), fm),
    Then(CheckString("bio", ProfileBio, Get(body, "bio"), fm),
    Then(CheckString("location", ProfileLocation, Get(body, "location"), fm),
    Then(CheckString("website", ProfileLink, Get(body, "website"), fm),
    Then(CheckString("avatarUrl", ProfileLink, Get(body, "avatarUrl"), fm),
         CheckString("coverUrl", ProfileLink, Get(body, "coverUrl"), fm)))))))
  }

  // updatePasswordSchema

  const CurrentPassword := StringRule(true, 0, None, false, false, Plain)
  const NewPassword := StringRule(true, 6, None, false, false, Plain)
  const PasswordKeys := {"currentPassword", "newPassword"}

  /** `updatePasswordSchema`: a non-empty current password and a new one of
      at least 6 characters, nothing else. */
  function UpdatePassword(body: Body, fm: Formats): (r: Option<Issue>)
    ensures r.None? <==>
      StrIn(body, "currentPassword", 0, None) && StrIn(body, "newPassword", 6, None) && body.Keys <= PasswordKeys
  {
    Then(CheckString("currentPassword", CurrentPassword, Get(body, "currentPassword"), fm),
    Then(CheckString("newPassword", NewPassword, Get(body, "newPassword"), fm),
         CheckKnown(body, PasswordKeys)))
  }

  // createPostSchema

  const PostContent := StringRule(false, 0, Some(5000), true, true, Plain)
  const PostImage := StringRule(false, 0, None, false, true, Uri)
  const CreatePostKeys := {"content", "image"}

  /** `or('content', 'image')`: one of the keys must be present (a `null`
      counts as present). */
  function CheckOr(body: Body, peers: set<string>): (r: Option<Issue>)
    ensures r.None? <==> exists k :: k in peers && k in body
    ensures r.Some? ==> r.value == MissingPeers(peers)
  {
    if exists k :: k in peers && k in body then None else Some(MissingPeers(peers))
  }

  /** `createPostSchema`: content absent, null, `""` or at most 5000
      characters; image absent, null or a URI; nothing else; and at least
      one of the two keys present. */
  function CreatePost(body: Body, fm: Formats): (r: Option<Issue>)
    ensures r.None? <==>
      && NullOr(body, "content", (s: string) => |s| <= 5000)
      && NullOr(body, "image", (s: string) => s != "" && fm.isUri(s))
      && body.Keys <= CreatePostKeys
      && ("content" in body || "image" in body)
  {
    Then(CheckString("content", PostContent, Get(body, "content"), fm),
    Then(CheckString("image", PostImage, Get(body, "image"), fm),
    Then(CheckKnown(body, CreatePostKeys),
         CheckOr(body, CreatePostKeys))))
  }

  // updatePostSchema

  const UpdateContent := StringRule(false, 1, Some(5000), false, false, Plain)

  /** `updatePostSchema`: content, when present, is a string of 1 to 5000
      characters; nothing else. */
  function UpdatePost(body: Body, fm: Formats): (r: Option<Issue>)
    ensures r.None? <==> ("content" in body ==> StrIn(body, "content", 1, Some(5000))) && body.Keys <= {"content"}
  {
    Then(CheckString("content", UpdateContent, Get(body, "content"), fm),
         CheckKnown(body, {"content"}))
  }

  // addCommentSchema

  const CommentContent := StringRule(true, 1, Some(500), false, false, Plain)

  /** `addCommentSchema`: content of 1 to 500 characters; nothing else. */
  function AddComment(body: Body, fm: Formats): (r: Option<Issue>)
    ensures r.None? <==> StrIn(body, "content", 1, Some(500)) && body.Keys <= {"content"}
  {
    Then(CheckString("content", CommentContent, Get(body, "content"), fm),
         CheckKnown(body, {"content"}))
  }

  // sendMessageSchema

  const ReceiverId := StringRule(true, 0, None, false, false, Plain)
  const MessageContent := StringRule(true, 1, Some(1000), false, false, Plain)
  const MessageKeys := {"receiverId", "content"}

  /** `sendMessageSchema`: a non-empty receiver id and content of 1 to 1000
      characters; nothing else. */
  function SendMessage(body: Body, fm: Formats): (r: Option<Issue>)
    ensures r.None? <==>
      StrIn(body, "receiverId", 0, None) && StrIn(body, "content", 1, Some(1000)) && body.Keys <= MessageKeys
  {
    Then(CheckString("receiverId", ReceiverId, Get(body, "receiverId"), fm),
    Then(CheckString("content", MessageContent, Get(body, "content"), fm),
         CheckKnown(body, MessageKeys)))
  }
}
