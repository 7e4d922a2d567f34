/** The post composer (frontend/src/components/feed/CreatePost.jsx): what
    may be posted, the body it sends, the reset after a success, the Post
    button's state and the greeting's first name. */
module CreatePost {
  import opened Js
  import opened Domain
  import Schemas
  import PostController

  /** The composer's state; a chosen file is known by its name here. */
  datatype Composer = Composer(content: string, imageFile: Option<string>, isUploading: bool)

  const EmptyComposer := Composer("", None, false)

  /** `content.trim() || imageFile`: there is something to post. */
  predicate HasSomething(c: Composer) {
    Trim(c.content) != "" || c.imageFile.Some?
  }

  /** The Post button is disabled when there is nothing to post or an
      upload is running. */
  predicate PostDisabled(c: Composer) {
    !HasSomething(c) || c.isUploading
  }

  /** `handleImageSelect`: a chosen file replaces the selection; closing the
      picker without a file changes nothing. */
  function SelectImage(c: Composer, file: Option<string>): (r: Composer)
    ensures file.Some? ==> r == c.(imageFile := file)
    ensures file.None? ==> r == c
  {
    if file.Some? then c.(imageFile := file) else c
  }

  /** `handleRemoveImage`. */
  function RemoveImage(c: Composer): (r: Composer)
    ensures r.imageFile.None? && r.content == c.content && r.isUploading == c.isUploading
  {
    c.(imageFile := None)
  }

  /** The body of `createPost.mutateAsync`: the trimmed content and the
      uploaded image's URL, `null` without a file. */
  datatype Payload = Payload(content: string, image: JStr)

  function PayloadBody(p: Payload): Schemas.Body {
    map["content" := JString(p.content), "image" := if p.image.Str? then JString(p.image.s) else JNull]
  }

  datatype Toast = NoToast | Posted | PostFailed

  /** The outcome of a submit: the body sent (if any), the toast, and the
      composer afterwards. */
  datatype Submitted = Submitted(request: Option<Payload>, toast: Toast, after: Composer)

  /** `handleSubmit`, given the upload's URL (`None` when the upload threw)
      and whether the create call succeeded. With nothing to post it does
      nothing; an upload failure sends nothing; a success clears the text
      and the selection; every attempt ends with the upload flag down. */
  function Submit(c: Composer, uploaded: Option<string>, created: bool): (r: Submitted)
    ensures !HasSomething(c) ==> r == Submitted(None, NoToast, c)
    ensures HasSomething(c) ==> r.after.isUploading == false
    ensures r.request.Some? <==> HasSomething(c) && (c.imageFile.None? || uploaded.Some?)
    ensures r.request.Some? ==> r.request.value.content == Trim(c.content)
    ensures r.request.Some? && c.imageFile.None? ==> r.request.value.image == Null
    ensures r.request.Some? && c.imageFile.Some? ==> r.request.value.image == Str(uploaded.value)
    ensures r.request.Some? && created ==> r.toast == Posted && r.after == EmptyComposer
    ensures HasSomething(c) && !(r.request.Some? && created) ==>
      r.toast == PostFailed && r.after == c.(isUploading := false)
  {
    if !HasSomething(c) then Submitted(None, NoToast, c)
    else if c.imageFile.Some? && uploaded.None? then Submitted(None, PostFailed, c.(isUploading := false))
    else
      var image := if c.imageFile.Some? then Str(uploaded.value) else Null;
      var p := Payload(Trim(c.content), image);
      if created then Submitted(Some(p), Posted, RemoveImage(c.(content := "", isUploading := false)))
      else Submitted(Some(p), PostFailed, c.(isUploading := false))
  }

  /** Pressing the enabled Post button always gets past the guard: a
      toast follows, and the upload flag ends down. */
  lemma EnabledButtonSubmits(c: Composer, uploaded: Option<string>, created: bool)
    requires !PostDisabled(c)
    ensures Submit(c, uploaded, created).toast != NoToast
    ensures !Submit(c, uploaded, created).after.isUploading
  {
  }

  /** Whatever the composer sends with a non-empty upload URL, the server's
      `createPost` accepts: the guard leaves content or an image. */
  lemma SentPostIsCreated(db: State, caller: Caller, c: Composer, uploaded: Option<string>, created: bool, newId: Id)
    requires Submit(c, uploaded, created).request.Some?
    requires uploaded.Some? ==> uploaded.value != ""
    ensures var p := Submit(c, uploaded, created).request.value;
      PostController.CreatePost(db, caller, Str(p.content), p.image, None, newId).response.Done?
  {
  }

  /** The sent body passes `createPostSchema` exactly when the text has at
      most 5000 characters and the image, if any, is a URI. */
  lemma SentPostValidates(c: Composer, uploaded: Option<string>, created: bool, fm: Schemas.Formats)
    requires Submit(c, uploaded, created).request.Some?
    ensures var p := Submit(c, uploaded, created).request.value;
      Schemas.CreatePost(PayloadBody(p), fm).None? <==>
        |p.content| <= 5000 && (p.image.Str? ==> p.image.s != "" && fm.isUri(p.image.s))
  {
    PayloadValidates(Submit(c, uploaded, created).request.value, fm);
  }

  /** `createPostSchema` on a composer body: at most 5000 characters of
      text and an image that is `null` or a non-empty URI. */
  lemma PayloadValidates(p: Payload, fm: Schemas.Formats)
    ensures Schemas.CreatePost(PayloadBody(p), fm).None? <==>
      |p.content| <= 5000 && (p.image.Str? ==> p.image.s != "" && fm.isUri(p.image.s))
  {
    var body := PayloadBody(p);
    assert body.Keys == {"content", "image"};
    assert body["content"] == JString(p.content);
  }

  /** `user?.name?.split(' ')[0] || 'there'`. */
  function FirstName(name: JStr): (r: string)
    ensures !Truthy(name) ==> r == "there"
    ensures r != "there" ==> Truthy(name) && StartsWith(name.s, r) && ' ' !in r
  {
    if !name.Str? then "there"
    else
      var first := Split(name.s, ' ')[0];
      SplitFirst(name.s, ' ');
      if first != "" then first else "there"
  }

  /** The greeting uses the name up to its first space; a name starting
      with a space gets the default. */
  lemma FirstNameWord(name: string)
    requires name != ""
    ensures name[0] == ' ' ==> FirstName(Str(name)) == "there"
    ensures name[0] != ' ' ==>
      var r := FirstName(Str(name));
      r != [] && StartsWith(name, r) && ' ' !in r && (|r| == |name| || name[|r|] == ' ')
  {
    SplitFirst(name, ' ');
  }
}
