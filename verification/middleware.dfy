/** The Express middleware (backend/src/middleware/): request validation,
    required fields, the error handler, the route-not-found answer, and the
    upload filter with its error mapper. Each one either hands the request
    on (`next()`) or answers it with an error status and a JSON body. */
module Middleware {
  import opened Js
  import opened Seqs
  import Schemas

  /** The one key an error body carries besides `error`. */
  datatype Extra =
    | NoExtra
    | Details(issues: seq<Schemas.Issue>)
    | Fields(names: seq<string>)
    | Field(target: JStr)
    | Path(url: string)
    | Message(text: string)

  /** A JSON error body `{ error: ..., <extra> }`. */
  datatype ErrorBody = ErrorBody(error: string, extra: Extra)

  /** What a middleware does with a request. */
  datatype Step = Next | Answer(status: int, body: ErrorBody)

  /** `validateRequest(schema)`, given the schema's verdict on the body.
      Joi stops at the first problem, so a rejected body is answered with
      exactly one detail. */
  function ValidateRequest(verdict: Option<Schemas.Issue>): (r: Step)
    ensures r.Next? <==> verdict.None?
    ensures r.Answer? ==>
      r.status == 400 && r.body.error == "Validation failed" && r.body.extra.Details? && r.body.extra.issues == [verdict.value]
  {
    match verdict
    case None => Next
    case Some(issue) => Answer(400, ErrorBody("Validation failed", Details([issue])))
  }

  /** The message route's validation passes exactly the bodies with a
      non-empty receiver id and 1 to 1000 characters of content. */
  lemma ValidateSendMessage(body: Schemas.Body, fm: Schemas.Formats)
    ensures ValidateRequest(Schemas.SendMessage(body, fm)).Next? <==>
      Schemas.StrIn(body, "receiverId", 0, None) && Schemas.StrIn(body, "content", 1, Some(1000))
      && body.Keys <= Schemas.MessageKeys
  {
  }

  /** `!req.body[field]`: an absent key and every falsy value (`""`, `0`,
      `false`, `null`) count as missing. */
  function MissingFrom(body: Schemas.Body): string -> bool {
    (field: string) => !(field in body && TruthyVal(body[field]))
  }

  /** `requireFields(...fields)`: the missing fields, in argument order,
      are answered with 400; with none missing the request goes on. */
  function RequireFields(body: Schemas.Body, fields: seq<string>): (r: Step)
    ensures r.Next? <==> forall i :: 0 <= i < |fields| ==> fields[i] in body && TruthyVal(body[fields[i]])
    ensures r.Answer? ==> r.status == 400 && r.body.error == "Missing required fields" && r.body.extra.Fields?
    ensures r.Answer? ==> forall f :: f in r.body.extra.names <==> f in fields && MissingFrom(body)(f)
    ensures r.Answer? ==> r.body.extra.names == Filter(fields, MissingFrom(body))
  {
    var missing := Filter(fields, MissingFrom(body));
    if |missing| > 0 then
      assert MissingFrom(body)(missing[0]) && missing[0] in fields;
      Answer(400, ErrorBody("Missing required fields", Fields(missing)))
    else
      assert forall i :: 0 <= i < |fields| ==> fields[i] in fields;
      Next
  }

  /** An empty field list always passes, and a zero or an empty string is
      reported as missing. */
  lemma RequireFieldsCases(body: Schemas.Body, field: string)
    ensures RequireFields(body, []) == Next
    ensures field in body && body[field] in {JNumber(0), JString(""), JBool(false), JNull} ==>
      RequireFields(body, [field]) == Answer(400, ErrorBody("Missing required fields", Fields([field])))
  {
    if field in body && body[field] in {JNumber(0), JString(""), JBool(false), JNull} {
      assert Filter([field], MissingFrom(body)) == [field];
    }
  }

  /** The error that reaches the error handler: the Prisma error `code`,
      `meta.target`, an HTTP `status` and the `message`. */
  datatype Err = Err(code: Option<string>, target: Option<seq<string>>, status: Option<int>, message: Option<string>)

  /** `err.meta?.target?.[0]`. */
  function FirstTarget(target: Option<seq<string>>): (r: JStr)
    ensures target.Some? && target.value != [] ==> r == Str(target.value[0])
    ensures target.None? || target.value == [] ==> r == Undefined
  {
    if target.Some? && target.value != [] then Str(target.value[0]) else Undefined
  }

  /** `errorHandler`: a unique-constraint violation (P2002) is a conflict
      naming the first target field, a missing record (P2025) is 404, and
      anything else answers with the error's own status (500 when absent or
      zero) and its message (a fixed text when absent or empty). It never
      hands the request on. */
  function ErrorHandler(err: Err): (r: Step)
    ensures r.Answer?
    ensures err.code == Some("P2002") ==>
      r == Answer(409, ErrorBody("A record with this data already exists", Field(FirstTarget(err.target))))
    ensures err.code == Some("P2025") ==> r == Answer(404, ErrorBody("Record not found", NoExtra))
    ensures err.code != Some("P2002") && err.code != Some("P2025") ==>
      && r.body.extra == NoExtra
      && (r.status == if err.status.Some? && err.status.value != 0 then err.status.value else 500)
      && (r.body.error == if Filled(err.message) then err.message.value else "Internal server error")
  {
    if err.code == Some("P2002") then
      Answer(409, ErrorBody("A record with this data already exists", Field(FirstTarget(err.target))))
    else if err.code == Some("P2025") then
      Answer(404, ErrorBody("Record not found", NoExtra))
    else
      var status := if err.status.Some? && err.status.value != 0 then err.status.value else 500;
      Answer(status, ErrorBody(OrElse(err.message, Some("Internal server error")).value, NoExtra))
  }

  /** A plain `Error(message)` with no code and no status becomes a 500
      carrying its message. */
  lemma PlainErrorIs500(message: string)
    requires message != ""
    ensures ErrorHandler(Err(None, None, None, Some(message))) == Answer(500, ErrorBody(message, NoExtra))
  {
  }

  /** `notFound`: every unmatched route is 404 with the requested path. */
  function NotFound(path: string): (r: Step)
    ensures r.Answer? && r.status == 404 && r.body.error == "Route not found" && r.body.extra == Path(path)
  {
    Answer(404, ErrorBody("Route not found", Path(path)))
  }

  /** An error raised while uploading: a Multer error with its code, or any
      other error (the file filter's). */
  datatype UploadErr = MulterError(code: string, message: string) | OtherError(message: string)

  /** `fileFilter`: a file is taken exactly when its MIME type starts with
      `image/`; otherwise the upload fails with a plain error. */
  function FileFilter(mimetype: string): (r: Option<UploadErr>)
    ensures r.None? <==> StartsWith(mimetype, "image/")
    ensures r.Some? ==> r.value == OtherError("Only image files are allowed!")
  {
    if StartsWith(mimetype, "image/") then None else Some(OtherError("Only image files are allowed!"))
  }

  /** `handleUploadError`: a too-large file gets a fixed text, every other
      upload error is reported with its own message, and no error hands the
      request on. All answers are 400 and carry a `message` key. */
  function HandleUploadError(err: Option<UploadErr>): (r: Step)
    ensures r.Next? <==> err.None?
    ensures r.Answer? ==> r.status == 400 && r.body.extra.Message?
    ensures err.Some? && err.value.MulterError? && err.value.code == "LIMIT_FILE_SIZE" ==>
      r.body == ErrorBody("File too large", Message("Image size must be less than 5MB"))
    ensures err.Some? && !(err.value.MulterError? && err.value.code == "LIMIT_FILE_SIZE") ==>
      r.body == ErrorBody("Upload error", Message(err.value.message))
  {
    match err
    case None => Next
    case Some(MulterError(code, message)) =>
      if code == "LIMIT_FILE_SIZE" then Answer(400, ErrorBody("File too large", Message("Image size must be less than 5MB")))
      else Answer(400, ErrorBody("Upload error", Message(message)))
    case Some(OtherError(message)) => Answer(400, ErrorBody("Upload error", Message(message)))
  }

  /** Through the filter and the error mapper, an upload goes on exactly
      when it is an image, and a non-image is answered 400 with the
      filter's text. */
  lemma UploadFilterAnswer(mimetype: string)
    ensures HandleUploadError(FileFilter(mimetype)).Next? <==> StartsWith(mimetype, "image/")
    ensures !StartsWith(mimetype, "image/") ==>
      HandleUploadError(FileFilter(mimetype)) == Answer(400, ErrorBody("Upload error", Message("Only image files are allowed!")))
  {
  }
}
