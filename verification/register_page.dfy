/** The registration page (frontend/src/pages/Register.jsx): the client
    checks run before the request, the body it sends, and how they relate
    to the server's `registerSchema`. */
module RegisterPage {
  import opened Js
  import Schemas
  import Middleware
  import ApiErrors

  datatype Form = Form(name: string, email: string, password: string, confirmPassword: string)

  /** The checks of `handleSubmit`, in order; the first failure is reported.
      The confirmation is not part of the emptiness check. */
  function ClientError(f: Form): (r: Option<string>)
    ensures (f.name == "" || f.email == "" || f.password == "") ==> r == Some("Please fill in all fields")
    ensures f.name != "" && f.email != "" && f.password != "" && f.password != f.confirmPassword ==>
      r == Some("Passwords do not match")
    ensures f.name != "" && f.email != "" && f.password == f.confirmPassword && 0 < |f.password| < 6 ==>
      r == Some("Password must be at least 6 characters")
    ensures (f.name != "" && f.email != "" && f.password == f.confirmPassword && |f.password| >= 6
      && (|f.name| < 2 || |f.name| > 15)) ==> r == Some("Name must be between 2 and 15 characters")
    ensures r.None? <==>
      f.email != "" && f.password == f.confirmPassword && |f.password| >= 6 && 2 <= |f.name| <= 15
  {
    if f.name == "" || f.email == "" || f.password == "" then Some("Please fill in all fields")
    else if f.password != f.confirmPassword then Some("Passwords do not match")
    else if |f.password| < 6 then Some("Password must be at least 6 characters")
    else if |f.name| < 2 || |f.name| > 15 then Some("Name must be between 2 and 15 characters")
    else None
  }

  /** An empty confirmation under a non-empty password is reported as a
      mismatch, not as a missing field. */
  lemma EmptyConfirmIsMismatch(name: string, email: string, password: string)
    requires name != "" && email != "" && password != ""
    ensures ClientError(Form(name, email, password, "")) == Some("Passwords do not match")
  {
  }

  /** The body given to `register.mutateAsync`: the four fields unchanged. */
  function Payload(f: Form): Schemas.Body {
    map["name" := JString(f.name), "email" := JString(f.email),
        "password" := JString(f.password), "confirmPassword" := JString(f.confirmPassword)]
  }

  /** The client checks and the server's schema agree on every form whose
      email, when filled in, is one the server accepts as an address: the
      page sends exactly the forms the route lets through. */
  lemma ClientAgreesWithServer(f: Form, fm: Schemas.Formats)
    requires f.email != "" ==> fm.isEmail(f.email)
    ensures ClientError(f).None? <==> Schemas.Register(Payload(f), fm).None?
  {
    var body := Payload(f);
    assert body.Keys == {"name", "email", "password", "confirmPassword"};
  }

  /** The page's state after a submit: the body sent (if any) and the error
      text (empty when there is none). */
  datatype Submitted = Submitted(request: Option<Schemas.Body>, error: string)

  const RegisterFallback := "Registration failed. Please try again."

  /** The submit flow with `failure` as the text a rejection shows. */
  function Settle(f: Form, rejected: bool, failure: string): Submitted {
    match ClientError(f)
    case Some(text) => Submitted(None, text)
    case None => Submitted(Some(Payload(f)), if rejected then failure else "")
  }

  /** `handleSubmit` as written: nothing is sent when a check fails;
      otherwise the form is sent, a success leaves the error empty and a
      rejection shows the answer's `message`, else the fixed fallback. */
  function Submit(f: Form, rejected: Option<Option<Middleware.ErrorBody>>): (r: Submitted)
    ensures r.request.Some? <==> ClientError(f).None?
    ensures r.request.None? ==> r.error == ClientError(f).value
    ensures r.request.Some? ==> r.request.value == Payload(f)
    ensures r.request.Some? && rejected.None? ==> r.error == ""
    ensures r.request.Some? && rejected.Some? && ApiErrors.MessageKey(rejected.value).None? ==> r.error == RegisterFallback
    ensures r.request.Some? && rejected.Some? && Filled(ApiErrors.MessageKey(rejected.value)) ==>
      r.error == ApiErrors.MessageKey(rejected.value).value
  {
    Settle(f, rejected.Some?, if rejected.Some? then ApiErrors.ShownAsWritten(rejected.value, RegisterFallback) else "")
  }

  /** The submit as evidently intended: a rejection shows the server's
      reason (its `message`, else its `error`). */
  function SubmitIntended(f: Form, rejected: Option<Option<Middleware.ErrorBody>>): (r: Submitted)
    ensures r.request.Some? <==> ClientError(f).None?
    ensures r.request.None? ==> r.error == ClientError(f).value
    ensures r.request.Some? ==> r.request.value == Payload(f)
    ensures r.request.Some? && rejected.None? ==> r.error == ""
    ensures r.request.Some? && rejected.Some? && rejected.value.Some? && !Filled(ApiErrors.MessageKey(rejected.value))
            && rejected.value.value.error != "" ==>
      r.error == rejected.value.value.error
    ensures r.request.Some? && rejected == Some(None) ==> r.error == RegisterFallback
    ensures r.request.Some? && rejected.Some? && Filled(ApiErrors.MessageKey(rejected.value)) ==>
      r.error == ApiErrors.MessageKey(rejected.value).value
  {
    Settle(f, rejected.Some?, if rejected.Some? then ApiErrors.Shown(rejected.value, RegisterFallback) else "")
  }

  /** A form that passes the client checks but whose email the server
      refuses is answered 400 "Validation failed", which the corrected page
      shows and the page as written replaces by its fixed text. */
  lemma RejectedEmailShown(f: Form, fm: Schemas.Formats)
    requires ClientError(f).None? && !fm.isEmail(f.email)
    ensures var step := Middleware.ValidateRequest(Schemas.Register(Payload(f), fm));
      && step.Answer? && step.status == 400
      && Submit(f, Some(Some(step.body))).error == RegisterFallback
      && SubmitIntended(f, Some(Some(step.body))).error == "Validation failed"
  {
  }
}
