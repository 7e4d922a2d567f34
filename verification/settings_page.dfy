/** The settings page (frontend/src/pages/Settings.jsx): the two forms'
    change handlers and the password form's submit, with its client checks,
    its request and the banner it shows. */
module SettingsPage {
  import opened Js
  import opened Domain
  import Schemas
  import Middleware
  import ApiErrors
  import UserController

  /** The inputs of the profile form, by their `name` attribute. */
  datatype ProfileField = NameField | UsernameField | BioField | EmailField | LocationField | WebsiteField

  datatype ProfileForm = ProfileForm(name: string, username: string, bio: string, email: string, location: string, website: string)

  function ProfileValue(f: ProfileForm, field: ProfileField): string {
    match field
    case NameField => f.name
    case UsernameField => f.username
    case BioField => f.bio
    case EmailField => f.email
    case LocationField => f.location
    case WebsiteField => f.website
  }

  /** `handleProfileChange`: `{ ...profileData, [name]: value }`. */
  function ChangeProfile(f: ProfileForm, field: ProfileField, value: string): (r: ProfileForm)
    ensures ProfileValue(r, field) == value
    ensures forall other :: other != field ==> ProfileValue(r, other) == ProfileValue(f, other)
  {
    match field
    case NameField => f.(name := value)
    case UsernameField => f.(username := value)
    case BioField => f.(bio := value)
    case EmailField => f.(email := value)
    case LocationField => f.(location := value)
    case WebsiteField => f.(website := value)
  }

  /** The inputs of the password form. */
  datatype PasswordField = CurrentField | NewField | ConfirmField

  datatype PasswordForm = PasswordForm(currentPassword: string, newPassword: string, confirmPassword: string)

  const EmptyPasswordForm := PasswordForm("", "", "")

  function PasswordValue(f: PasswordForm, field: PasswordField): string {
    match field
    case CurrentField => f.currentPassword
    case NewField => f.newPassword
    case ConfirmField => f.confirmPassword
  }

  /** `handlePasswordChange`: `{ ...passwordData, [name]: value }`. */
  function ChangePassword(f: PasswordForm, field: PasswordField, value: string): (r: PasswordForm)
    ensures PasswordValue(r, field) == value
    ensures forall other :: other != field ==> PasswordValue(r, other) == PasswordValue(f, other)
  {
    match field
    case CurrentField => f.(currentPassword := value)
    case NewField => f.(newPassword := value)
    case ConfirmField => f.(confirmPassword := value)
  }

  /** A change is undone by changing the field back. */
  lemma ChangeBack(f: PasswordForm, field: PasswordField, value: string)
    ensures ChangePassword(ChangePassword(f, field, value), field, PasswordValue(f, field)) == f
  {
  }

  /** The banner: `{ type, text }`, with `type` empty before any submit. */
  datatype Kind = Blank | Success | Error

  datatype Banner = Banner(kind: Kind, text: string)

  /** The client checks, in order: the confirmation must repeat the new
      password, then the new password needs six characters. */
  function PasswordCheck(f: PasswordForm): (r: Option<string>)
    ensures f.newPassword != f.confirmPassword ==> r == Some("Passwords do not match")
    ensures f.newPassword == f.confirmPassword && |f.newPassword| < 6 ==> r == Some("Password must be at least 6 characters")
    ensures r.None? <==> f.newPassword == f.confirmPassword && |f.newPassword| >= 6
  {
    if f.newPassword != f.confirmPassword then Some("Passwords do not match")
    else if |f.newPassword| < 6 then Some("Password must be at least 6 characters")
    else None
  }

  /** The body sent by `updatePassword.mutateAsync`. */
  function RequestBody(f: PasswordForm): Schemas.Body {
    map["currentPassword" := JString(f.currentPassword), "newPassword" := JString(f.newPassword)]
  }

  /** How the mutation ended: resolved, or rejected with the answer's body
      (none when no answer came). */
  datatype Reply = Resolved | Rejected(body: Option<Middleware.ErrorBody>)

  /** The result of a submit: the body sent (if any), the banner and the
      form afterwards. */
  datatype Submitted = Submitted(request: Option<Schemas.Body>, banner: Banner, form: PasswordForm)

  const PasswordFallback := "Failed to update password"

  /** The body of a rejection, when there was an answer. */
  function RejectionBody(reply: Reply): Option<Middleware.ErrorBody> {
    if reply.Rejected? then reply.body else None
  }

  /** The submit flow with `failure` as the text a rejection shows. */
  function Settle(f: PasswordForm, reply: Reply, failure: string): Submitted {
    match PasswordCheck(f)
    case Some(text) => Submitted(None, Banner(Error, text), f)
    case None =>
      match reply
      case Resolved => Submitted(Some(RequestBody(f)), Banner(Success, "Password updated successfully!"), EmptyPasswordForm)
      case Rejected(_) => Submitted(Some(RequestBody(f)), Banner(Error, failure), f)
  }

  /** `handlePasswordSubmit` as written: a failed client check shows its
      text and sends nothing; otherwise the current and new passwords are
      sent, a success clears all three fields, and a failure keeps them and
      shows the answer's `message`, else the fixed fallback. */
  function PasswordSubmit(f: PasswordForm, reply: Reply): (r: Submitted)
    ensures r.request.Some? <==> PasswordCheck(f).None?
    ensures r.request.None? ==> r.banner == Banner(Error, PasswordCheck(f).value) && r.form == f
    ensures r.request.Some? ==> r.request.value == RequestBody(f)
    ensures r.request.Some? && reply.Resolved? ==>
      r.banner == Banner(Success, "Password updated successfully!") && r.form == EmptyPasswordForm
    ensures r.request.Some? && reply.Rejected? ==> r.form == f && r.banner.kind == Error
    ensures r.request.Some? && reply.Rejected? && ApiErrors.MessageKey(reply.body).None? ==>
      r.banner.text == PasswordFallback
    ensures r.request.Some? && reply.Rejected? && Filled(ApiErrors.MessageKey(reply.body)) ==>
      r.banner.text == ApiErrors.MessageKey(reply.body).value
  {
    Settle(f, reply, ApiErrors.ShownAsWritten(RejectionBody(reply), PasswordFallback))
  }

  /** The submit as evidently intended: the same flow, but a failure shows
      the server's reason (its `message`, else its `error`). */
  function PasswordSubmitIntended(f: PasswordForm, reply: Reply): (r: Submitted)
    ensures r.request.Some? <==> PasswordCheck(f).None?
    ensures r.request.None? ==> r.banner == Banner(Error, PasswordCheck(f).value) && r.form == f
    ensures r.request.Some? ==> r.request.value == RequestBody(f)
    ensures r.request.Some? && reply.Resolved? ==>
      r.banner == Banner(Success, "Password updated successfully!") && r.form == EmptyPasswordForm
    ensures r.request.Some? && reply.Rejected? && reply.body.Some? && !Filled(ApiErrors.MessageKey(reply.body))
            && reply.body.value.error != "" ==>
      r.banner == Banner(Error, reply.body.value.error) && r.form == f
    ensures r.request.Some? && reply.Rejected? && reply.body.None? ==> r.banner == Banner(Error, PasswordFallback)
    ensures r.request.Some? && reply.Rejected? && Filled(ApiErrors.MessageKey(reply.body)) ==>
      r.banner == Banner(Error, ApiErrors.MessageKey(reply.body).value) && r.form == f
  {
    Settle(f, reply, ApiErrors.Shown(RejectionBody(reply), PasswordFallback))
  }

  /** Every body the page sends meets the server's new-password rule, so
      the route's validation refuses it only for an empty current password. */
  lemma SentBodyValidates(f: PasswordForm, reply: Reply, fm: Schemas.Formats)
    requires PasswordSubmit(f, reply).request.Some?
    ensures var body := PasswordSubmit(f, reply).request.value;
      Middleware.ValidateRequest(Schemas.UpdatePassword(body, fm)).Next? <==> f.currentPassword != ""
  {
  }

  /** A wrong current password, end to end: the controller answers 400 with
      its reason, the page as written shows only the fixed text, and the
      corrected page shows the reason. */
  lemma WrongCurrentPassword(db: State, caller: Caller, f: PasswordForm,
                             matches: (string, string) -> bool, hash: string -> string)
    requires PasswordCheck(f).None?
    requires FindUser(db.users, caller.id).Some?
    requires !matches(f.currentPassword, FindUser(db.users, caller.id).value.password)
    ensures var answer := UserController.UpdatePassword(db, caller, f.currentPassword, f.newPassword, matches, hash).response;
      && answer == Fail(400, "Current password is incorrect")
      && PasswordSubmit(f, Rejected(Some(ApiErrors.ControllerBody(answer)))).banner == Banner(Error, PasswordFallback)
      && PasswordSubmitIntended(f, Rejected(Some(ApiErrors.ControllerBody(answer)))).banner
           == Banner(Error, "Current password is incorrect")
  {
    var answer := UserController.UpdatePassword(db, caller, f.currentPassword, f.newPassword, matches, hash).response;
    assert answer == Fail(400, "Current password is incorrect");
    ApiErrors.ShownServerReason(answer, None, PasswordFallback);
  }
}
