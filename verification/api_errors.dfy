/** How the pages turn a failed request into the text they show
    (frontend/src/pages/Settings.jsx and frontend/src/pages/Register.jsx).
    The server puts the reason of every failure under the `error` key; only
    the upload error mapper also sets `message`. */
module ApiErrors {
  import opened Js
  import opened Domain
  import Middleware

  /** The body of a controller's failure answer: `{ error: <text> }`. */
  function ControllerBody<T>(r: Response<T>): Middleware.ErrorBody
    requires r.Fail?
  {
    Middleware.ErrorBody(r.error, Middleware.NoExtra)
  }

  /** `data?.message`; a request that got no answer has no body. */
  function MessageKey(body: Option<Middleware.ErrorBody>): Option<string> {
    if body.Some? && body.value.extra.Message? then Some(body.value.extra.text) else None
  }

  /** `err.response?.data?.message || fallback`, as the pages write it. */
  function ShownAsWritten(body: Option<Middleware.ErrorBody>, fallback: string): (r: string)
    ensures r != fallback ==> body.Some? && body.value.extra.Message? && r == body.value.extra.text
  {
    OrElse(MessageKey(body), Some(fallback)).value
  }

  /** Only an answer from the upload error mapper can show anything but the
      fallback: every controller failure and every other middleware answer
      shows the fixed text, whatever the server said. */
  lemma ServerReasonHidden<T>(r: Response<T>, step: Middleware.Step, fallback: string)
    requires r.Fail?
    requires step.Answer? && !step.body.extra.Message?
    ensures ShownAsWritten(Some(ControllerBody(r)), fallback) == fallback
    ensures ShownAsWritten(Some(step.body), fallback) == fallback
  {
  }

  /** The text the pages evidently mean to show: the server's `message`
      when there is one, else its `error`, else the fallback. */
  function Shown(body: Option<Middleware.ErrorBody>, fallback: string): (r: string)
    ensures Filled(MessageKey(body)) ==> r == MessageKey(body).value
    ensures !Filled(MessageKey(body)) && body.Some? && body.value.error != "" ==> r == body.value.error
    ensures !Filled(MessageKey(body)) && (body.None? || body.value.error == "") ==> r == fallback
  {
    var error := if body.Some? then Some(body.value.error) else None;
    OrElse(MessageKey(body), OrElse(error, Some(fallback))).value
  }

  /** The corrected reading shows a controller's own reason, agrees with
      the written one whenever the body has a message, and falls back only
      when there is no answer or no reason. */
  lemma ShownServerReason<T>(r: Response<T>, body: Option<Middleware.ErrorBody>, fallback: string)
    requires r.Fail? && r.error != ""
    ensures Shown(Some(ControllerBody(r)), fallback) == r.error
    ensures Filled(MessageKey(body)) ==> Shown(body, fallback) == ShownAsWritten(body, fallback)
    ensures Shown(None, fallback) == fallback
  {
  }
}
