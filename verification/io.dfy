/** The boundary between the stores and the outside world: what a request can
    answer, and the side effects (toasts, fire-and-forget requests) a
    transition asks for. The HTTP client and the toast library themselves are
    not part of this model. */
module Io {
  import opened Wrappers

  /** Why a request failed: the server answered with an error body whose
      `message` may be missing, or no response arrived at all (network error,
      timeout), in which case the client's error has no `response`. */
  datatype HttpError = ServerError(message: Option<string>) | NoResponse

  /** The outcome of one awaited request. */
  datatype Response<+T> = Ok(data: T) | Failed(error: HttpError)

  /** What a transition asks the outside world to do. */
  datatype Effect =
    | MarkReadRequest(userId: string)   // POST /messages/read/:userId, failures only logged
    | SuccessToast(text: string)
    | ErrorToast(text: string)
    | NoticeToast(text: string)

  /** JavaScript truthiness of an optional string: present and non-empty. */
  predicate Truthy(s: Option<string>) {
    s.Some? && s.value != ""
  }

  /** The text of the error toast shown for a failed request,
      `error.response?.data?.message || fallback`: the server's message when it
      sent a non-empty one, the fallback otherwise. */
  function ErrorText(e: HttpError, fallback: string): (t: string)
    ensures e.ServerError? && Truthy(e.message) ==> t == e.message.value
    ensures !(e.ServerError? && Truthy(e.message)) ==> t == fallback
    ensures fallback != "" ==> t != ""
  {
    match e
    case ServerError(Some(m)) => if m != "" then m else fallback
    case _ => fallback
  }

  /** The same toast text as the authentication handlers compute it,
      `error.response.data.message || fallback`, without optional chaining:
      `None` stands for the TypeError thrown when the error has no response,
      which escapes the handler before any toast is shown. */
  function UnguardedErrorText(e: HttpError, fallback: string): (t: Option<string>)
    ensures e.NoResponse? <==> t.None?
    ensures e.ServerError? ==> t == Some(ErrorText(e, fallback))
  {
    match e
    case NoResponse => None
    case ServerError(_) => Some(ErrorText(e, fallback))
  }

  /** The discrepancy: on a request that got no response the unguarded handler
      shows no toast at all, while the guarded form shows the fallback text. */
  lemma UnguardedHandlerLosesNetworkFailures(fallback: string)
    requires fallback != ""
    ensures UnguardedErrorText(NoResponse, fallback).None?
    ensures ErrorText(NoResponse, fallback) == fallback
  {
  }
}
