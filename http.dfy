/**
 The outcome of one HTTP call made with `requests`, as the calling code can
 observe it. The transport itself is not modelled: each call's outcome is an
 input to the operation that makes it.
 */
module Http {

  /**
   `Replied(body)`: the call returned and `raise_for_status()` accepted the
   status; `body` is the response text. `RequestFailed(detail)`: a
   `requests.exceptions.RequestException` (no connection, timeout, or an error
   status rejected by `raise_for_status()`), whose `str()` is `detail`.
   `Raised(detail)`: any other exception, whose `str()` is `detail`.
   */
  datatype HttpReply = Replied(body: string) | RequestFailed(detail: string) | Raised(detail: string)

  /** The message both clients return when a call fails (`f"Error de conexión: {e}"`, `f"Error inesperado: {e}"`). */
  function FailureMessage(reply: HttpReply): string
    requires !reply.Replied?
  {
    match reply
    case RequestFailed(detail) => "Error de conexión: " + detail
    case Raised(detail) => "Error inesperado: " + detail
  }
}
