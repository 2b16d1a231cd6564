/** The error handler: how a thrown error becomes the response status and body. */
module ErrorHandler {
  import opened Common

  /** What a handler can throw: an AppError, or anything else (with its message). */
  datatype Thrown = App(error: AppError) | Other(message: string)

  /** The response: the status and the `{ error, code }` body. */
  datatype Response = Response(status: int, error: string, code: Option<string>)

  /** errorHandler: an AppError reaches the client unchanged; anything else is a
      500 with a fixed message and no code. */
  function Respond(err: Thrown): (r: Response)
    ensures err.App? ==> AppError(r.status, r.error, r.code) == err.error
    ensures err.Other? ==> r == Response(500, "Internal server error", None)
  {
    match err
    case App(e) => Response(e.statusCode, e.message, e.code)
    case Other(_) => Response(500, "Internal server error", None)
  }

  /** The message of an unexpected error never reaches the client. */
  lemma InternalMessagesHidden(m1: string, m2: string)
    ensures Respond(Other(m1)) == Respond(Other(m2))
  {
  }

  /** Every service failure built with Fail keeps its status and message and has no code. */
  lemma ServiceFailuresPassThrough(status: int, message: string)
    ensures Respond(App(Fail(status, message))) == Response(status, message, None)
  {
  }
}
