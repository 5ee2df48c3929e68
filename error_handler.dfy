/** `errorHandler`, the boundary that turns a thrown error into a response. */
module ErrorHandler {
  import opened Http

  /** The response written for `err`. */
  function HandleError(err: Error): (r: Response)
    ensures err.HttpError? ==> r == Response(err.statusCode, StatusPayload("error", err.message))
    ensures !err.HttpError? ==> r == Response(500, StatusPayload("error", "Internal server error"))
  {
    if err.HttpError? then Response(err.statusCode, StatusPayload("error", err.message))
    else Response(500, StatusPayload("error", "Internal server error"))
  }

  /** The response the client finally receives when a thrown error reaches the handler. */
  function Deliver(out: Outcome): (r: Response)
    ensures out.Reply? ==> r == out.response
    ensures out.Threw? ==> r == HandleError(out.error)
  {
    match out
    case Reply(response) => response
    case Threw(err) => HandleError(err)
  }

  /** An HttpError's status and message come back unchanged. */
  lemma {:induction false} HttpErrorPreserved(status: int, message: string)
    ensures HandleError(HttpError(status, message)).status == status
    ensures HandleError(HttpError(status, message)).payload.message == message
  {
  }

  /** Any other error gives the same 500 response, whatever its message. */
  lemma {:induction false} OtherErrorsHidden(m1: string, m2: string)
    ensures HandleError(OtherError(m1)) == HandleError(OtherError(m2))
    ensures HandleError(OtherError(m1)).status == 500
    ensures m1 != "Internal server error" ==> HandleError(OtherError(m1)).payload.message != m1
  {
  }

  /** The body's status field is "error" on both branches. */
  lemma {:induction false} StatusIsAlwaysError(err: Error)
    ensures HandleError(err).payload.StatusPayload?
    ensures HandleError(err).payload.status == "error"
  {
  }
}
