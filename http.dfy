/**
 * What a handler produces: a response (status and JSON payload), a thrown
 * error, or, for a middleware, the decision to pass the request on. An
 * `HttpError` is the `HttpError` class of src/utils/http-error.ts: its two
 * fields are exactly its constructor's arguments and are never changed.
 */
module Http {
  import opened Wrappers
  import opened Json
  import opened Types

  datatype Error =
    | HttpError(statusCode: int, message: string)
    | OtherError(message: string)

  /** The two signing keys, `JWT_SECRET` and `JWT_REFRESH_SECRET`. */
  datatype Secret = AccessSecret | RefreshSecret

  /** `jwt.sign(payload, secret, { expiresIn })`, kept as its inputs. */
  datatype Token = Token(payload: Object, secret: Secret, expiresIn: string)

  datatype Payload =
    | ErrorPayload(error: string)                          // { error }
    | StatusPayload(status: string, message: string)       // { status, message }
    | MessagePayload(message: string)                      // { message }
    | MessagesPayload(messages: seq<string>)               // { message: [...] }
    | DataPayload(note: Option<string>, data: Record)      // { message?, data: row }
    | MusicListPayload(rows: map<int, MusicRow>)           // { data: rows }
    | RecordPayload(record: Record)                        // the row itself
    | TokenPayload(accessToken: Token, refreshToken: Token)
    | TextPayload(text: string)                            // res.send(text)

  datatype Response = Response(status: int, payload: Payload)

  /** A controller's result: the response it sent, or the error it threw. */
  datatype Outcome = Reply(response: Response) | Threw(error: Error)

  /** A middleware's result: `next()` was called, or a response was sent. */
  datatype Step = Next | Respond(response: Response)
}
