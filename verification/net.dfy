/**
 * What a view can observe of one request to the backend. The views never see
 * HTTP itself: each handler is given the outcome its `fetch` call produced.
 */
module Net {

  datatype Option<+T> = None | Some(value: T)

  /** A value caught by a `catch` clause: an `Error` object carries a message,
      anything else that was thrown does not. */
  datatype Thrown = ErrorValue(message: string) | OtherValue

  /** The outcome of awaiting `fetch` and, when the status is ok, the body.
      `Ok` carries the parsed JSON body, `NotOk` is a response whose `ok` flag
      is false, and `Threw` is a rejected `fetch` or a body that failed to
      parse. */
  datatype Response<+T> = Ok(body: T) | NotOk | Threw(thrown: Thrown)

  /** The message a handler shows for a caught value: the `Error`'s own
      message, or the handler's fallback text for anything else. */
  function CaughtMessage(t: Thrown, fallback: string): (m: string)
    ensures t.ErrorValue? ==> m == t.message
    ensures t.OtherValue? ==> m == fallback
  {
    match t
    case ErrorValue(message) => message
    case OtherValue => fallback
  }
}
