/** Failure-compatible wrappers shared by the client and the server models. */
module Common {

  /** A value that may be absent: a missing key, `undefined`/`null`, Python `None`. */
  datatype Option<+T> = None | Some(value: T)

  /** The outcome of a step that may raise: the new value, or the exception it raised. */
  datatype Result<+T, +E> = Ok(value: T) | Err(error: E)
}
