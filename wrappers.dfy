/** Failure-compatible wrappers shared by the whole model. */
module Wrappers {

  /** A value that may be missing: SQL NULL, JavaScript `undefined`/`null`, or a
      lookup that found no row. */
  datatype Option<+T> = None | Some(value: T)

  /** The outcome of an operation that may throw; `error` is the exception's message. */
  datatype Result<+T, +E> = Ok(value: T) | Err(error: E)
}
