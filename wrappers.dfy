/** Option and Result, the two failure-carrying values the model uses. */
module Wrappers {

  /** A value that may be absent: JavaScript's `null`/`undefined` on the one hand, a value on the other. */
  datatype Option<+T> = None | Some(value: T)

  /** The outcome of an asynchronous operation: it resolves with a value or rejects with an error. */
  datatype Result<+T, +E> = Ok(value: T) | Err(error: E)
}
