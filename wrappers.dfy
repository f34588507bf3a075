/** Option and Result, the two failure-carrying values the rest of the model uses. */
module Wrappers {

  /** A value that may be absent: JavaScript's `undefined`/`null` or a SQL NULL. */
  datatype Option<+T> = None | Some(value: T)

  /** The outcome of an operation that can fail with a message. */
  datatype Result<+T> = Ok(value: T) | Err(message: string)
}
