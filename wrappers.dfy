/** Option and Result, the failure-compatible wrappers used throughout the model. */
module Wrappers {

  /** A value that may be absent: the source's `null`/`undefined`, Java's `Optional`. */
  datatype Option<+T> = None | Some(value: T)

  /** The outcome of an operation that either yields a value or fails with a message,
      as a thrown exception or a rejected promise carries one. */
  datatype Result<+T> = Ok(value: T) | Err(message: string)
}
