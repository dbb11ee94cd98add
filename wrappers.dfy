/** Option and Result values shared by the modules of the waitlist model. */
module Wrappers {

  /** A value that may be absent (TypeScript's `T | undefined`). */
  datatype Option<+T> = None | Some(value: T)

  /** The outcome of an operation that can fail with an error value (a thrown exception). */
  datatype Result<+T, +E> = Success(value: T) | Failure(error: E)
}
