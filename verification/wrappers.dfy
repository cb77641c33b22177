/** Failure-aware value wrappers shared by the player modules. */
module Wrappers {

  /** A value that may be absent: TypeScript's `undefined`/`null` versus a present value. */
  datatype Option<+T> = None | Some(value: T)

  /** The outcome of an operation that may reject with an error. */
  datatype Result<+R, +E> = Success(value: R) | Failure(error: E)
}
