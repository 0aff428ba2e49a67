/** Option and Result values shared by the task-view modules. */
module Wrappers {

  /** A value that may be missing: JavaScript's `undefined`/`null`. */
  datatype Option<+T> = None | Some(value: T)

  /** The outcome of a call that can throw: `Success` or the error thrown. */
  datatype Result<+T, +E> = Success(value: T) | Failure(error: E)
}
