/** Optional values and call results shared by every module of the model. */
module Wrappers {

  /** A value that may be missing (`undefined`/`null` in TypeScript). */
  datatype Option<+T> = None | Some(value: T)

  /** A call that either returns a value or throws an error. */
  datatype Result<+T, +E> = Success(value: T) | Failure(error: E)

  /** A call that either completes or throws, returning nothing of interest. */
  datatype Outcome<+E> = Pass | Fail(error: E)
}
