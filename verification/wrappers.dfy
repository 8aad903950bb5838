/** Failure-compatible result types shared by the whole model. */
module Wrappers {

  /** A value that may be missing: JavaScript's `undefined` / `null`. */
  datatype Option<+T> = None | Some(value: T)

  /** The outcome of a check that either yields a value or reports what failed. */
  datatype Result<+R, +E> = Success(value: R) | Failure(error: E)
}
