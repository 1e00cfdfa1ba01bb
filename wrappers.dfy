/** Option and Result, used for absent values and for the two ways a promise settles. */
module Wrappers {

  datatype Option<+T> = None | Some(value: T)

  /** Success is a resolved promise, Failure a rejected one carrying its reason. */
  datatype Result<+R, +E> = Success(value: R) | Failure(error: E)
}
