/** Option, Result and Outcome values used where the source returns None or raises. */
module Wrappers {

  datatype Option<+T> = None | Some(value: T)

  datatype Result<+R, +E> = Success(value: R) | Failure(error: E)

  /** A step that either completes or raises, carrying no value. */
  datatype Outcome<+E> = Pass | Fail(error: E)
}
