/** Failure-carrying values used where the page scripts throw or find nothing. */
module Wrappers {

  datatype Option<+T> = None | Some(value: T)

  /** The outcome of a call into a collaborator that may throw. */
  datatype Result<+R, +E> = Success(value: R) | Failure(error: E)

  /** The outcome of a step that returns nothing but may throw. */
  datatype Outcome<+E> = Pass | Fail(error: E)
}
