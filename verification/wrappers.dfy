/** Failure-carrying result types shared by the modules of the savings-bond model. */
module Wrappers {

  /** A value that may be absent. */
  datatype Option<+T> = None | Some(value: T)

  /** The value of a computation, or the error that stopped it. */
  datatype Result<+R, +E> = Success(value: R) | Failure(error: E)
}
