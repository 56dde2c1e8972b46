/** Small failure-carrying wrappers used across the model. */
module Outcomes {

  /** A possibly absent value; `None` stands for a Java `null` reference. */
  datatype Option<+T> = None | Some(value: T)

  /** The value returned by a collaborator that either produces a result or throws. */
  datatype Result<+T, +E> = Success(value: T) | Failure(error: E)

  /** The outcome of a `void` method that may throw: it returns normally or raises `error`. */
  datatype Outcome<+E> = Pass | Fail(error: E)
}
