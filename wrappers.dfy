/** Plain `Option` and `Result` datatypes used throughout the model. */
module Wrappers {

  /** A value that may be absent: an unset schema, a failed collaborator call. */
  datatype Option<+T> = None | Some(value: T)

  /** The outcome of an operation that can raise. */
  datatype Result<+R, +E> = Success(value: R) | Failure(error: E)
}
