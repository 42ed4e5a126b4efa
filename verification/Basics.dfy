/** Small shared vocabulary: an optional value and the result of an operation that can be refused. */
module Basics {
  datatype Option<+T> = None | Some(value: T)

  datatype Result<+T, +E> = Success(value: T) | Failure(error: E)
}
