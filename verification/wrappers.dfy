/** Failure-compatible wrappers: Python's `None` and raised exceptions become values. */
module Wrappers {

  datatype Option<T> = None | Some(value: T)

  datatype Result<T, E> = Success(value: T) | Failure(error: E)
}
