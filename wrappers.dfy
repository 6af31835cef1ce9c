/** `Option` for a value that may be absent (Java's `null`, or a stream
    that has no next element) and `Result` for an operation that may
    throw. */
module Wrappers {

  datatype Option<+T> = None | Some(value: T)

  datatype Result<+T, +E> = Success(value: T) | Failure(error: E)
}
