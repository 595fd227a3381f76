/** Failure-carrying values used by the command: a field that may be unset,
    an operation that yields a value or an error, a check that passes or fails. */
module Wrappers {

  datatype Option<+T> = None | Some(value: T)

  datatype Result<+T, +E> = Success(value: T) | Failure(error: E)

  datatype Outcome<+E> = Pass | Fail(error: E)
}
