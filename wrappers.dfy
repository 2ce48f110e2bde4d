/** Failure-compatible wrappers shared by the model: a nullable value, a value-or-exception
    result, and a pass-or-exception outcome for operations that return nothing. */
module Wrappers {

  /** A value that may be absent (C#'s `int?` and `null`). */
  datatype Option<+T> = None | Some(value: T)

  /** A computed value, or the exception that aborted the computation. */
  datatype Result<+T, +E> = Success(value: T) | Failure(error: E)

  /** A statement that completed normally, or the exception it threw. */
  datatype Outcome<+E> = Pass | Fail(error: E)
}
