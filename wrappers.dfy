/** Failure-carrying values standing in for Python's `None` and raised exceptions. */
module Wrappers {

  /** `None` or a value, as for a lookup that can miss. */
  datatype Option<+T> = None | Some(value: T)

  /** Either the value a Python function returns or the exception it raises. */
  datatype Result<+T, +E> = Success(value: T) | Failure(error: E)

  /** The outcome of a Python procedure that returns nothing or raises. */
  datatype Outcome<+E> = Pass | Fail(error: E)
}
