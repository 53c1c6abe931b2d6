/** Option, Result and Outcome: the shapes used for Python's `None` and for raised exceptions. */
module Wrappers {

  datatype Option<+T> = None | Some(value: T)

  /** A value, or the exception that the Python code raises instead of returning one. */
  datatype Result<+R, +E> = Success(value: R) | Failure(error: E)

  /** Completion of a Python function that returns `None`, or the exception it raises. */
  datatype Outcome<+E> = Pass | Fail(error: E)
}
