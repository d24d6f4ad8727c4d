/** Optional values and error results shared by the other modules. */
module Wrappers {

  /** A value that may be missing: Python's `None` or a present value. */
  datatype Option<+T> = None | Some(value: T)

  /** The outcome of an operation that raises an exception in ytget.py. */
  datatype Result<+R, +E> = Success(value: R) | Failure(error: E)
}
