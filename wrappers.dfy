/** Option and Result: a Python value that may be None, and a call that may raise. */
module Wrappers {

  /** A Python value that may be `None`. */
  datatype Option<+T> = None | Some(value: T)

  /** The outcome of a Python call: it returns a value, or it raises an exception. */
  datatype Result<+R, +E> = Success(value: R) | Failure(error: E)
}
