/** Option and Result, the shapes used for Python's `None` and for exceptions. */
module Wrappers {

  datatype Option<+T> = None | Some(value: T)

  /** The outcome of a call that either returns a value or raises with a message. */
  datatype Result<+T> = Success(value: T) | Failure(error: string)
}
