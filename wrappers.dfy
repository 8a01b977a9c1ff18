/** Failure-carrying result types shared by every module of the model. */
module Wrappers {

  /** A value that may be absent: Python's `Optional[T]` (`None` or a value). */
  datatype Option<+T> = None | Some(value: T)

  /** The outcome of an operation that raises in the source: a value or the error raised. */
  datatype Result<+T, +E> = Ok(value: T) | Err(error: E)
}
