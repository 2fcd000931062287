/** Failure-carrying wrappers: the model returns a `Result` wherever the Python
    code raises, and an `Option` wherever it accepts `None`. */
module Wrappers {

  /** A value that may be absent (`None` in Python). */
  datatype Option<+T> = None | Some(value: T)

  /** Either the value an operation returns or the error it raises. */
  datatype Result<+R, +E> = Success(value: R) | Failure(error: E)
}
