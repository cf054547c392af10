/** The two failure-carrying wrappers the model uses for Python's None and for
    the exceptions that end the program. */
module Wrappers {
  datatype Option<+T> = None | Some(value: T)

  datatype Result<+T, +E> = Ok(value: T) | Err(error: E)
}
