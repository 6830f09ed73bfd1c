/** The optional value used throughout the model for Python's `None`, and
    the outcome of an operation that may raise. */
module Options {

  datatype Option<T> = None | Some(value: T)

  datatype Result<T, E> = Ok(value: T) | Err(error: E)
}
