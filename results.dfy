/** Failure-carrying wrappers shared by every component of the model. */
module Results {

  datatype Option<+T> = None | Some(value: T)

  /** The outcome of an operation that returns a value or an error (Go's `(T, error)` pair). */
  datatype Result<+T, +E> = Ok(value: T) | Err(error: E)
}
