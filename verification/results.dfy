/** Failure-carrying datatypes shared by every module of the model. */
module Results {

  /** A value that may be absent. */
  datatype Option<+T> = None | Some(value: T)

  /** The outcome of an operation that either succeeds with a value or
      fails with an error (a Python exception in the modelled code). */
  datatype Result<+T, +E> = Ok(value: T) | Err(error: E)
}
