/** Small failure-carrying datatypes shared by the modules of this model. */
module Results {

  /** A value that may be absent: a null pointer, a missing map entry. */
  datatype Option<+T> = None | Some(value: T)

  /** The outcome of an operation that either yields a value or stops with an error. */
  datatype Result<+T, +E> = Ok(value: T) | Err(error: E)
}
