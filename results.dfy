/** Option and Result wrappers shared by the modules of the model. */
module Results {

  /** A value that may be absent. */
  datatype Option<+T> = None | Some(value: T)

  /** The outcome of an operation that either produces a value or reports an error. */
  datatype Result<+T, +E> = Ok(value: T) | Err(error: E)
}
