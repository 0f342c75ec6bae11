/** Failure-carrying wrappers shared by the invoicing model. */
module Common {

  datatype Option<+T> = None | Some(value: T)

  /** The outcome of an operation that can fail where the program raises or reports an error. */
  datatype Result<+T, +E> = Ok(value: T) | Err(error: E)
}
