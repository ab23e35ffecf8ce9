/** Failure-carrying datatypes shared by the model of the generation server. */
module Results {

  /** A value that may be absent: Python's `None` or a missing result. */
  datatype Option<+T> = None | Some(value: T)

  /** The outcome of a step that may raise: a value, or the failure it raised. */
  datatype Result<+T, +E> = Ok(value: T) | Err(error: E)
}
