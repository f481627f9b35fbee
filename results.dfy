// Failure-carrying results shared by the normalizer and the engine.
module Results {

  /** A value that may be missing: the outcome of a parser that can reject its text. */
  datatype Option<T> = None | Some(value: T)

  /** A computed value, or the error that aborted the computation. */
  datatype Result<T, E> = Ok(value: T) | Err(error: E)
}
