/** Failure-carrying values: the model's stand-in for Python's `None` results and raised exceptions. */
module Results {

  /** `None` is Python's `None`, the value a stage returns after catching an error. */
  datatype Option<+T> = None | Some(value: T)

  /** `Err` is an exception that propagates to the caller. */
  datatype Result<+T, +E> = Ok(value: T) | Err(error: E)
}
