/** Failure-carrying results shared by both solvers. */
module Results {

  datatype Option<+T> = None | Some(value: T)

  /** Either a value or the reason the computation aborted (the source raises an exception). */
  datatype Result<+T, +E> = Ok(value: T) | Err(error: E)
}
