/** Optional values and success/failure results shared by the modules of the model. */
module Results {

  /** A value that may be absent: a parse that fails, a key that is missing. */
  datatype Option<+T> = None | Some(value: T)

  /** The outcome of an operation that raises an exception in the program. */
  datatype Result<+T, +E> = Success(value: T) | Failure(error: E)
}
