/** Optional values and results shared by every module of the model. */
module Optional {

  /** A value that may be missing: an unset storage key, a regular expression that did not match. */
  datatype Option<+T> = None | Some(value: T)

  /** The outcome of an operation that can be refused. */
  datatype Result<+T, +E> = Success(value: T) | Failure(error: E)
}
