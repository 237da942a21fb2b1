/** Failure-compatible wrappers used across the cache model. */
module Results {
  /** A value that may be absent (a nil tensor in the cache). */
  datatype Option<T> = None | Some(value: T)

  /** The outcome of an operation that can fail fatally. */
  datatype Result<T, E> = Success(value: T) | Failure(error: E)
}
