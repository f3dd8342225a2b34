/** Failure-carrying wrappers shared by the other modules. */
module Common {

  /** A value that may be absent: Python's `None` or a missing request key. */
  datatype Option<T> = None | Some(value: T)

  /** The outcome of an operation that either returns a value or raises. */
  datatype Result<T, E> = Success(value: T) | Failure(error: E)

  /** The outcome of a check that returns nothing on success and raises on failure. */
  datatype Outcome<E> = Pass | Fail(error: E)
}
