/** Failure-carrying values used where the Python code raises or returns "nothing". */
module Results {

  /** A value that may be absent (a missing dictionary key, a trial that never improved). */
  datatype Option<+T> = None | Some(value: T)

  /** A value or the error the Python code would have raised instead. */
  datatype Result<+T, +E> = Success(value: T) | Failure(error: E)
}
