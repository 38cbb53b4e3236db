/** Failure-carrying values shared by the other modules. */
module Results {

  /** A Java reference that may be null. */
  datatype Option<+T> = None | Some(value: T)

  /** A value, or the exception the Java code would have thrown instead. */
  datatype Result<+T, +E> = Ok(value: T) | Err(error: E)
}
