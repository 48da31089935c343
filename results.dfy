/** Failure-carrying values used in place of Java's null references and exceptions. */
module Results {

  /** A value that may be absent (a Java reference that may be null). */
  datatype Option<+T> = None | Some(value: T)

  /** Either a computed value or the error a Java method would have thrown. */
  datatype Result<+T, +E> = Ok(value: T) | Err(error: E)
}
