/** Failure-carrying values: the model's stand-in for Java's null returns and thrown exceptions. */
module Results {

  /** A value that may be absent, such as the compiled form of text that does not compile. */
  datatype Option<+T> = None | Some(value: T)

  /** Either a value or the error a Java method would have thrown instead of returning. */
  datatype Result<+T, +E> = Success(value: T) | Failure(error: E)
}
