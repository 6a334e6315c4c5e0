/** Small failure-carrying datatypes shared by the rate-limiter model. */
module Results {

  /** A value that may be absent: a `null` link in the token ring. */
  datatype Option<+T> = None | Some(value: T)

  /** The outcome of a JavaScript constructor call: the object, or the error it throws. */
  datatype Result<+T, +E> = Success(value: T) | Failure(error: E)
}
