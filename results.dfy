/** Optional values and failure-carrying results used across the model. */
module Results {

  /** An optional field of a record: `None` plays the part of JavaScript's `undefined`. */
  datatype Option<+T> = None | Some(value: T)

  /** The outcome of a stage that can throw: `Failure` carries the kind of exception. */
  datatype Result<+T, +E> = Success(value: T) | Failure(error: E)
}
