/** Optional values (Java's `null`) and results that may carry an error
    (Java's thrown exceptions). */
module Options {

  datatype Option<+T> = None | Some(value: T)

  datatype Result<+T, +E> = Success(value: T) | Failure(error: E)
}
