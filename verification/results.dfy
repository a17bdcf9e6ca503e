/** Option and Result, for lookups that may find nothing and operations
    that may be rejected. */
module Results {

  datatype Option<+T> = None | Some(value: T)

  datatype Result<+T, +E> = Success(value: T) | Failure(error: E)
}
