// The outcome of an operation that the source can abandon with an exception.

module Results {

  datatype Result<+T, +E> = Success(value: T) | Failure(error: E)
}
