/** The two failure-carrying shapes the model uses: `Option` for Python's
    "value or None", `Result` for an operation that either yields a value or
    stops with a reason. */
module Results {

  datatype Option<+T> = None | Some(value: T)

  datatype Result<+T, +E> = Success(value: T) | Failure(error: E)
}
