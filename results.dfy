/** The two failure-compatible wrappers the model uses: a value that may be
    missing (a PHP null) and the outcome of an operation that may throw. */
module Results {

  datatype Option<+T> = None | Some(value: T)

  datatype Result<+T, +E> = Ok(value: T) | Err(error: E)
}
