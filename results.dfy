/** Failure-carrying return values shared by every module: Go's `(T, error)`
    pairs become `Result`, a bare `error` return becomes `Outcome`, and a
    nil-able reference becomes `Option`. */
module Results {

  datatype Option<+T> = None | Some(value: T)

  datatype Result<+T, +E> = Ok(value: T) | Err(error: E)

  datatype Outcome<+E> = Pass | Fail(error: E)
}
