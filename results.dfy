/** Option, Result and Outcome, for the source's `undefined` returns and
    thrown errors. */
module Results {

  datatype Option<+T> = None | Some(value: T)

  datatype Result<+T, +E> = Success(value: T) | Failure(error: E)

  /** The end of a call that returns nothing: normal, or an error thrown. */
  datatype Outcome<+E> = Pass | Fail(error: E)
}
