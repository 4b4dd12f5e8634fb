/** Failure-carrying values shared by the three scripts. */
module Results {

  /** JavaScript's `null` or a value. */
  datatype Option<+T> = None | Some(value: T) {
    function GetOr(default: T): T
    {
      match this
      case Some(v) => v
      case None => default
    }
  }

  /** The outcome of a step that may end the script early (a `process.exit`). */
  datatype Result<+T, +E> = Ok(value: T) | Err(error: E)
}
