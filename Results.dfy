/** Failure-carrying values shared by every module of the model: Python's
    exceptions become `Err` values, `None`/NaN cells become `None`. */
module Results {

  datatype Option<+T> = None | Some(value: T) {
    function GetOr(default: T): T {
      match this
      case Some(v) => v
      case None => default
    }
  }

  /** The Python exception classes the modelled code raises. */
  datatype Error =
    | ValueError
    | KeyError
    | TypeError(message: string)

  datatype Result<+T> = Ok(value: T) | Err(error: Error)

  /** The result of a step that changes state and returns nothing. */
  datatype Outcome = Pass | Fail(error: Error)
}
