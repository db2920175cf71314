/** Failure-carrying values shared by every component of the interview helpers. */
module Base {

  datatype Option<+T> = None | Some(value: T) {
    function GetOr(default: T): T {
      match this
      case Some(v) => v
      case None => default
    }
  }

  /** The two exceptions the helpers can raise: the ValueError of an unconfigured
      client and the KeyError of a context without a current question. */
  datatype Error = ValueError(message: string) | KeyError(key: string)

  datatype Result<+T> = Ok(value: T) | Err(error: Error)
}
