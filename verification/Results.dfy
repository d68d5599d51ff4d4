/** A call either returns a value or throws. */
module Results {
  datatype Result<+T> = Success(value: T) | Failure(error: string)

  datatype Option<+T> = None | Some(value: T) {
    function GetOr(default: T): T {
      match this
      case Some(v) => v
      case None => default
    }
  }
}
