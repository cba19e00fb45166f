/** Optional values, in place of the empty strings, nil pointers and error
    returns of the backend. */
module Options {
  datatype Option<+T> = None | Some(value: T) {
    function GetOr(default: T): T {
      match this
      case Some(v) => v
      case None => default
    }
  }

  /** The answer of a remote call. */
  datatype Answer<+T> = Failed | Answered(value: T) {
    function GetOr(default: T): T {
      match this
      case Answered(v) => v
      case Failed => default
    }
  }
}
