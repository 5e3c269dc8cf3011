/** An optional value: a parameter that may be absent from a request. */
module Optional {

  datatype Option<+T> = None | Some(value: T) {

    /** The carried value, or `default` when absent (a JavaScript default parameter). */
    function GetOr(default: T): T {
      match this
      case Some(v) => v
      case None => default
    }
  }
}
