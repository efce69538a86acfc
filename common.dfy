/** PHP's `null` for optional values, written the Dafny way. */
module Common {

  datatype Option<+T> = None | Some(value: T) {

    /** The value, or `default` for None: PHP's `$x ?? $default`. */
    function GetOr(default: T): T {
      match this
      case Some(v) => v
      case None => default
    }
  }
}
