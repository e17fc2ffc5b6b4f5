/** An optional value: a PHP array key that is either set (isset) or not. */
module Optional {

  datatype Option<T> = None | Some(value: T) {

    /** The value when set, otherwise the given default */
    function GetOr(default: T): T {
      match this
      case Some(v) => v
      case None => default
    }
  }
}
