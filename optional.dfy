/** `undefined` / `null` versus a present value, for the optional fields of the
    records the client receives from the server. */
module Optional {
  datatype Option<+T> = None | Some(value: T) {
    /** `x ?? fallback` */
    function GetOr(fallback: T): T {
      match this
      case Some(v) => v
      case None => fallback
    }
  }
}
