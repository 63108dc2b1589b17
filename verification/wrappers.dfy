/** The optional value used wherever the source reads a possibly missing
    property (`x?.y`, `x ?? d`) or stores `null`. */
module Wrappers {

  datatype Option<+T> = None | Some(value: T) {

    /** The contained value, or `default` when there is none (JavaScript `??`). */
    function GetOr(default: T): T {
      match this
      case Some(v) => v
      case None => default
    }
  }
}
