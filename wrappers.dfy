/** Optional values: the model's stand-in for JavaScript's `null` / `undefined`. */
module Wrappers {

  datatype Option<+T> = None | Some(value: T) {

    /** The wrapped value, or `default` when there is none (`x ?? default`). */
    function GetOr(default: T): T {
      match this
      case Some(v) => v
      case None => default
    }
  }

  /** A numeric column that may be null, read with `Number(x) || 0`: null counts as zero. */
  function OrZero(x: Option<real>): real {
    x.GetOr(0.0)
  }
}
