/** The optional value used throughout the model: `None` stands for JavaScript's
    `undefined` (and, where the source uses `??`, for `null` too). */
module Wrappers {

  datatype Option<+T> = None | Some(value: T) {

    /** `x ?? fallback`: the value when present, the fallback otherwise. */
    function GetOr(fallback: T): T {
      match this
      case Some(v) => v
      case None => fallback
    }
  }
}
