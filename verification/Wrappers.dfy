/** Optional values, standing for the nullable fields and absent properties of the source. */
module Wrappers {

  datatype Option<+T> = None | Some(value: T) {

    /** The value if there is one, otherwise the given default (the `??` operator). */
    function GetOr(default: T): T {
      match this
      case Some(v) => v
      case None => default
    }
  }

  /** What a call of the source does: return a value, or throw. */
  datatype Outcome<+T> = Returned(result: T) | Threw
}
