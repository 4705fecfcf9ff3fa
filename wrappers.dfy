/** Nullable values of the C# source: `string?`, `T?` and "not found" results. */
module Wrappers {

  datatype Option<+T> = None | Some(value: T) {

    /** The `??` operator: the value, or the fallback when null. */
    function GetOr(fallback: T): T
    {
      match this
      case Some(v) => v
      case None => fallback
    }
  }
}
