/** Optional values, used wherever the source has `null`, `undefined` or a missing field. */
module Wrappers {
  datatype Option<T> = None | Some(value: T)
  {
    /** `x ?? d` in the source's own notation. */
    function GetOr(d: T): T {
      if Some? then value else d
    }
  }
}
