/** Optional values, for the source's null and undefined. */
module Wrappers {
  datatype Option<T> = None | Some(value: T) {
    /** The `??` operator: the value, or the default when there is none. */
    function GetOr(default: T): T {
      if Some? then value else default
    }
  }
}
