/** Optional values, for the engine's "undefined" returns. */
module Wrappers {
  datatype Option<+T> = None | Some(value: T)
}
