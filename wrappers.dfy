/** Optional values: a Go pointer that may be nil, or a result that may be absent. */
module Wrappers {
  datatype Option<+T> = None | Some(value: T)
}
