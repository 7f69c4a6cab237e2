/** Optional values: Python's `None` for a missing result. */
module Wrappers {
  datatype Option<+T> = None | Some(value: T)
}
