/** Optional values, used where the source has a nil pointer or a missing map entry. */
module Wrappers {
  datatype Option<+T> = None | Some(value: T)
}
