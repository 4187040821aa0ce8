/** Optional values, used where the source returns a nil pointer or a nil slice. */
module Wrappers {
  datatype Option<+T> = None | Some(value: T)
}
