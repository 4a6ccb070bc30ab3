/** Optional values: a C pointer that may be NULL, a call that may not happen. */
module Wrappers {
  datatype Option<+T> = None | Some(value: T)
}
