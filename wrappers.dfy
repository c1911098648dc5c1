/** Optional values: a slot that may be empty, a pointer that may be null. */
module Wrappers {

  datatype Option<+T> = None | Some(value: T)
}
