/** Optional values, used where the C++ code returns a pointer that may be null. */
module Wrappers {

  datatype Option<+T> = None | Some(value: T)
}
