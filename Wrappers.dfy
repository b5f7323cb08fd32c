/** Optional values, for results that a C routine signals by leaving state untouched. */
module Wrappers {
  datatype Option<+T> = None | Some(value: T)
}
