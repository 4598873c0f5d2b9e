/** Optional values, used where the pages read `x?.field` or `find(...)`. */
module Wrappers {

  datatype Option<+T> = None | Some(value: T)
}
