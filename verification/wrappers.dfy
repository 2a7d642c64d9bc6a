/** Optional values: React state that starts out as `null`. */
module Wrappers {

  datatype Option<+T> = None | Some(value: T)
}
