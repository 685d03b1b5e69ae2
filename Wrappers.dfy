/** Optional values, used for "no match" and for a call that raised. */
module Wrappers {

  datatype Option<+T> = None | Some(value: T)
}
