/** Optional values, used for "no hand" and "no match" results. */
module Wrappers {

  datatype Option<+T> = None | Some(value: T)
}
