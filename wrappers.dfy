/** Optional values: an absent dictionary key, a None argument. */
module Wrappers {

  datatype Option<+T> = None | Some(value: T)
}
