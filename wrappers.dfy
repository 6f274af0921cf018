/** Optional values: the outcome of a lookup or of an external call that may fail. */
module Wrappers {

  datatype Option<+T> = None | Some(value: T)
}
