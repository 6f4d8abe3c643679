/** Optional values: the model's stand-in for a Ruby value that may be nil. */
module Wrappers {
  datatype Option<+T> = None | Some(value: T)
}
