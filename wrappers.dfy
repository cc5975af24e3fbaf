/** Optional values: a counter or field that is absent is `None`, never zero. */
module Wrappers {
  datatype Option<+T> = None | Some(value: T)
}
