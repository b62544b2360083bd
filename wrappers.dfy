/** Optional values, used where the source gets `None` back from a lookup. */
module Wrappers {
  datatype Option<+T> = None | Some(value: T)
}
