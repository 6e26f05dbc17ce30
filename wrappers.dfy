/** Optional values, used for Python operations that may raise instead of returning. */
module Wrappers {
  datatype Option<+T> = None | Some(value: T)
}
