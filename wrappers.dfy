/** Optional values: JavaScript's `undefined`/`null` results and `find` misses. */
module Wrappers {
  datatype Option<+T> = None | Some(value: T)
}
