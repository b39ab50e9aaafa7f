/** Optional values: stands for the source's `undefined` (a missing column, an empty cache, a NaN mean). */
module Wrappers {
  datatype Option<+T> = None | Some(value: T)
}
