/** Optional values: `None` stands for JavaScript's `null` (or `NaN` where a number is expected). */
module Wrappers {
  datatype Option<+T> = None | Some(value: T)
}
