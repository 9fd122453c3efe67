/** Optional values: JavaScript's `null` results (an unparsable date) and empty cells. */
module Wrappers {
  datatype Option<+T> = None | Some(value: T)
}
