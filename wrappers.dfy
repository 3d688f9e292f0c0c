/** Optional values, for JavaScript's `undefined` results and optional members. */
module Wrappers {

  datatype Option<+T> = None | Some(value: T)
}
