/** Optional values: JavaScript's `null` / `undefined` for a field or a state slot. */
module Wrappers {

  datatype Option<+T> = None | Some(value: T)
}
