/** Optional values: a JavaScript `undefined` read or a lookup that finds nothing. */
module Wrappers {
  datatype Option<+T> = None | Some(value: T)
}
