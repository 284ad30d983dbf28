/** Optional values: a body field that may be absent, an id that may not parse. */
module Wrappers {

  datatype Option<+T> = None | Some(value: T)
}
