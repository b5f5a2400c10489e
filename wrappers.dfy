/** Optional values: a header that may be absent, a decoded token that may be refused. */
module Wrappers {

  datatype Option<+T> = None | Some(value: T)
}
