/** Optional values, used for "no such element" answers of DOM queries and lookups. */
module Wrappers {

  datatype Option<+T> = None | Some(value: T)
}
