/** Optional values, used for absent query parameters, absent headers and lookups that find nothing. */
module Wrappers {

  datatype Option<+T> = None | Some(value: T)
}
