/** The optional value used for absent query parameters, failed parses and cache misses. */
module Wrappers {

  datatype Option<+T> = None | Some(value: T)
}
