/** The usual optional value, for a header or query parameter that may be
    missing and for a request body that may fail to parse. */
module Wrappers {

  datatype Option<+T> = None | Some(value: T)
}
