/** The optional value used for session fields and query-string parameters
    that may be absent (JavaScript's `undefined` / `null`). */
module Wrappers {

  datatype Option<+T> = None | Some(value: T)
}
