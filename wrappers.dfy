/** A value that may be absent (a JavaScript `undefined` / `null` result). */
module Wrappers {
  datatype Option<+T> = None | Some(value: T)
}
