/** Small shared wrapper types. */
module Wrappers {
  /** A value that may be absent (JavaScript `null` / `undefined`). */
  datatype Option<T> = None | Some(value: T)
}
