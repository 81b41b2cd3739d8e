/** Small failure-compatible helper types shared by the other modules. */
module Wrappers {

  /** A value that may be absent: JavaScript's `null`/`undefined` alternatives. */
  datatype Option<+T> = None | Some(value: T)
}
