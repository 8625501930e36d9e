/** The optional-value type used wherever JavaScript has `null`/`undefined` or a call may fail. */
module Wrappers {

  datatype Option<+T> = None | Some(value: T)
}
