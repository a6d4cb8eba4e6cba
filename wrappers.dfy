/** The optional value used wherever JavaScript has `undefined`, `null` or `NaN`. */
module Wrappers {
  datatype Option<+T> = None | Some(value: T)
}
