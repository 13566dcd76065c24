/** A table cell that may be missing (a NaN cell in the loaded data frame). */
module Wrappers {
  datatype Option<+T> = None | Some(value: T)
}
