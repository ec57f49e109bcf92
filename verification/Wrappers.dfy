/** The optional values that stand for Go's nil results and absent entries. */
module Wrappers {
  datatype Option<+T> = None | Some(value: T)
}
