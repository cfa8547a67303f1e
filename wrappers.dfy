/** The optional value used wherever the script tests a value for `undefined` or `null`. */
module Wrappers {

  datatype Option<+T> = None | Some(value: T)
}
