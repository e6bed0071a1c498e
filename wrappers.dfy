/** The optional value used for "found or not" and "succeeded or failed". */
module Wrappers {

  datatype Option<+T> = None | Some(value: T)
}
