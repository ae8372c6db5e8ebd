/** The optional value used for "no match" and "no error". */
module Wrappers {

  datatype Option<+T> = None | Some(value: T)
}
