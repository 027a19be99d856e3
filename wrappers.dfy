/** The optional value used for channel receives and for parsing. */
module Wrappers {

  datatype Option<+T> = None | Some(value: T)
}
