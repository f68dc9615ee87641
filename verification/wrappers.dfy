/** The optional value used for every fallible decode: None is the "invalid object" outcome. */
module Wrappers {

  datatype Option<+T> = None | Some(value: T)
}
