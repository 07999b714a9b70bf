/** Option, used for the outcome of parsing text that may be malformed. */
module Wrappers {

  datatype Option<+T> = None | Some(value: T)

}
