/** The optional value used wherever the application has a value or JavaScript's `null`. */
module Wrappers {

  datatype Option<+T> = None | Some(value: T)
}
