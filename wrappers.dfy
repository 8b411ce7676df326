/** The optional value used wherever the page code holds a string or `null`. */
module Wrappers {
  datatype Option<+T> = None | Some(value: T)
}
