/** The optional value used wherever the source stores or returns `None`. */
module Wrappers {
  datatype Option<+T> = None | Some(value: T)
}
