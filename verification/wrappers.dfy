/** The optional value used wherever the source may return or hold Python's `None`. */
module Wrappers {
  datatype Option<+T> = None | Some(value: T)
}
