/** The optional value used wherever the source returns `None` or leaves a variable at `None`. */
module Wrappers {

  datatype Option<+T> = None | Some(value: T)
}
