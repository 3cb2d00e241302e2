/** The optional value used wherever the bench script can fail to produce one. */
module Wrappers {
  datatype Option<+T> = None | Some(value: T)
}
