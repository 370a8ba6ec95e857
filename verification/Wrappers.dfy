/** The one failure-compatible datatype the models share. */
module Wrappers {
  datatype Option<+T> = None | Some(value: T)
}
