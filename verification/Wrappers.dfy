/** The optional value used wherever the modelled program has `undefined` or `null`. */
module Wrappers {
  datatype Option<+T> = None | Some(value: T)
}
