/** The stock option type, used wherever the program has `undefined` or `null`. */
module Wrappers {

  datatype Option<+T> = None | Some(value: T)
}
