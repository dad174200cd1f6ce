/** The usual optional value, used for `null` results of the browser lookups. */
module Wrappers {

  datatype Option<+T> = None | Some(value: T)
}
