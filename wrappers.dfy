/** The optional value used where the browser API returns `null`. */
module Wrappers {

  datatype Option<+T> = None | Some(value: T)
}
