/** The optional value returned by a lookup in the correlation store. */
module Wrappers {

  datatype Option<+T> = None | Some(value: T)

}
