/** The optional value used for "JavaScript `undefined`" and for outcomes that may be absent. */
module Wrappers {

  datatype Option<+T> = None | Some(value: T)
}
