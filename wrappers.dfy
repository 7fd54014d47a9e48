/** The optional value used for the applet's pending timeout handle
    (JavaScript `null` or a source id). */
module Wrappers {
  datatype Option<+T> = None | Some(value: T)
}
