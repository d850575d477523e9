/** The optional value used for PHP's nullable returns and for falsy thresholds. */
module Wrappers {

  datatype Option<+T> = None | Some(value: T)
}
