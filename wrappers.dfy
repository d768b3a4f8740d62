/** The optional value used for PHP's `null`-or-value slots and for "no call made". */
module Wrappers {
  datatype Option<+T> = None | Some(value: T)
}
