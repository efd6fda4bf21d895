/** The optional value used where pandas would produce NaN ("no data"). */
module Wrappers {

  datatype Option<+T> = None | Some(value: T)
}
