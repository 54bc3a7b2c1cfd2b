/** Optional values, standing for Go's nil pointers and nil interface values. */
module Wrappers {

  datatype Option<+T> = None | Some(value: T)
}
