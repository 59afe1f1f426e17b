/** Optional values, standing in for the program's nullable pointers. */
module Wrappers {

  datatype Option<+T> = None | Some(value: T)
}
