/** Optional values, standing for Java's null and for "no such index". */
module Wrappers {
  datatype Option<+T> = None | Some(value: T)
}
