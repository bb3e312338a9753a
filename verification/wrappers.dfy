/** Optional values, used where the source has a nullable lookup. */
module Wrappers {

  datatype Option<+T> = None | Some(value: T)

}
