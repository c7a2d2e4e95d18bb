/** Optional values: the storage slot holds either nothing or one record. */
module Wrappers {

  datatype Option<+T> = None | Some(value: T)
}
