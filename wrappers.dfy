/** Optional values: Java's nullable references and lookups that may miss. */
module Wrappers {
  datatype Option<+T> = None | Some(value: T)
}
