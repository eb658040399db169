/** Optional values: `None` stands for the absent fields and the "N/A" results of the source. */
module Wrappers {
  datatype Option<T> = None | Some(value: T)
}
