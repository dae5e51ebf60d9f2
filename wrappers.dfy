/** Optional values: an absent header, a lookup that finds nothing, an oracle that throws. */
module Wrappers {

  datatype Option<+T> = None | Some(value: T)
}
