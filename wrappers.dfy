/** Optional values, used for reads that can fail and for faults that the
    memory controller turns into an error answer. */
module Wrappers {

  datatype Option<+T> = None | Some(value: T)
}
