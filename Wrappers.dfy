/** Optional values: the model's stand-in for the `NaN` and `None` sentinels of the source. */
module Wrappers {

  datatype Option<+T> = None | Some(value: T)
}
