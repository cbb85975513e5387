/** Optional values: the model's stand-in for JavaScript `null` / Python `None`. */
module Wrappers {

  datatype Option<+T> = None | Some(value: T)
}
