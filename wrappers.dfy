/** Optional values, used for the nullable columns and the "not found" answers of the model. */
module Wrappers {

  datatype Option<+T> = None | Some(value: T)
}
