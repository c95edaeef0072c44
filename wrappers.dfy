/** Optional values: `None` stands for "the call raised an exception" in the inputs of the model. */
module Wrappers {
  datatype Option<+T> = None | Some(value: T)
}
