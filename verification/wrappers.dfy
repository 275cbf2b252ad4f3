/** Optional values, shared by the decoders of this model. */
module Wrappers {

  /** An optional value: the result of a decoder that can reject its input. */
  datatype Option<+T> = None | Some(value: T)
}
