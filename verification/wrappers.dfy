/** Failure-carrying values shared by the decoders of this model. */
module Wrappers {

  /** Either a value or nothing, used where the modelled Go code returns an error. */
  datatype Option<+T> = None | Some(value: T)
}
