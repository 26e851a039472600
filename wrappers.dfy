/** The absence signal of the extractor: a ticket record or nothing. */
module Wrappers {
  datatype Option<+T> = None | Some(value: T)
}
