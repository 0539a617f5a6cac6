/** The optional-value datatype shared by the model (Python's `X | None`). */
module Wrappers {
  datatype Option<+T> = None | Some(value: T)
}
