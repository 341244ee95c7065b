/** The optional-value datatype shared by the model. */
module Wrappers {

  /** `None` stands for an absent value: JavaScript's `undefined`, Python's `None`. */
  datatype Option<+T> = None | Some(value: T)
}
