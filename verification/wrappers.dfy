/** Small failure-carrying datatypes shared by the rest of the model. */
module Wrappers {

  /** A value that may be missing: an absent header, an unset environment
      variable, a JSON field that is undefined or null. */
  datatype Option<+T> = None | Some(value: T)

  /** The completion of a JavaScript expression: either it produced a value
      or it threw (a TypeError on a null property read, an Error raised by a
      library). The handler's try/catch turns every throw into the same
      outcome, so the thrown value itself is not kept. */
  datatype Completion<+T> = Normal(value: T) | Thrown
}
