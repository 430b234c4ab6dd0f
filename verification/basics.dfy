/** Small wrapper types shared by the whole model. */
module Basics {

  /** A JavaScript slot that may be `undefined`: an optional handler, an optional return value. */
  datatype Option<+T> = None | Some(value: T)

  /** The result of calling a handler the test supplied: it either returns a value or throws. */
  datatype Attempt<+T> = Returned(value: T) | Threw
}
