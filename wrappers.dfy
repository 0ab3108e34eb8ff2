/** Option, Result and the absolute value, shared by the modules of this project. */
module Wrappers {

  /** An optional value: `None` stands for an absent value or a failed step. */
  datatype Option<+T> = None | Some(value: T)

  /** A value or the error the source would raise instead. */
  datatype Result<+R, +E> = Success(value: R) | Failure(error: E)

  /** Python's `abs` on a number. */
  function Abs(x: real): real { if x < 0.0 then -x else x }
}
