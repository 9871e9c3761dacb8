/** Small failure-carrying datatypes shared by the rest of the model. */
module Wrappers {

  /** A value that may be absent: a request body field that was not sent. */
  datatype Option<+T> = None | Some(value: T)

  /** The outcome of a call into a library that may throw: the value it
      returned, or the fact that it threw. */
  datatype Call<+T> = Done(value: T) | Threw
}
