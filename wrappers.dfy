/** Option and Result: nil values and raised errors of the Ruby source. */
module Wrappers {

  /** A value that may be missing; `None` stands for Ruby's `nil`. */
  datatype Option<+T> = None | Some(value: T)

  /** The outcome of an operation that may raise; `Err` carries the message. */
  datatype Result<+T> = Ok(value: T) | Err(msg: string)
}
