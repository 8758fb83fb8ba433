/** Types shared by the models. */
module Basics {

  datatype Option<T> = None | Some(value: T)

  /** An octet. */
  type byte = x: int | 0 <= x < 256
}
