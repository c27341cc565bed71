/** What several components share. */
module Basics {
  datatype Option<T> = None | Some(value: T)

  type byte = x: nat | x < 256
}
