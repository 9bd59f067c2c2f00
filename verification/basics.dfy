/** What several components share. */
module Basics {

  newtype byte = x: int | 0 <= x < 256

  datatype Option<T> = None | Some(value: T)

  function Min(a: nat, b: nat): nat {
    if a < b then a else b
  }
}
