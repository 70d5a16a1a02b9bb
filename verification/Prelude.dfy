/** What several modules share. */
module Prelude {

  type Byte = bv8
  type Bytes = seq<Byte>

  datatype Option<T> = None | Some(value: T)

  function Min(a: nat, b: nat): nat {
    if a <= b then a else b
  }
}
