/** Option and Result values, and the error kinds the crate reports. */
module Wrappers {

  datatype Option<+T> = None | Some(value: T)

  datatype Result<+T, +E> = Ok(value: T) | Err(error: E)

  /** `std::io::ErrorKind` as far as the modelled code distinguishes it. `Panicked` stands for an
      `expect` that fails; `Os` carries any other errno the kernel returned. */
  datatype IoError =
    | WouldBlock
    | InvalidInput
    | InvalidData
    | WriteZero
    | Panicked
    | Os(errno: int)

  function Min(a: nat, b: nat): nat {
    if a <= b then a else b
  }

  function Max(a: nat, b: nat): nat {
    if a >= b then a else b
  }
}
