// Failure-carrying values and fixed-width integers shared by every component model.
module Wrappers {
  datatype Option<+T> = None | Some(value: T)

  datatype Result<+T, +E> = Success(value: T) | Failure(error: E)

  datatype Unit = Unit

  const MAX_U16 := 0xFFFF
  const MAX_U32 := 0xFFFF_FFFF
  const MAX_U64 := 0xFFFF_FFFF_FFFF_FFFF

  // Subset types: every assignment to one of these carries an overflow obligation.
  type u8 = x: int | 0 <= x <= 0xFF
  type u16 = x: int | 0 <= x <= MAX_U16
  type u32 = x: int | 0 <= x <= MAX_U32
  type u64 = x: int | 0 <= x <= MAX_U64

  // The unsigned absolute difference of two machine integers.
  function AbsDiff(a: int, b: int): (d: nat) {
    if a < b then b - a else a - b
  }

  // Subtraction that stops at zero.
  function SaturatingSub(a: nat, b: nat): (d: nat) {
    if a < b then 0 else a - b
  }

  function Max(a: int, b: int): (m: int) {
    if a < b then b else a
  }

  function Min(a: int, b: int): (m: int) {
    if a < b then a else b
  }
}
