/** Types and machine limits shared by every component of the model. */
module Common {
  datatype Option<+T> = None | Some(value: T)

  datatype Result<+T, +E> = Ok(value: T) | Err(error: E)

  newtype byte = x: int | 0 <= x < 256

  type Bytes = seq<byte>

  const U16_MAX := 0xFFFF
  const U32_MAX := 0xFFFF_FFFF
  const U64_MAX := 0xFFFF_FFFF_FFFF_FFFF
  const U64_MODULUS := 0x1_0000_0000_0000_0000
  const I32_MAX := 0x7FFF_FFFF
  const I64_MAX := 0x7FFF_FFFF_FFFF_FFFF
  // The modelled target is 64-bit, so `usize` and `isize` have these ranges.
  const USIZE_MAX := U64_MAX
  const ISIZE_MAX := I64_MAX

  function Min(a: int, b: int): int { if a <= b then a else b }

  function Max(a: int, b: int): int { if a <= b then b else a }

  /** An unsigned 64-bit integer with wrapping arithmetic. */
  type Word = n: nat | n < U64_MODULUS

  function WrappingAdd(a: Word, b: Word): Word { (a + b) % U64_MODULUS }

  function WrappingSub(a: Word, b: Word): Word { (a - b) % U64_MODULUS }

  function SaturatingSub(a: nat, b: nat): nat { if a >= b then a - b else 0 }

  lemma Scaled(a: int, b: int, factor: nat)
    requires a <= b
    ensures a * factor <= b * factor
  {
  }
}
