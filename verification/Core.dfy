/** Shared datatypes and machine-integer bounds. */
module Core {

  datatype Option<+T> = None | Some(value: T)

  datatype Result<+T, +E> = Ok(value: T) | Err(error: E)

  /** A 128-bit UUID, as a number. */
  type Uuid = n: nat | n < UUID_BOUND

  const UUID_BOUND: nat := 0x1_0000_0000_0000_0000_0000_0000_0000_0000

  const I32_MAX: int := 0x7FFF_FFFF
  const I64_MAX: int := 0x7FFF_FFFF_FFFF_FFFF
  const U32_MAX: nat := 0xFFFF_FFFF

  function Min(a: int, b: int): int {
    if a <= b then a else b
  }

  function Max(a: int, b: int): int {
    if a <= b then b else a
  }

  /** Two's-complement addition on 32 bits, as a release build computes it. */
  function WrappingAdd32(a: int, b: int): int {
    (a + b + I32_MAX + 1) % (2 * (I32_MAX + 1)) - (I32_MAX + 1)
  }
}
