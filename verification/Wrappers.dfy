/** Failure values and the fixed-width integers the sources use. */
module Wrappers {

  datatype Option<+T> = None | Some(value: T)

  datatype Result<+T, +E> = Success(value: T) | Failure(error: E)

  const U16_MAX: nat := 0xFFFF
  const U32_MAX: nat := 0xFFFF_FFFF
  const U64_MAX: nat := 0xFFFF_FFFF_FFFF_FFFF

  type u8 = n: nat | n < 256
  type u16 = n: nat | n <= U16_MAX
  type u32 = n: nat | n <= U32_MAX
  type u64 = n: nat | n <= U64_MAX
}
