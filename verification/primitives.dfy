/** The fixed-width integers and the account identifiers the contract works with. */
module Primitives {

  const TWO_TO_8: int := 0x100
  const TWO_TO_64: int := 0x1_0000_0000_0000_0000
  const TWO_TO_128: int := 0x1_0000_0000_0000_0000_0000_0000_0000_0000

  /** Rust's `u8`: one byte of entropy. */
  newtype U8 = x: int | 0 <= x < TWO_TO_8

  /** Rust's `u64`: block heights and timestamps. */
  newtype U64 = x: int | 0 <= x < TWO_TO_64

  /** Rust's `u128` (also near_sdk's `U128` wrapper): balances and fraction parts.
      Every `+`, `-` and `*` on it carries the obligation that it does not leave the range. */
  newtype U128 = x: int | 0 <= x < TWO_TO_128

  /** A NEAR account name. */
  type AccountId = string
}
