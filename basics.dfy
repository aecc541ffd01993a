/** Small shared vocabulary: optional values, results, and the fixed-width
    unsigned integers the store works with. */
module Basics {

  datatype Option<+T> = None | Some(value: T) {
    /** The held value, or `default` when there is none. */
    function GetOr(default: T): T {
      match this
      case Some(v) => v
      case None => default
    }
  }

  datatype Result<+T, +E> = Ok(value: T) | Err(error: E)

  const U32_MAX: int := 0xFFFF_FFFF
  const U64_MAX: int := 0xFFFF_FFFF_FFFF_FFFF

  type u32 = x: int | 0 <= x <= U32_MAX
  type u64 = x: int | 0 <= x <= U64_MAX

  function Min(a: int, b: int): int {
    if a <= b then a else b
  }

  /** `a.saturating_sub(b)` on unsigned integers: never goes below zero. */
  function SaturatingSub(a: u32, b: u32): (r: u32)
    ensures r <= a
    ensures a - r == Min(a, b)
    ensures b <= a ==> r == a - b
    ensures a < b ==> r == 0
  {
    if a >= b then a - b else 0
  }

  /** `x as u32` on an unsigned 64-bit value: keeps the low 32 bits. */
  function TruncateToU32(x: u64): (r: u32)
    ensures x <= U32_MAX ==> r == x
  {
    x % (U32_MAX + 1)
  }

  /** `x + 1` on a `u64` in a release build, which wraps around. */
  function WrappingIncrement(x: u64): (r: u64)
    ensures x < U64_MAX ==> r == x + 1
    ensures x == U64_MAX ==> r == 0
  {
    (x + 1) % (U64_MAX + 1)
  }

  /** Concatenation is associative. */
  lemma AppendAssoc<T>(a: seq<T>, b: seq<T>, c: seq<T>)
    ensures (a + b) + c == a + (b + c)
  {
  }
}
