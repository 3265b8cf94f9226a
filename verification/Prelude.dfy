/** Value types shared by every module: optional values, byte strings, 64-bit words, time. */
module Prelude {

  datatype Option<+T> = None | Some(value: T)

  type byte = x: int | 0 <= x < 256
  type Bytes = seq<byte>

  const U64_MAX := 0xFFFF_FFFF_FFFF_FFFF
  type u64 = x: int | 0 <= x <= 0xFFFF_FFFF_FFFF_FFFF

  const I64_MIN := -0x8000_0000_0000_0000
  const I64_MAX := 0x7FFF_FFFF_FFFF_FFFF
  type i64 = x: int | -0x8000_0000_0000_0000 <= x <= 0x7FFF_FFFF_FFFF_FFFF

  /** A point of the monotonic clock, in nanoseconds. */
  type Time = int
  const NANOS_PER_MS := 1_000_000
  const NANOS_PER_SEC := 1_000_000_000

  /** `x + 1` on a u64 with the wrap-around of an optimised build. */
  function Succ64(x: u64): u64 {
    if x == U64_MAX then 0 else x + 1
  }

  function Min(a: nat, b: nat): nat {
    if a <= b then a else b
  }

  /** Rust's `iter.take(count.unwrap_or(usize::MAX))`. */
  function Take<T>(s: seq<T>, count: Option<nat>): (r: seq<T>)
    ensures r <= s
    ensures count.Some? && count.value == 0 ==> r == []
    ensures s != [] && (count.Some? ==> count.value > 0) ==> r != []
  {
    if count.Some? && count.value < |s| then s[..count.value] else s
  }
}
