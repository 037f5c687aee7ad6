/**
  C#'s unchecked fixed-width integer arithmetic (`ulong`, `uint`, `int`),
  written out over Dafny's unbounded integers.  Every operator here wraps
  exactly as the C# operator does in an unchecked context.
 */
module Unchecked {

  const TWO_31: int := 0x8000_0000
  const TWO_32: int := 0x1_0000_0000
  const TWO_64: int := 0x1_0000_0000_0000_0000

  /** C# `uint` */
  type u32 = x: int | 0 <= x < TWO_32
  /** C# `ulong` */
  type u64 = x: int | 0 <= x < TWO_64
  /** C# `int` */
  type i32 = x: int | -TWO_31 <= x < TWO_31

  /** `a + b` on `ulong`: wraps at most once. */
  function Add64(a: u64, b: u64): u64
  {
    if a + b < TWO_64 then a + b else a + b - TWO_64
  }

  /** `a - b` on `ulong`: a smaller minuend wraps around to a large value. */
  function Sub64(a: u64, b: u64): u64
  {
    if b <= a then a - b else a - b + TWO_64
  }

  /** `(uint)x` for a non-negative value: keeps the low 32 bits. */
  function Trunc32(x: nat): (r: u32)
    ensures x < TWO_32 ==> r == x
    ensures (x - r) % TWO_32 == 0
  {
    x % TWO_32
  }

  /** `a - b` on `uint`. */
  function Sub32(a: u32, b: u32): (r: u32)
    ensures b <= a ==> r == a - b
    ensures a < b ==> r == a - b + TWO_32
  {
    (a - b) % TWO_32
  }

  /** `(int)x` for a `uint` in an unchecked context: the same 32 bits read as two's complement. */
  function AsInt32(x: u32): (r: i32)
    ensures (x - r) % TWO_32 == 0
  {
    if x < TWO_31 then x else x - TWO_32
  }

  /** `x++` on `int`: `int.MaxValue` wraps to `int.MinValue`. */
  function Inc32(x: i32): i32
  {
    if x < TWO_31 - 1 then x + 1 else -TWO_31
  }

  /** `x++` on `uint`: `uint.MaxValue` wraps to 0. */
  function IncU32(x: u32): u32
  {
    if x < TWO_32 - 1 then x + 1 else 0
  }

  /** `n` successive `x++` on `int`. */
  function Advance32(x: i32, n: nat): i32
  {
    if n == 0 then x else Inc32(Advance32(x, n - 1))
  }

  /** The branch forms above agree with C#'s definition of unchecked arithmetic: the result modulo 2^n. */
  lemma WrapIsModular(a: u64, b: u64, x: i32, y: u32)
    ensures Add64(a, b) == (a + b) % TWO_64
    ensures Sub64(a, b) == (a - b) % TWO_64
    ensures (Inc32(x) - (x + 1)) % TWO_32 == 0
    ensures IncU32(y) == (y + 1) % TWO_32
  {
  }

  /** Subtracting the difference back gives the subtrahend, in every direction (mod 2^64). */
  lemma SubSubCancel(a: u64, b: u64)
    ensures Sub64(a, Sub64(a, b)) == b
  {
  }

  /** Shifting a baseline `s` back by `Sub64(x, Sub64(c, s))` makes `c - baseline` equal `x`. */
  lemma ShiftBaseline(c: u64, s: u64, x: u64)
    ensures Sub64(c, Sub64(s, Sub64(x, Sub64(c, s)))) == x
  {
  }

  /** The unchecked `uint` difference read as `int` is the true signed difference when that fits. */
  lemma SignedDifference(a: u32, b: u32)
    requires -TWO_31 <= a - b < TWO_31
    ensures AsInt32(Sub32(a, b)) == a - b
  {
  }

  /** As long as `int.MaxValue` is not passed, `n` increments add exactly `n`. */
  lemma {:induction false} AdvanceNoWrap(x: i32, n: nat)
    requires x + n < TWO_31
    ensures Advance32(x, n) == x + n
  {
    if n > 0 {
      AdvanceNoWrap(x, n - 1);
    }
  }
}
