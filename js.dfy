/**
 * The few JavaScript number semantics the modelled code depends on: the
 * truncating remainder operator and the conversion to a 32-bit signed integer
 * that the bitwise operators apply.
 */
module Js {
  import opened Wrappers

  const TwoTo32: int := 0x1_0000_0000
  const TwoTo31: int := 0x8000_0000

  /** `a % b` for integer operands: the result takes the sign of `a` (Dafny's `%` never goes negative). */
  function Rem(a: int, b: int): (r: int)
    requires b != 0
    ensures a >= 0 ==> 0 <= r < if b > 0 then b else -b
    ensures a < 0 ==> -(if b > 0 then b else -b) < r <= 0
    ensures a >= 0 ==> r == a % b
  {
    if a >= 0 then a % b else -((-a) % b)
  }

  /** Stepping an index in `-1..n-1` forward modulo `n` wraps only at the end. */
  lemma RemOfSuccessor(i: int, n: int)
    requires -1 <= i < n && n > 0
    ensures Rem(i + 1, n) == if i + 1 == n then 0 else i + 1
  {
  }

  /** ToInt32: reduce modulo 2^32 into the signed range, as `x & x` and `x << n` do. */
  function ToInt32(x: int): (r: int)
    ensures -TwoTo31 <= r < TwoTo31
    ensures (r - x) % TwoTo32 == 0
  {
    var m := x % TwoTo32;
    if m >= TwoTo31 then m - TwoTo32 else m
  }

  /** `Math.abs` on an integer. */
  function Abs(x: int): (r: int)
    ensures r >= 0 && (r == x || r == -x)
  {
    if x < 0 then -x else x
  }

  /** `a[i]` on an array: `undefined` outside the index range (including a NaN index). */
  function ElementAt<T>(a: seq<T>, i: int): (r: Option<T>)
    ensures r.Some? <==> 0 <= i < |a|
    ensures r.Some? ==> r.value == a[i] && r.value in a
  {
    if 0 <= i < |a| then Some(a[i]) else None
  }
}
