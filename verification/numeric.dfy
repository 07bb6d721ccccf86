/** Python's `int(x)` on a number: truncation toward zero. */
module Numeric {

  /**
   * `int(x)` for a float `x`, over exact reals: the integer nearest to `x`
   * on the side of zero. (Dafny's `Floor` rounds down instead, which differs
   * for negative non-integers.)
   */
  function Trunc(x: real): (n: int)
    ensures 0.0 <= x ==> 0 <= n && n as real <= x < n as real + 1.0
    ensures x < 0.0 ==> n <= 0 && n as real - 1.0 < x <= n as real
  {
    if x >= 0.0 then x.Floor else -((-x).Floor)
  }

  /** Truncation is monotone. */
  lemma TruncMonotone(x: real, y: real)
    requires x <= y
    ensures Trunc(x) <= Trunc(y)
  {
  }

  /** An integer truncates to itself. */
  lemma TruncOfInt(k: int)
    ensures Trunc(k as real) == k
  {
  }

  /** Adding a natural number to a non-negative value shifts its truncation by exactly that number. */
  lemma TruncShift(x: real, k: nat)
    requires 0.0 <= x
    ensures Trunc(x + k as real) == Trunc(x) + k
  {
  }
}
