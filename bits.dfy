/** Powers of two: the meaning of the left shifts `1 << k` and `x << k` used in
    lib/src/io/file_stats.cc, taken over unbounded integers. */
module Bits {

  /** 2^k, that is `1 << k` without a word width. */
  function Pow2(k: nat): (p: nat)
    ensures p >= 1
  {
    if k == 0 then 1 else 2 * Pow2(k - 1)
  }

  /** A larger exponent never gives a smaller power; a strictly larger one gives a strictly larger power. */
  lemma {:induction false} Pow2Monotone(a: nat, b: nat)
    requires a <= b
    ensures Pow2(a) <= Pow2(b)
    ensures a < b ==> Pow2(a) < Pow2(b)
  {
    if a < b {
      Pow2Monotone(a, b - 1);
    }
  }

  /** `n >> k`: k halvings of `n`, each dropping the lowest bit. */
  function ShiftRight(n: nat, k: nat): nat
  {
    if k == 0 then n else ShiftRight(n / 2, k - 1)
  }

  /** Doubling one factor of a product doubles the product. */
  lemma MulDouble(a: nat, p: nat)
    ensures a * (2 * p) == 2 * (a * p)
  {
  }

  /** `n >> k` is the number of whole blocks of size 2^k in `n`. */
  lemma {:induction false} ShiftRightBounds(n: nat, k: nat)
    ensures ShiftRight(n, k) * Pow2(k) <= n < (ShiftRight(n, k) + 1) * Pow2(k)
  {
    if k > 0 {
      var q, p, half := ShiftRight(n / 2, k - 1), Pow2(k - 1), n / 2;
      ShiftRightBounds(half, k - 1);
      MulDouble(q, p);
      MulDouble(q + 1, p);
    }
  }
}
