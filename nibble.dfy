/** The lossy logarithmic bucketing `as_nibble` of lib/src/io/file_stats.cc and
    the packing of two 4-bit levels into one exported byte. */
module Nibble {
  import opened Bits

  /** The largest k with 2^k <= n. */
  function Log2Floor(n: nat): (k: nat)
    requires n >= 1
    ensures Pow2(k) <= n < Pow2(k + 1)
  {
    if n == 1 then 0 else 1 + Log2Floor(n / 2)
  }

  /** Reference definition of the level of a hit counter: the number of doubling
      thresholds 2^L - 1 it reaches, capped at 15. */
  function NibbleLevel(hits: nat): (level: nat)
    ensures level <= 15
  {
    var k := Log2Floor(hits + 1);
    if k < 15 then k else 15
  }

  /** NibbleLevel(hits) is the largest L in [0, 15] with hits >= 2^L - 1. */
  lemma NibbleLevelIsLargest(hits: nat)
    ensures Pow2(NibbleLevel(hits)) - 1 <= hits
    ensures forall l: nat :: NibbleLevel(hits) < l <= 15 ==> hits < Pow2(l) - 1
  {
    var level := NibbleLevel(hits);
    if level < 15 {
      forall l: nat | level < l <= 15
        ensures hits < Pow2(l) - 1
      {
        Pow2Monotone(level + 1, l);
      }
    }
    Pow2Monotone(level, Log2Floor(hits + 1));
  }

  /** The largest-threshold property determines the level: any L that reaches its
      threshold and misses the next one (or is the ceiling 15) is NibbleLevel(hits). */
  lemma NibbleLevelUnique(hits: nat, level: nat)
    requires level <= 15
    requires Pow2(level) - 1 <= hits
    requires level == 15 || hits < Pow2(level + 1) - 1
    ensures level == NibbleLevel(hits)
  {
    var k := Log2Floor(hits + 1);
    assert Pow2(k) <= hits + 1 < Pow2(k + 1);
    if k < level {
      Pow2Monotone(k + 1, level);
    } else if level < 15 && level < k {
      Pow2Monotone(level + 1, k);
    }
    assert level < 15 ==> k == level;
    assert level == 15 ==> k >= 15;
  }

  /** More hits never give a lower level. */
  lemma NibbleLevelMonotone(a: nat, b: nat)
    requires a <= b
    ensures NibbleLevel(a) <= NibbleLevel(b)
  {
    NibbleLevelIsLargest(a);
    NibbleLevelIsLargest(b);
  }

  /** Sample levels, and the ceiling from 2^15 - 1 hits on. */
  lemma NibbleLevelSamples(huge: nat)
    requires huge >= Pow2(15) - 1
    ensures NibbleLevel(0) == 0 && NibbleLevel(1) == 1 && NibbleLevel(2) == 1
    ensures NibbleLevel(3) == 2 && NibbleLevel(5) == 2 && NibbleLevel(7) == 3
    ensures NibbleLevel(huge) == 15
  {
    NibbleLevelUnique(0, 0);
    NibbleLevelUnique(1, 1);
    NibbleLevelUnique(2, 1);
    NibbleLevelUnique(3, 2);
    NibbleLevelUnique(5, 2);
    NibbleLevelUnique(7, 3);
    NibbleLevelUnique(huge, 15);
  }

  /** `as_nibble`: scans the thresholds 2^value - 1 for value = 0 .. 15 and keeps
      the last one reached, stopping at the first one missed. */
  method AsNibble(hits: nat) returns (hitsGeq: nat)
    ensures hitsGeq == NibbleLevel(hits)
  {
    hitsGeq := 0;
    var value := 0;
    while value < 16
      invariant value <= 16
      invariant value == 0 ==> hitsGeq == 0
      invariant value > 0 ==> hitsGeq == value - 1
      invariant Pow2(hitsGeq) - 1 <= hits
    {
      if hits >= Pow2(value) - 1 {
        hitsGeq := value;
      } else {
        break;
      }
      value := value + 1;
    }
    NibbleLevelUnique(hits, hitsGeq);
  }

  /** The low four bits of a byte. */
  function LowNibble(b: bv8): (n: nat)
    ensures n < 16
  {
    (b & 0xF) as nat
  }

  /** The high four bits of a byte. */
  function HighNibble(b: bv8): (n: nat)
    ensures n < 16
  {
    (b >> 4) as nat
  }

  /** `low | (high << 4)`: two levels in one byte, recoverable without overlap. */
  function PackNibbles(low: nat, high: nat): (b: bv8)
    requires low < 16 && high < 16
    ensures LowNibble(b) == low && HighNibble(b) == high
  {
    (low as bv8) | ((high as bv8) << 4)
  }

  /** Every byte is the packing of its own two nibbles. */
  lemma PackUnpack(b: bv8)
    ensures PackNibbles(LowNibble(b), HighNibble(b)) == b
  {
  }
}
