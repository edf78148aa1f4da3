/** The block grid that `FileStatisticsCollector::Resize` derives for a file of
    `n` bytes (lib/src/io/file_stats.cc:32-36): a block count and a block shift,
    block size 2^shift, with at most `maxCount` blocks before the coverage bump. */
module Geometry {
  import opened Bits

  datatype BlockGrid = BlockGrid(count: nat, shift: nat)

  function Max(a: nat, b: nat): nat
  {
    if a < b then b else a
  }

  /** The coarsening loop: halve the count and double the block size while the
      count exceeds `maxCount`. */
  function Coarsen(count: nat, shift: nat, maxCount: nat): (g: BlockGrid)
    decreases count
  {
    if count > maxCount then Coarsen(count / 2, shift + 1, maxCount) else BlockGrid(count, shift)
  }

  /** Multiplying both sides of an inequality by the same natural number. */
  lemma MulMonotone(a: nat, b: nat, p: nat)
    requires a <= b
    ensures a * p <= b * p
  {
  }

  /** One halving step keeps `n` between `count` and `count + 1` blocks. */
  lemma HalvingKeepsBounds(n: nat, count: nat, shift: nat)
    requires count * Pow2(shift) <= n < (count + 1) * Pow2(shift)
    ensures (count / 2) * Pow2(shift + 1) <= n < (count / 2 + 1) * Pow2(shift + 1)
  {
    var half, p := count / 2, Pow2(shift);
    assert Pow2(shift + 1) == 2 * p;
    MulMonotone(2 * half, count, p);
    assert half * (2 * p) == (2 * half) * p;
    MulMonotone(count + 1, 2 * half + 2, p);
    assert (half + 1) * (2 * p) == (2 * half + 2) * p;
  }

  /** Halving keeps `count` the number of whole blocks of size 2^shift in `n`,
      stops at the first shift where that number fits into `maxCount`, and never
      shrinks the shift. */
  lemma {:induction false} CoarsenBounds(n: nat, count: nat, shift: nat, maxCount: nat)
    requires maxCount >= 1 && count >= 1
    requires count * Pow2(shift) <= n < (count + 1) * Pow2(shift)
    ensures var g := Coarsen(count, shift, maxCount);
      1 <= g.count <= maxCount && g.shift >= shift &&
      g.count * Pow2(g.shift) <= n < (g.count + 1) * Pow2(g.shift) &&
      (g.shift > shift ==> (maxCount + 1) * Pow2(g.shift - 1) <= n)
  {
    if count > maxCount {
      HalvingKeepsBounds(n, count, shift);
      MulMonotone(maxCount + 1, count, Pow2(shift));
      CoarsenBounds(n, count / 2, shift + 1, maxCount);
    }
  }

  /** `max(n >> minShift, 1)`: the block count the coarsening loop starts from. */
  function StartCount(n: nat, minShift: nat): nat
  {
    Max(ShiftRight(n, minShift), 1)
  }

  /** The start count is the number of whole minimum-size blocks in `n`, or a
      single block when `n` is smaller than one block. */
  lemma StartCountBounds(n: nat, minShift: nat)
    ensures var q, p := StartCount(n, minShift), Pow2(minShift);
      q >= 1 && q * p <= Max(n, p) && n < (q + 1) * p
  {
    var q, p := ShiftRight(n, minShift), Pow2(minShift);
    ShiftRightBounds(n, minShift);
    if q == 0 {
      assert (q + 1) * p == p;
    }
  }

  /** What the coarsening loop makes of the initial count `count` at shift `minShift`. */
  lemma CoarsenInitial(n: nat, count: nat, minShift: nat, maxCount: nat)
    requires maxCount >= 1 && count >= 1
    requires count * Pow2(minShift) <= Max(n, Pow2(minShift)) && n < (count + 1) * Pow2(minShift)
    ensures var g := Coarsen(count, minShift, maxCount);
      1 <= g.count <= maxCount && g.shift >= minShift &&
      g.count * Pow2(g.shift) <= Max(n, Pow2(g.shift)) && n < (g.count + 1) * Pow2(g.shift) &&
      (g.shift > minShift ==> (maxCount + 1) * Pow2(g.shift - 1) <= n)
  {
    var p := Pow2(minShift);
    if n < p {
      if count > 1 {
        MulMonotone(2, count, p);
      }
      assert Coarsen(1, minShift, maxCount) == BlockGrid(1, minShift);
    } else {
      CoarsenBounds(n, count, minShift, maxCount);
    }
  }

  /** The coverage bump on plain numbers: adding one block when `count` blocks of
      size `p` fall short of `n`. */
  lemma BumpBounds(n: nat, count: nat, p: nat)
    requires count >= 1 && p >= 1
    requires count * p <= Max(n, p) && n < (count + 1) * p
    ensures var c := if count * p < n then count + 1 else count;
      c * p >= n && (n >= 1 ==> (c - 1) * p < n)
  {
  }

  /** Shifting zero right gives zero. */
  lemma {:induction false} ShiftRightZero(k: nat)
    ensures ShiftRight(0, k) == 0
  {
    if k > 0 {
      ShiftRightZero(k - 1);
    }
  }

  /** When `n` lies below `count + 1` blocks of size 2^shift, `n >> shift` is at most `count`. */
  lemma ShiftRightAtMost(n: nat, count: nat, shift: nat)
    requires n < (count + 1) * Pow2(shift)
    ensures ShiftRight(n, shift) <= count
  {
  }

  /** The grid `Resize(n)` settles on: the coarsened count, plus one block when the
      grid still falls short of `n`. It always covers the file, never holds a block
      that covers nothing, keeps the shift at least `minShift`, and coarsens only as
      far as needed to bring the count down to `maxCount` (the bump may then add
      one). An empty file gets one block of the minimum size. */
  function ComputeGrid(n: nat, minShift: nat, maxCount: nat): (g: BlockGrid)
    requires maxCount >= 1
    ensures 1 <= g.count <= maxCount + 1 && g.shift >= minShift
    ensures g.count * Pow2(g.shift) >= n
    ensures n >= 1 ==> (g.count - 1) * Pow2(g.shift) < n
    ensures g.shift > minShift ==> (maxCount + 1) * Pow2(g.shift - 1) <= n
    ensures ShiftRight(n, g.shift) <= maxCount
    ensures n == 0 ==> g == BlockGrid(1, minShift)
  {
    var c := Coarsen(StartCount(n, minShift), minShift, maxCount);
    StartCountBounds(n, minShift);
    CoarsenInitial(n, StartCount(n, minShift), minShift, maxCount);
    BumpBounds(n, c.count, Pow2(c.shift));
    ShiftRightAtMost(n, c.count, c.shift);
    ShiftRightZero(minShift);
    if c.count * Pow2(c.shift) < n then BlockGrid(c.count + 1, c.shift) else c
  }

  /** 1000 bytes with minimum shift 6 and at most 64 blocks give 16 blocks of 64
      bytes: 15 whole blocks, bumped to 16 for coverage. */
  lemma ComputeGridExample()
    ensures ComputeGrid(1000, 6, 64) == BlockGrid(16, 6)
  {
  }

  /** The coverage bump can take the count one past `maxCount`. */
  lemma ComputeGridCanExceedMaxCount()
    ensures ComputeGrid(3, 0, 1) == BlockGrid(2, 1)
  {
  }
}
