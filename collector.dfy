/** `FileStatisticsCollector` of lib/src/io/file_stats.cc: a grid of per-block
    counters over one file, six whole-file counters, the `Resize` that re-derives
    the grid, and the read-only `ExportStatistics` snapshot. */
module FileStatistics {
  import opened Bits
  import opened Nibble
  import opened Geometry

  /** The raw counters of one block. */
  datatype BlockStatistics = BlockStatistics(
    fileWrite: nat, fileReadCold: nat, fileReadAhead: nat,
    fileReadCached: nat, pageAccess: nat, pageLoad: nat)

  /** The record a reallocation starts every block with. */
  const ZeroBlock := BlockStatistics(0, 0, 0, 0, 0, 0)

  /** The six whole-file counters. */
  datatype Aggregates = Aggregates(
    fileReadCold: nat, fileReadAhead: nat, fileReadCached: nat,
    fileWrite: nat, pageAccess: nat, pageLoad: nat)

  /** The six levels of one block, as an exported record carries them. */
  datatype BlockLevels = BlockLevels(
    fileWrite: nat, fileReadCold: nat, fileReadAhead: nat,
    fileReadCached: nat, pageAccess: nat, pageLoad: nat)

  /** One exported block: three bytes of two nibbles each. */
  datatype ExportedBlockStats = ExportedBlockStats(byte0: bv8, byte1: bv8, byte2: bv8)

  /** The exported snapshot: the header fields and one record per block. */
  datatype ExportFileStatistics = ExportFileStatistics(
    bytesFileCold: nat, bytesFileAhead: nat, bytesFileCached: nat,
    bytesFileWrite: nat, bytesPageAccess: nat, bytesPageLoad: nat,
    blockSize: nat, blockStats: seq<ExportedBlockStats>)

  predicate LevelsInRange(l: BlockLevels)
  {
    l.fileWrite < 16 && l.fileReadCold < 16 && l.fileReadAhead < 16 &&
    l.fileReadCached < 16 && l.pageAccess < 16 && l.pageLoad < 16
  }

  /** The level of every counter of a block. */
  function Levels(b: BlockStatistics): (l: BlockLevels)
    ensures LevelsInRange(l)
  {
    BlockLevels(NibbleLevel(b.fileWrite), NibbleLevel(b.fileReadCold), NibbleLevel(b.fileReadAhead),
                NibbleLevel(b.fileReadCached), NibbleLevel(b.pageAccess), NibbleLevel(b.pageLoad))
  }

  /** Byte 0 holds file_write (low) and file_read_cold (high), byte 1 file_read_ahead
      and file_read_cached, byte 2 page_access and page_load. */
  function PackLevels(l: BlockLevels): (r: ExportedBlockStats)
    requires LevelsInRange(l)
    ensures UnpackLevels(r) == l
  {
    ExportedBlockStats(PackNibbles(l.fileWrite, l.fileReadCold),
                       PackNibbles(l.fileReadAhead, l.fileReadCached),
                       PackNibbles(l.pageAccess, l.pageLoad))
  }

  /** Reads the six levels back out of a record. */
  function UnpackLevels(r: ExportedBlockStats): (l: BlockLevels)
    ensures LevelsInRange(l)
  {
    BlockLevels(LowNibble(r.byte0), HighNibble(r.byte0), LowNibble(r.byte1),
                HighNibble(r.byte1), LowNibble(r.byte2), HighNibble(r.byte2))
  }

  /** Every record is the packing of the levels it holds. */
  lemma PackUnpackLevels(r: ExportedBlockStats)
    ensures PackLevels(UnpackLevels(r)) == r
  {
    PackUnpack(r.byte0);
    PackUnpack(r.byte1);
    PackUnpack(r.byte2);
  }

  /** The exported record of one block. */
  function EncodeBlock(b: BlockStatistics): (r: ExportedBlockStats)
    ensures UnpackLevels(r) == Levels(b)
  {
    PackLevels(Levels(b))
  }

  /** The exported records of a sequence of blocks, in order. */
  function EncodeBlocks(s: seq<BlockStatistics>): (rs: seq<ExportedBlockStats>)
    ensures |rs| == |s|
    ensures forall i :: 0 <= i < |s| ==> UnpackLevels(rs[i]) == Levels(s[i])
  {
    seq(|s|, i requires 0 <= i < |s| => EncodeBlock(s[i]))
  }

  class FileStatisticsCollector {
    /** `MIN_RANGE_SHIFT`: the smallest block shift a resize uses. */
    const minRangeShift: nat
    /** `MAX_RANGE_COUNT`: the block count the coarsening loop brings the grid down to. */
    const maxRangeCount: nat

    var blockShift: nat
    var blockCount: nat
    var blockStats: array<BlockStatistics>

    var bytesFileReadCold: nat
    var bytesFileReadAhead: nat
    var bytesFileReadCached: nat
    var bytesFileWrite: nat
    var bytesPageAccess: nat
    var bytesPageLoad: nat

    var active: bool

    /** One record per block; once a resize has happened the grid keeps the bounds
        ComputeGrid guarantees. */
    ghost predicate Valid()
      reads this
    {
      maxRangeCount >= 1 &&
      blockStats.Length == blockCount &&
      (blockCount != 0 ==> blockShift >= minRangeShift && blockCount <= maxRangeCount + 1)
    }

    function Grid(): BlockGrid
      reads this
    {
      BlockGrid(blockCount, blockShift)
    }

    function Totals(): Aggregates
      reads this
    {
      Aggregates(bytesFileReadCold, bytesFileReadAhead, bytesFileReadCached,
                 bytesFileWrite, bytesPageAccess, bytesPageLoad)
    }

    /** A new collector has no blocks and zero aggregates. Its initial block shift
        and active flag are not fixed here. */
    constructor (minRangeShift: nat, maxRangeCount: nat)
      requires maxRangeCount >= 1
      ensures Valid() && fresh(blockStats)
      ensures this.minRangeShift == minRangeShift && this.maxRangeCount == maxRangeCount
      ensures blockCount == 0 && Totals() == Aggregates(0, 0, 0, 0, 0, 0)
    {
      this.minRangeShift := minRangeShift;
      this.maxRangeCount := maxRangeCount;
      blockShift := *;
      blockCount := 0;
      blockStats := new BlockStatistics[0];
      bytesFileReadCold, bytesFileReadAhead, bytesFileReadCached := 0, 0, 0;
      bytesFileWrite, bytesPageAccess, bytesPageLoad := 0, 0, 0;
      active := *;
    }

    /** `Activate(enable)`: sets the active flag and nothing else. */
    method Activate(enable: bool)
      requires Valid()
      modifies this
      ensures Valid() && active == enable
      ensures Grid() == old(Grid()) && blockStats == old(blockStats) && Totals() == old(Totals())
    {
      active := enable;
    }

    /** `Resize(n)`: computes the grid for a file of `n` bytes with the coarsening
        loop; keeps everything when the grid is the current one, and otherwise
        installs a fresh all-zero block array of the new size. The aggregates and
        the active flag are never touched. */
    method Resize(n: nat)
      requires Valid()
      modifies this
      ensures Valid()
      ensures Grid() == ComputeGrid(n, minRangeShift, maxRangeCount)
      ensures blockCount * Pow2(blockShift) >= n
      ensures old(Grid()) == Grid() ==> blockStats == old(blockStats) && blockStats[..] == old(blockStats[..])
      ensures old(Grid()) != Grid() ==>
        fresh(blockStats) && forall i :: 0 <= i < blockCount ==> blockStats[i] == ZeroBlock
      ensures Totals() == old(Totals()) && active == old(active)
    {
      var start := StartCount(n, minRangeShift);
      var count: nat, shift: nat := start, minRangeShift;
      while count > maxRangeCount
        invariant Coarsen(count, shift, maxRangeCount) == Coarsen(start, minRangeShift, maxRangeCount)
        decreases count
      {
        count, shift := count / 2, shift + 1;
      }
      var covered := count * Pow2(shift);
      count := if covered < n then count + 1 else count;
      assert BlockGrid(count, shift) == ComputeGrid(n, minRangeShift, maxRangeCount);
      if count == blockCount && shift == blockShift {
        return;
      }
      blockStats := new BlockStatistics[count](_ => ZeroBlock);
      blockShift := shift;
      blockCount := count;
    }

    /** The snapshot `ExportStatistics` produces: the aggregates, the block size
        2^blockShift, and one record per block from which each counter's level reads
        back without overlap. */
    function Snapshot(): (e: ExportFileStatistics)
      reads this, blockStats
      requires Valid()
      ensures e.bytesFileCold == bytesFileReadCold && e.bytesFileAhead == bytesFileReadAhead
      ensures e.bytesFileCached == bytesFileReadCached && e.bytesFileWrite == bytesFileWrite
      ensures e.bytesPageAccess == bytesPageAccess && e.bytesPageLoad == bytesPageLoad
      ensures e.blockSize == Pow2(blockShift) && |e.blockStats| == blockCount
      ensures forall i :: 0 <= i < blockCount ==> UnpackLevels(e.blockStats[i]) == Levels(blockStats[i])
    {
      ExportFileStatistics(bytesFileReadCold, bytesFileReadAhead, bytesFileReadCached,
                           bytesFileWrite, bytesPageAccess, bytesPageLoad,
                           Pow2(blockShift), EncodeBlocks(blockStats[..]))
    }

    /** `ExportStatistics`: fills the records block by block; changes nothing. */
    method ExportStatistics() returns (e: ExportFileStatistics)
      requires Valid()
      ensures e == Snapshot()
    {
      var records: seq<ExportedBlockStats> := [];
      var i := 0;
      while i < blockCount
        invariant i <= blockCount
        invariant |records| == i
        invariant forall k :: 0 <= k < i ==> records[k] == EncodeBlock(blockStats[k])
      {
        var b := blockStats[i];
        var fileWrite := AsNibble(b.fileWrite);
        var fileReadCold := AsNibble(b.fileReadCold);
        var fileReadAhead := AsNibble(b.fileReadAhead);
        var fileReadCached := AsNibble(b.fileReadCached);
        var pageAccess := AsNibble(b.pageAccess);
        var pageLoad := AsNibble(b.pageLoad);
        records := records + [ExportedBlockStats(PackNibbles(fileWrite, fileReadCold),
                                                 PackNibbles(fileReadAhead, fileReadCached),
                                                 PackNibbles(pageAccess, pageLoad))];
        i := i + 1;
      }
      assert records == EncodeBlocks(blockStats[..]);
      e := ExportFileStatistics(bytesFileReadCold, bytesFileReadAhead, bytesFileReadCached,
                                bytesFileWrite, bytesPageAccess, bytesPageLoad,
                                Pow2(blockShift), records);
    }
  }

  /** Resizing to the size that produced the current grid keeps the block array,
      its counters and the aggregates; so a second `Resize(n)` right after a first
      one changes nothing. */
  method ResizeAgain(c: FileStatisticsCollector, n: nat)
    requires c.Valid() && c.Grid() == ComputeGrid(n, c.minRangeShift, c.maxRangeCount)
    modifies c
    ensures c.Valid() && c.Grid() == old(c.Grid())
    ensures c.blockStats == old(c.blockStats) && c.blockStats[..] == old(c.blockStats[..])
    ensures c.Totals() == old(c.Totals()) && c.active == old(c.active)
  {
    c.Resize(n);
  }
}
