# Per-file I/O statistics: a verified Dafny model

This project models the per-file block statistics component of duckdb-wasm
(`lib/src/io/file_stats.cc`) and proves properties of the model. It has three
parts.

- **`as_nibble`** buckets a hit counter into a 4-bit level on a log scale. The
  level is the largest `L` in `[0, 15]` with `hits >= 2^L - 1`.
- **`FileStatisticsCollector`** keeps a grid of per-block counters for one file,
  plus six whole-file counters. `Resize(n)` derives a grid that covers `n`
  bytes. It uses at most `MAX_RANGE_COUNT` blocks before the final coverage bump,
  and each block is `2^shift` bytes with `shift >= MIN_RANGE_SHIFT`.
  `ExportStatistics` builds a snapshot: a header, then one 3-byte record per
  block. Each byte of a record packs two levels.
- **`FileStatisticsRegistry`** maps file names to collectors. It supports
  lookup, enable/create/disable and delegated export.

Files and modules:

- `bits.dfy` (`Bits`): `2^k` and `n >> k` over unbounded naturals.
- `nibble.dfy` (`Nibble`): the level function, the `as_nibble` loop, nibble
  packing.
- `geometry.dfy` (`Geometry`): the grid that `Resize` computes, as a pure
  function, with its bounds.
- `collector.dfy` (`FileStatistics`): block records, the export snapshot, and the
  collector class.
- `registry.dfy` (`Registry`): the registry class.

The collector is a class. Its fields are `blockShift`, `blockCount`, the
`blockStats` array, the six aggregate counters and `active`. `Resize` replaces
the array and the grid fields in place. `ExportStatistics` only reads. The
registry is a class with one field, a `map<string, FileStatisticsCollector>`.
Collector identity is Dafny object identity.

`MIN_RANGE_SHIFT` and `MAX_RANGE_COUNT` are defined in a header that is not part
of this model. Here they are `const` fields, `minRangeShift` and
`maxRangeCount`, of each collector and of the registry. The registry passes its
own values to every collector it creates. `maxRangeCount >= 1` is required.

Three facts about the code that the model makes explicit:

- `as_nibble(5)` is 2, because the thresholds are 0, 1, 3, 7, … and 5 < 7
  (line 20). See `Nibble.NibbleLevelSamples`.
- The coverage bump at line 36 can make the count `MAX_RANGE_COUNT + 1`.
  `Geometry.ComputeGridCanExceedMaxCount` shows this for `n = 3`, minimum shift 0
  and at most 1 block: the result is 2 blocks of 2 bytes. The proved bound is
  `MAX_RANGE_COUNT + 1`; the count before the bump, `n >> shift`, is at most
  `MAX_RANGE_COUNT`.
- `ValueOrDie()` at line 49 aborts on a failed allocation, so there is no error
  path: an export always succeeds. The registry's export returns `None` only for
  an untracked name.

## Model

| member | source | states |
|---|---|---|
| `Nibble.NibbleLevel` | lib/src/io/file_stats.cc:17-27 | the level of a counter never exceeds 15 |
| `Nibble.NibbleLevelIsLargest` | lib/src/io/file_stats.cc:17-27 | `hits >= 2^level - 1`, and `hits < 2^L - 1` for every `L` between the level and 15: the level is the largest threshold reached |
| `Nibble.NibbleLevelUnique` | lib/src/io/file_stats.cc:17-27 | any `L <= 15` that reaches its threshold and misses the next (or is 15) is the level, so the largest-threshold property fixes the result |
| `Nibble.NibbleLevelMonotone` | lib/src/io/file_stats.cc:17-27 | more hits never give a lower level |
| `Nibble.NibbleLevelSamples` | lib/src/io/file_stats.cc:17-27 | levels of 0, 1, 2, 3, 5, 7 are 0, 1, 1, 2, 2, 3; every count from `2^15 - 1` up gets the ceiling 15 |
| `Nibble.AsNibble` | lib/src/io/file_stats.cc:17-27 | the threshold loop with its early `break` returns exactly the level function |
| `Nibble.PackNibbles` | lib/src/io/file_stats.cc:61-63 | `low \| (high << 4)` of two levels below 16: the low nibble reads back `low` and the high nibble reads back `high`, so the two never overlap |
| `Nibble.PackUnpack` | lib/src/io/file_stats.cc:61-63 | every byte is the packing of its own two nibbles, so packing is a bijection between bytes and pairs of levels |
| `Bits.ShiftRightBounds` | lib/src/io/file_stats.cc:32 | `n >> k` is the number of whole `2^k`-byte blocks in `n`: `(n >> k) * 2^k <= n < ((n >> k) + 1) * 2^k` |
| `Geometry.CoarsenBounds` | lib/src/io/file_stats.cc:34-35 | the halving loop ends with `1 <= count <= MAX_RANGE_COUNT`; `count` stays the number of whole blocks in `n`; the shift only grows, and it grows only while the count at half the block size would exceed `MAX_RANGE_COUNT` |
| `Geometry.StartCountBounds` | lib/src/io/file_stats.cc:32-33 | `max(n >> MIN_RANGE_SHIFT, 1)` is at least 1, and `n` lies below one extra minimum-size block past it |
| `Geometry.ComputeGrid` | lib/src/io/file_stats.cc:32-37 | the grid has at least one block, shift `>= MIN_RANGE_SHIFT` and count `<= MAX_RANGE_COUNT + 1`; it covers `n` (`count << shift >= n`, the assertion at line 37); for `n >= 1` no block is wholly past the end of the file; `n >> shift <= MAX_RANGE_COUNT`, and the block size is doubled only as often as that bound needs; a file of 0 bytes gets exactly one block at `MIN_RANGE_SHIFT` |
| `Geometry.ShiftRightZero` | lib/src/io/file_stats.cc:32 | `0 >> k == 0`, so an empty file starts from the single block of `max(0, 1)` |
| `Geometry.ShiftRightAtMost` | lib/src/io/file_stats.cc:34-35 | when `n` lies below `count + 1` blocks of size `2^shift`, `n >> shift <= count` |
| `Geometry.ComputeGridExample` | lib/src/io/file_stats.cc:32-36 | 1000 bytes with minimum shift 6 and at most 64 blocks give 16 blocks of 64 bytes: 15 whole blocks plus the coverage bump |
| `Geometry.ComputeGridCanExceedMaxCount` | lib/src/io/file_stats.cc:34-36 | the coverage bump can take the count to `MAX_RANGE_COUNT + 1` |
| `FileStatistics.Levels` | lib/src/io/file_stats.cc:61-63 | the six levels of a block are each below 16 |
| `FileStatistics.PackLevels` | lib/src/io/file_stats.cc:61-63 | packing six levels into the three record bytes (write/read-cold, read-ahead/read-cached, page-access/page-load, low nibble first) reads back the same six levels |
| `FileStatistics.UnpackLevels` | lib/src/io/file_stats.cc:61-63 | every level read from a record is below 16 |
| `FileStatistics.PackUnpackLevels` | lib/src/io/file_stats.cc:61-63 | every 3-byte record is the packing of the levels it holds |
| `FileStatistics.EncodeBlock` | lib/src/io/file_stats.cc:59-63 | unpacking a block's exported record gives the level of each of its six counters |
| `FileStatistics.EncodeBlocks` | lib/src/io/file_stats.cc:58-64 | one record per block in block order, each unpacking to that block's levels |
| `FileStatistics.FileStatisticsCollector.constructor` | lib/src/io/file_stats.cc:91 | a new collector has no blocks and zero aggregates |
| `FileStatistics.FileStatisticsCollector.Activate` | lib/src/io/file_stats.cc:88 | sets the active flag to `enable` and keeps the grid, the block array and the aggregates |
| `FileStatistics.FileStatisticsCollector.Resize` | lib/src/io/file_stats.cc:30-43 | the new grid is `ComputeGrid(n, …)`, which covers `n`; if it equals the old grid, the block array and its counters are kept; otherwise a fresh array of `blockCount` all-zero records is installed; the aggregates and `active` never change; the collector invariant holds afterwards |
| `FileStatistics.FileStatisticsCollector.Snapshot` | lib/src/io/file_stats.cc:46-65 | the header copies the six aggregates and has `blockSize == 2^blockShift`; there are exactly `blockCount` records; record `i` unpacks to the levels of block `i` |
| `FileStatistics.FileStatisticsCollector.ExportStatistics` | lib/src/io/file_stats.cc:46-66 | the loop over the blocks produces exactly the snapshot; it has no `modifies` clause, so the collector is unchanged |
| `FileStatistics.ResizeAgain` | lib/src/io/file_stats.cc:38 | when the grid already is `ComputeGrid(n, …)`, as it is right after `Resize(n)`, a `Resize(n)` keeps the grid, the block array, its counters, the aggregates and `active` |
| `Registry.FileStatisticsRegistry.TracksFile` | lib/src/io/file_stats.cc:69-73 | true exactly when a collector (enabled or not) is registered under the name; reads only |
| `Registry.FileStatisticsRegistry.FindCollector` | lib/src/io/file_stats.cc:76-80 | non-null exactly when `TracksFile(name)`, and then the registered instance; reads only, never creates |
| `Registry.FileStatisticsRegistry.EnableCollector` | lib/src/io/file_stats.cc:83-96 | registered name: the same instance is returned with `active == enable`, its other state unchanged, and the map unchanged; untracked name with `enable`: a fresh empty collector is inserted under the name and returned, and nothing else in the map changes; untracked name without `enable`: returns null and the map is unchanged; the registry invariant is kept (each collector consistent, no collector under two names) |
| `Registry.FileStatisticsRegistry.ExportStatistics` | lib/src/io/file_stats.cc:99-106 | `None`, not an error, exactly when the name is untracked; otherwise the registered collector's snapshot; never changes the registry |
| `Registry.EnableTwice` | lib/src/io/file_stats.cc:83-96 | two enables of one name return the same non-null instance; disabling an untracked name leaves it untracked |

## Left out

- Locking: `collector_mutex_`, `registry_mutex_` and every concurrency question, including an export racing a resize. The model is sequential.
- `shared_ptr` reference counting and lifetime. Collector identity is object identity, and nothing is ever destroyed.
- Buffer allocation (`arrow::AllocateBuffer`, line 47). It is modelled as always succeeding, as `ValueOrDie()` aborts on failure.
- The byte layout of the export buffer: `reinterpret_cast`, `sizeof(ExportFileStatistics)`, field offsets and endianness. The header struct is in a header file that is not part of this model. The snapshot is a value with named header fields and a sequence of 3-byte records, so the total byte length is not stated.
- Word widths: `uint64_t` counters, the C `int` in `1 << block_shift_` and `(1 << value) - 1`, and `size_t` shifts. All arithmetic is on unbounded naturals; `x << k` is `x * 2^k` and `n >> k` is `k` halvings.
- The values of `MIN_RANGE_SHIFT` and `MAX_RANGE_COUNT`. They are constructor parameters, with `MAX_RANGE_COUNT >= 1`.
- The counter-increment entry points and the body of `Activate`. Both are declared in a header that is not part of this model. `Activate` is modelled only as setting `active`.
- FileStatistics.FileStatisticsCollector.constructor: the initial `active` flag and the initial block shift of a new collector are set in that header too. The model leaves both unspecified, so `EnableCollector` says nothing about a new collector's active flag.
