/** `FileStatisticsRegistry` of lib/src/io/file_stats.cc: the map from file names
    to their collectors, with lookup, enable/create/disable and delegated export. */
module Registry {
  import opened FileStatistics

  datatype Option<T> = None | Some(value: T)

  class FileStatisticsRegistry {
    /** The grid constants every collector of this registry is built with. */
    const minRangeShift: nat
    const maxRangeCount: nat

    var collectors: map<string, FileStatisticsCollector>

    /** Every registered collector is consistent and built with the registry's
        constants, and no collector is registered under two names. */
    ghost predicate Valid()
      reads this, collectors.Values
    {
      maxRangeCount >= 1 &&
      (forall name :: name in collectors ==>
         collectors[name].Valid() &&
         collectors[name].minRangeShift == minRangeShift &&
         collectors[name].maxRangeCount == maxRangeCount) &&
      (forall a, b :: a in collectors && b in collectors && a != b ==> collectors[a] != collectors[b])
    }

    constructor (minRangeShift: nat, maxRangeCount: nat)
      requires maxRangeCount >= 1
      ensures Valid() && collectors == map[]
      ensures this.minRangeShift == minRangeShift && this.maxRangeCount == maxRangeCount
    {
      this.minRangeShift := minRangeShift;
      this.maxRangeCount := maxRangeCount;
      collectors := map[];
    }

    /** `TracksFile`: whether a collector, enabled or not, is registered for `name`. */
    function TracksFile(name: string): (tracked: bool)
      reads this
      ensures tracked <==> name in collectors
    {
      name in collectors
    }

    /** `FindCollector`: the registered collector, or null; never creates one. */
    function FindCollector(name: string): (c: FileStatisticsCollector?)
      reads this
      ensures c != null <==> TracksFile(name)
      ensures c != null ==> c == collectors[name]
    {
      if name in collectors then collectors[name] else null
    }

    /** `EnableCollector`: flips the active flag of the registered collector and
        returns it; otherwise, when enabling, registers and returns a fresh empty
        collector; otherwise returns null and changes nothing. */
    method EnableCollector(name: string, enable: bool) returns (c: FileStatisticsCollector?)
      requires Valid()
      modifies this, if name in collectors then {collectors[name]} else {}
      ensures Valid()
      ensures old(name in collectors) ==>
        c == old(collectors[name]) && collectors == old(collectors) &&
        c.active == enable && c.Grid() == old(c.Grid()) &&
        c.blockStats == old(c.blockStats) && c.Totals() == old(c.Totals())
      ensures old(name !in collectors) && enable ==>
        c != null && fresh(c) && collectors == old(collectors)[name := c] &&
        c.blockCount == 0 && c.Totals() == Aggregates(0, 0, 0, 0, 0, 0)
      ensures old(name !in collectors) && !enable ==>
        c == null && collectors == old(collectors)
    {
      if name in collectors {
        c := collectors[name];
        c.Activate(enable);
      } else if enable {
        c := new FileStatisticsCollector(minRangeShift, maxRangeCount);
        collectors := collectors[name := c];
      } else {
        c := null;
      }
    }

    /** `ExportStatistics`: the snapshot of the registered collector, or none (not
        an error) when the file is not tracked. */
    method ExportStatistics(path: string) returns (r: Option<ExportFileStatistics>)
      requires Valid()
      ensures r.None? <==> !TracksFile(path)
      ensures r.Some? ==> r.value == collectors[path].Snapshot()
    {
      if path in collectors {
        var e := collectors[path].ExportStatistics();
        r := Some(e);
      } else {
        r := None;
      }
    }
  }

  /** Enabling the same name twice hands back one and the same collector, and
      disabling an untracked name leaves it untracked. */
  method EnableTwice(reg: FileStatisticsRegistry, name: string, other: string)
    returns (first: FileStatisticsCollector?, second: FileStatisticsCollector?)
    requires reg.Valid() && other != name
    modifies reg, reg.collectors.Values
    ensures first != null && first == second && reg.TracksFile(name)
    ensures old(other !in reg.collectors) ==> !reg.TracksFile(other)
  {
    first := reg.EnableCollector(name, true);
    second := reg.EnableCollector(name, true);
    if other !in reg.collectors {
      var none := reg.EnableCollector(other, false);
      assert none == null;
    }
  }
}
