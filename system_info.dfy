/**
 * The integer parts of the client's inventory report (system_info.rs):
 * kibibyte-to-mebibyte conversions for memory and disks, the network
 * interface list, and the five processes using the most memory. The
 * `sysinfo` readings are inputs; figures are `u64` and a subtraction below
 * zero wraps, as in a release build.
 */
module SystemInfo {
  import opened Wrappers
  import opened Sorting

  const U64Modulus: int := 0x1_0000_0000_0000_0000
  type U64 = x: int | 0 <= x < U64Modulus

  /** `u64` subtraction in a release build: modulo 2^64. */
  function WrappingSub(a: U64, b: U64): (r: U64)
    ensures b <= a ==> r == a - b
    ensures a < b ==> r == a - b + U64Modulus
  {
    if b <= a then a - b else a - b + U64Modulus
  }

  datatype Ram = Ram(total: U64, used: U64, free: U64, cached: U64)

  /**
   * RAM figures: total and used are the readings divided by 1024, free is
   * their difference, and cached repeats used.
   */
  function RamFigures(totalMemory: U64, usedMemory: U64): (r: Ram)
    ensures r.total == totalMemory / 1024 && r.used == usedMemory / 1024
    ensures r.cached == r.used
    ensures usedMemory <= totalMemory ==> r.free == r.total - r.used
    ensures r.used <= r.total ==> r.free == r.total - r.used
    ensures r.total < r.used ==> r.free == r.total - r.used + U64Modulus
  {
    Ram(totalMemory / 1024, usedMemory / 1024, WrappingSub(totalMemory / 1024, usedMemory / 1024), usedMemory / 1024)
  }

  /**
   * Dividing before subtracting: free memory is the true free amount in
   * mebibytes, or one more.
   */
  lemma RamFreeWithinOne(totalMemory: U64, usedMemory: U64)
    requires usedMemory <= totalMemory
    ensures var r := RamFigures(totalMemory, usedMemory);
      (totalMemory - usedMemory) / 1024 <= r.free <= (totalMemory - usedMemory) / 1024 + 1
  {
    var q := totalMemory / 1024;
    var p := usedMemory / 1024;
    assert q * 1024 <= totalMemory < q * 1024 + 1024;
    assert p * 1024 <= usedMemory < p * 1024 + 1024;
    var d := (totalMemory - usedMemory) / 1024;
    assert d * 1024 <= totalMemory - usedMemory < d * 1024 + 1024;
  }

  datatype DiskInfo = DiskInfo(name: string, total: U64, used: U64, free: U64, mountPoint: string)

  /** A disk as `sysinfo` reports it: sizes in bytes. */
  datatype Disk = Disk(name: string, totalSpace: U64, availableSpace: U64, mountPoint: string)

  const Mebi: int := 1024 * 1024

  /** One disk entry: total and free in mebibytes, used as (total - available) in mebibytes. */
  function DiskEntry(d: Disk): (e: DiskInfo)
    ensures e.name == d.name && e.mountPoint == d.mountPoint
    ensures e.total == d.totalSpace / Mebi && e.free == d.availableSpace / Mebi
    ensures d.availableSpace <= d.totalSpace ==> e.used == (d.totalSpace - d.availableSpace) / Mebi
    ensures d.totalSpace < d.availableSpace ==> e.used == (d.totalSpace - d.availableSpace + U64Modulus) / Mebi
  {
    DiskInfo(d.name, d.totalSpace / 1024 / 1024, WrappingSub(d.totalSpace, d.availableSpace) / 1024 / 1024,
             d.availableSpace / 1024 / 1024, d.mountPoint)
  }

  /** For a sane disk, used and free add up to the total, short of at most one mebibyte of rounding. */
  lemma DiskEntryAddsUp(d: Disk)
    requires d.availableSpace <= d.totalSpace
    ensures var e := DiskEntry(d);
      e.total - 1 <= e.used + e.free <= e.total
  {
    var e := DiskEntry(d);
    var u := d.totalSpace - d.availableSpace;
    assert e.used * Mebi <= u < e.used * Mebi + Mebi;
    assert e.free * Mebi <= d.availableSpace < e.free * Mebi + Mebi;
    assert e.total * Mebi <= d.totalSpace < e.total * Mebi + Mebi;
  }

  /** The disk list: one entry per disk, in `sysinfo`'s order. */
  function Disks(ds: seq<Disk>): (r: seq<DiskInfo>)
    ensures |r| == |ds| && forall i :: 0 <= i < |ds| ==> r[i] == DiskEntry(ds[i])
  {
    seq(|ds|, i requires 0 <= i < |ds| => DiskEntry(ds[i]))
  }

  datatype NetworkData = NetworkData(received: U64, transmitted: U64, errors: U64)
  datatype NetworkInterfaceInfo = NetworkInterfaceInfo(name: string, mac: Option<string>, receivedBytes: U64, transmittedBytes: U64, errors: U64)

  /** The interface list, built by pushing one entry per interface in iteration order; the MAC is never filled in. */
  method NetworkInterfaces(networks: seq<(string, NetworkData)>) returns (out: seq<NetworkInterfaceInfo>)
    ensures |out| == |networks|
    ensures forall i :: 0 <= i < |out| ==> out[i].mac.None? && out[i].name == networks[i].0
    ensures forall i :: 0 <= i < |out| ==>
      out[i].receivedBytes == networks[i].1.received && out[i].transmittedBytes == networks[i].1.transmitted
      && out[i].errors == networks[i].1.errors
  {
    out := [];
    for i := 0 to |networks|
      invariant |out| == i
      invariant forall k :: 0 <= k < i ==> out[k] == NetworkInterfaceInfo(networks[k].0, None, networks[k].1.received, networks[k].1.transmitted, networks[k].1.errors)
    {
      var (name, data) := networks[i];
      out := out + [NetworkInterfaceInfo(name, None, data.received, data.transmitted, data.errors)];
    }
  }

  /** A process as reported; CPU usage is a float and is left out. */
  datatype Process = Process(pid: int, name: string, memory: U64)

  datatype ProcessInfo = ProcessInfo(pid: int, name: string, memory: U64)

  /** The process entry: the pid as the `u32 as i32` cast gives it, memory in mebibytes. */
  function ProcessEntry(p: Process): (e: ProcessInfo)
    requires 0 <= p.pid < 0x1_0000_0000
    ensures e.name == p.name && e.memory == p.memory / 1024
    ensures -0x8000_0000 <= e.pid < 0x8000_0000
    ensures e.pid % 0x1_0000_0000 == p.pid
  {
    ProcessInfo(if p.pid < 0x8000_0000 then p.pid else p.pid - 0x1_0000_0000, p.name, p.memory / 1024)
  }

  predicate MoreMemory(a: ProcessInfo, b: ProcessInfo) { a.memory >= b.memory }

  lemma MoreMemoryIsTotalPreorder()
    ensures TotalPreorder(MoreMemory)
  {
  }

  const TopCount: nat := 5

  /**
   * `top_processes_ram`: the processes sorted by memory, largest first,
   * and the first five kept: at most five, in descending memory order, each
   * one of the processes, and none of those left out using more memory than
   * any kept one.
   */
  function TopByMemory(ps: seq<ProcessInfo>): (top: seq<ProcessInfo>)
    ensures |top| == if |ps| < TopCount then |ps| else TopCount
    ensures forall i, j :: 0 <= i < j < |top| ==> top[i].memory >= top[j].memory
    ensures multiset(top) <= multiset(ps)
  {
    MoreMemoryIsTotalPreorder();
    var sorted := SortBy(ps, MoreMemory);
    assert |sorted| == |multiset(sorted)| == |ps|;
    var k := if |sorted| < TopCount then |sorted| else TopCount;
    assert sorted == sorted[..k] + sorted[k..];
    sorted[..k]
  }

  /** Nothing left out of the top five uses more memory than anything kept. */
  lemma TopByMemoryIsBest(ps: seq<ProcessInfo>, p: ProcessInfo)
    requires p in ps && p !in TopByMemory(ps)
    ensures forall q :: q in TopByMemory(ps) ==> q.memory >= p.memory
  {
    MoreMemoryIsTotalPreorder();
    var sorted := SortBy(ps, MoreMemory);
    assert |sorted| == |multiset(sorted)| == |ps|;
    var k := if |sorted| < TopCount then |sorted| else TopCount;
    assert p in multiset(sorted);
    var j :| 0 <= j < |sorted| && sorted[j] == p;
    assert j >= k;
    PrefixIsBest(sorted, MoreMemory, k);
  }
}
