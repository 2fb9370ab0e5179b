/**
  Directory scans.  A directory is the byte string of its chain cut into 32-byte
  records; the scans of kernelspace/fs/fs.c walk it cluster by cluster, sector by
  sector and record by record, and stop early.
 */
module FatScan {
  import opened FatDisk
  import opened FatChain
  import opened FatBytes
  import opened FatData
  import opened FatEntry
  import opened FatVolume

  // --------------------------------------------------------------- slot numbers

  const SLOTS := 16   // records per sector

  /** The number of record i in sector s of the ci-th cluster. */
  function SlotIndex(g: Geometry, ci: nat, s: nat, i: nat): nat {
    Times(ci, SLOTS * g.spc) + SLOTS * s + i
  }

  lemma {:induction false} StartInSlots(g: Geometry, ci: nat)
    ensures Start(g, ci) == ENTRY_SIZE * Times(ci, SLOTS * g.spc)
  {
    if ci > 0 {
      StartInSlots(g, ci - 1);
    }
  }

  /** The records of a directory whose chain is cs. */
  function Records(g: Geometry, d: Disk, cs: seq<nat>): (es: seq<Entry>)
    requires Fits(g, d) && Clusters(g, cs)
    ensures |es| == SlotIndex(g, |cs|, 0, 0)
  {
    StartInSlots(g, |cs|);
    Slots(Text(g, d, cs))
  }

  /** Record i of a sector. */
  function InSector(buf: Sector, i: nat): Entry
    requires i < SLOTS
  {
    buf[ENTRY_SIZE * i..ENTRY_SIZE * i + ENTRY_SIZE]
  }

  /** A record of a sector is a record of the directory. */
  lemma RecordInSector(g: Geometry, d: Disk, cs: seq<nat>, ci: nat, s: nat, i: nat)
    requires Fits(g, d) && Clusters(g, cs) && ci < |cs| && s < g.spc && i < SLOTS
    ensures SlotIndex(g, ci, s, i) < |Records(g, d, cs)|
    ensures g.ClusterToSector(cs[ci]) + s < |d|
    ensures Records(g, d, cs)[SlotIndex(g, ci, s, i)] == InSector(d[g.ClusterToSector(cs[ci]) + s], i)
  {
    hide Text;
    hide ClusterText;
    var a := ENTRY_SIZE * i;
    SectorSlice(g, d, cs[ci], s, a, a + ENTRY_SIZE);
    ClusterSlice(g, d, cs, ci, s * SECTOR_SIZE + a, s * SECTOR_SIZE + a + ENTRY_SIZE);
    StartInSlots(g, ci);
    TimesStep(ci, |cs|, SLOTS * g.spc);
    assert ENTRY_SIZE * SlotIndex(g, ci, s, i) == Start(g, ci) + s * SECTOR_SIZE + a;
  }

  /** Writing a record into its sector replaces that record of the directory. */
  lemma RecordWrite(g: Geometry, d: Disk, d': Disk, cs: seq<nat>, ci: nat, s: nat, i: nat, e: Entry)
    requires Fits(g, d) && Fits(g, d') && Clusters(g, cs) && Distinct(cs) && ci < |cs| && s < g.spc && i < SLOTS
    requires TouchesOnly(g, d, d', cs[ci])
    requires s * SECTOR_SIZE + ENTRY_SIZE * i + ENTRY_SIZE <= ClusterSize(g)
    requires ClusterText(g, d', cs[ci]) == Splice(ClusterText(g, d, cs[ci]), s * SECTOR_SIZE + ENTRY_SIZE * i, e)
    ensures SlotIndex(g, ci, s, i) < |Records(g, d, cs)|
    ensures Records(g, d', cs) == Records(g, d, cs)[SlotIndex(g, ci, s, i) := e]
  {
    hide Text;
    hide ClusterText;
    hide TouchesOnly;
    ClusterSplice(g, d, d', cs, ci, s * SECTOR_SIZE + ENTRY_SIZE * i, e);
    StartInSlots(g, ci);
    TimesStep(ci, |cs|, SLOTS * g.spc);
    assert ENTRY_SIZE * SlotIndex(g, ci, s, i) == Start(g, ci) + s * SECTOR_SIZE + ENTRY_SIZE * i;
    SlotsSplice(Text(g, d, cs), SlotIndex(g, ci, s, i), e);
  }

  /** A zeroed cluster behind the chain is so many free records. */
  lemma RecordsGrow(g: Geometry, d: Disk, d': Disk, cs: seq<nat>, c: nat)
    requires Fits(g, d) && Fits(g, d') && Clusters(g, cs) && Clusters(g, cs + [c])
    requires Text(g, d', cs + [c]) == Text(g, d, cs) + Zeros(ClusterSize(g))
    ensures Records(g, d', cs + [c]) == Records(g, d, cs) + seq(SLOTS * g.spc, _ => ZeroEntry())
  {
    hide Text;
    StartInSlots(g, |cs|);
    SlotsGrow(Text(g, d, cs), ClusterSize(g));
  }

  // --------------------------------------------------------------------- scans

  /** The four record scans of the source. */
  datatype Scan =
    | ForName(n: Name)   // find_dir_entry: a live record so named, or the end marker
    | ForRaw(n: Name)    // update_dir_entry_info_cwd: any record so named, or the end marker
    | ForFree            // find_free_dir_entry: an end marker or a deleted record
    | ForOther           // Unlink's emptiness test: the end marker, or anything but `.` and `..`

  /** The scan stops at this record. */
  predicate Stops(m: Scan, e: Entry) {
    match m
    case ForName(n) => e[0] == 0 || (Live(e) && NameOf(e) == n)
    case ForRaw(n) => e[0] == 0 || NameOf(e) == n
    case ForFree => !InUse(e)
    case ForOther => e[0] == 0 || (InUse(e) && !IsDot(e))
  }

  ghost predicate NoStop(m: Scan, es: seq<Entry>, j: nat) {
    forall x :: 0 <= x < j && x < |es| ==> !Stops(m, es[x])
  }

  /** The record loop: the first stop in a sector, or SLOTS. */
  method ScanSector(buf: Sector, m: Scan) returns (i: nat)
    ensures i <= SLOTS && forall x :: 0 <= x < i ==> !Stops(m, InSector(buf, x))
    ensures i < SLOTS ==> Stops(m, InSector(buf, i))
  {
    i := 0;
    while i < SLOTS
      invariant i <= SLOTS && forall x :: 0 <= x < i ==> !Stops(m, InSector(buf, x))
    {
      var e := InSector(buf, i);
      if e[0] == 0 {
        return;
      }
      match m {
        case ForName(n) =>
          if e[0] != DELETED && e[11] != ATTR_LONG_NAME && e[..11] == n {
            return;
          }
        case ForRaw(n) =>
          if e[..11] == n {
            return;
          }
        case ForFree =>
          if e[0] == DELETED {
            return;
          }
        case ForOther =>
          if e[0] != DELETED && e[..11] != DOT && e[..11] != DOTDOT {
            return;
          }
      }
      i := i + 1;
    }
  }

  /** Where a record lies on the disk. */
  datatype Place = Place(c: nat, s: nat, i: nat)

  /** p is the place of record j of the directory with chain cs. */
  ghost predicate At(g: Geometry, cs: seq<nat>, p: Place, j: nat) {
    exists ci :: 0 <= ci < |cs| && PlaceOf(g, cs, p, ci, j)
  }

  ghost predicate PlaceOf(g: Geometry, cs: seq<nat>, p: Place, ci: nat, j: nat)
    requires ci < |cs|
  {
    p.c == cs[ci] && p.s < g.spc && p.i < SLOTS && j == SlotIndex(g, ci, p.s, p.i)
  }

  /** The sector loop of a scan, in one cluster. */
  method ScanCluster(v: Volume, c: nat, m: Scan, ghost cs: seq<nat>, ghost ci: nat) returns (s: nat, i: nat)
    requires Fits(v.g, v.d) && Clusters(v.g, cs) && ci < |cs| && c == cs[ci]
    requires NoStop(m, Records(v.g, v.d, cs), SlotIndex(v.g, ci, 0, 0))
    ensures s <= v.g.spc
    ensures s < v.g.spc ==> i < SLOTS && SlotIndex(v.g, ci, s, i) < |Records(v.g, v.d, cs)|
    ensures s < v.g.spc ==> NoStop(m, Records(v.g, v.d, cs), SlotIndex(v.g, ci, s, i))
    ensures s < v.g.spc ==> Stops(m, Records(v.g, v.d, cs)[SlotIndex(v.g, ci, s, i)])
    ensures s == v.g.spc ==> NoStop(m, Records(v.g, v.d, cs), SlotIndex(v.g, ci + 1, 0, 0))
  {
    hide Records;
    hide Stops;
    hide InSector;
    ghost var es := Records(v.g, v.d, cs);
    s, i := 0, 0;
    while s < v.g.spc
      invariant s <= v.g.spc && NoStop(m, es, SlotIndex(v.g, ci, s, 0))
    {
      RecordInSector(v.g, v.d, cs, ci, s, 0);
      var buf := v.d[v.g.ClusterToSector(c) + s];
      i := ScanSector(buf, m);
      forall x | 0 <= x < SLOTS
        ensures SlotIndex(v.g, ci, s, x) < |es| && es[SlotIndex(v.g, ci, s, x)] == InSector(buf, x)
      {
        RecordInSector(v.g, v.d, cs, ci, s, x);
      }
      assert SlotIndex(v.g, ci, s, SLOTS - 1) < |es|;
      NoStopSector(m, es, SlotIndex(v.g, ci, s, 0), i, buf);
      if i < SLOTS {
        return;
      }
      s := s + 1;
    }
  }

  lemma NoStopSector(m: Scan, es: seq<Entry>, j: nat, i: nat, buf: Sector)
    requires NoStop(m, es, j) && i <= SLOTS && j + i <= |es|
    requires forall x :: 0 <= x < i ==> es[j + x] == InSector(buf, x) && !Stops(m, InSector(buf, x))
    ensures NoStop(m, es, j + i)
  {
    hide Stops;
    forall y | 0 <= y < j + i
      ensures !Stops(m, es[y])
    {
      if j <= y {
        assert es[j + (y - j)] == InSector(buf, y - j);
      }
    }
  }

  /** A whole scan: the first record at which it stops, or the last cluster of the
      directory if it never does. */
  method ScanDir(v: Volume, first: nat, m: Scan, ghost cs: seq<nat>)
    returns (found: bool, p: Place, e: Entry, last: nat, ghost j: nat)
    requires Fits(v.g, v.d) && IsChain(Fat(v.g, v.d), cs) && cs[0] == first
    ensures found ==> At(v.g, cs, p, j) && j < |Records(v.g, v.d, cs)| && e == Records(v.g, v.d, cs)[j]
    ensures found ==> NoStop(m, Records(v.g, v.d, cs), j) && Stops(m, e)
    ensures !found ==> NoStop(m, Records(v.g, v.d, cs), |Records(v.g, v.d, cs)|) && last == cs[|cs| - 1]
  {
    hide Records;
    hide Stops;
    ghost var es, ci := Records(v.g, v.d, cs), 0;
    var cluster: nat := first;
    found, p, e, last, j := false, Place(0, 0, 0), ZeroEntry(), first, 0;
    while 2 <= cluster < EOC_MIN
      invariant ci <= |cs| && if ci < |cs| then cluster == cs[ci] else EOC_MIN <= cluster
      invariant 0 < ci ==> last == cs[ci - 1]
      invariant NoStop(m, es, SlotIndex(v.g, ci, 0, 0))
      decreases |cs| - ci
    {
      var s, i := ScanCluster(v, cluster, m, cs, ci);
      if s < v.g.spc {
        RecordInSector(v.g, v.d, cs, ci, s, i);
        found, p, j := true, Place(cluster, s, i), SlotIndex(v.g, ci, s, i);
        e := InSector(v.d[v.g.ClusterToSector(cluster) + s], i);
        assert PlaceOf(v.g, cs, p, ci, j);
        return;
      }
      last := cluster;
      cluster := v.NextInChain(cluster, cs, ci);
      ci := ci + 1;
    }
  }
}
