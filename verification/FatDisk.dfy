/**
  The on-disk layout that kernelspace/fs/fs.c relies on: 512-byte sectors, the
  little-endian 32-bit FAT entries packed 128 to a sector, and the placement of
  data clusters behind the FAT area.  Everything above this module sees the FAT
  as a sequence of 28-bit numbers (`Fat`) and never looks at FAT bytes again.
 */
module FatDisk {

  const SECTOR_SIZE := 512
  const EOC_MIN := 0x0FFF_FFF8     // first value that ends a chain
  const EOC := 0x0FFF_FFFF         // value the code writes to end a chain
  const FAT_MASK := 0x1000_0000    // entries are taken modulo 2^28

  type Byte = x: int | 0 <= x < 256

  type Sector = s: seq<Byte> | |s| == SECTOR_SIZE witness seq(SECTOR_SIZE, _ => 0)

  type Disk = seq<Sector>

  const ZERO_SECTOR: Sector := seq(SECTOR_SIZE, _ => 0)

  /** n * m, by repeated addition; products of two unknowns stay out of the proofs. */
  function Times(n: nat, m: nat): nat {
    if n == 0 then 0 else Times(n - 1, m) + m
  }

  lemma {:induction false} TimesIsProduct(n: nat, m: nat)
    ensures Times(n, m) == n * m
  {
    if n > 0 {
      TimesIsProduct(n - 1, m);
      assert n * m == (n - 1) * m + m;
    }
  }

  lemma {:induction false} TimesStep(a: nat, b: nat, m: nat)
    requires a < b
    ensures Times(a, m) + m <= Times(b, m)
    decreases b
  {
    if a < b - 1 {
      TimesStep(a, b - 1, m);
    }
  }

  lemma DivisionAsTimes(x: nat, m: nat)
    requires 0 < m
    ensures x == Times(x / m, m) + x % m && x % m < m
  {
    TimesIsProduct(x / m, m);
  }

  /** The fields of `struct fat32_fs` that `fs_init` fills in. */
  datatype Geometry = Geometry(fatSector: nat, fatSize: nat, firstData: nat, spc: nat, root: nat) {

    /** One FAT entry per cluster number. */
    function Clusters(): nat {
      fatSize * 128
    }

    /** A volume on which cluster numbers stay below the end markers, the FAT
        precedes the data, and sector numbers fit the code's 32-bit arithmetic. */
    predicate Valid() {
      && 1 <= spc
      && 1 <= fatSize
      && fatSector + fatSize <= firstData
      && 2 <= root < Clusters() <= EOC_MIN
      && firstData + Times(Clusters() - 2, spc) <= 0x1_0000_0000
    }

    /** `cluster_to_sector` */
    function ClusterToSector(c: nat): nat
      requires 2 <= c
    {
      firstData + Times(c - 2, spc)
    }
  }

  /** Every FAT entry has its cluster on the disk. */
  predicate Fits(g: Geometry, d: Disk) {
    g.Valid() && g.firstData + Times(g.Clusters() - 2, g.spc) <= |d|
  }

  // ---------------------------------------------------------------- 32-bit words

  function Word(s: Sector, o: nat): (w: nat)
    requires o + 4 <= SECTOR_SIZE
    ensures w < 0x1_0000_0000
  {
    (s[o] as int) + 0x100 * (s[o + 1] as int) + 0x1_0000 * (s[o + 2] as int) + 0x100_0000 * (s[o + 3] as int)
  }

  function WordBytes(v: nat): (b: seq<Byte>)
    requires v < 0x1_0000_0000
    ensures |b| == 4
  {
    [v % 0x100, v / 0x100 % 0x100, v / 0x1_0000 % 0x100, v / 0x100_0000]
  }

  /** `*(uint32*)&buf[o] = v` */
  function PutWord(s: Sector, o: nat, v: nat): (t: Sector)
    requires o + 4 <= SECTOR_SIZE && v < 0x1_0000_0000
  {
    s[..o] + WordBytes(v) + s[o + 4..]
  }

  lemma PutWordGet(s: Sector, o: nat, v: nat)
    requires o + 4 <= SECTOR_SIZE && v < 0x1_0000_0000
    ensures Word(PutWord(s, o, v), o) == v
  {
    var t := PutWord(s, o, v);
    assert t[o] == v % 0x100 && t[o + 1] == v / 0x100 % 0x100;
    assert t[o + 2] == v / 0x1_0000 % 0x100 && t[o + 3] == v / 0x100_0000;
    WordSum(v);
  }

  lemma PutWordOther(s: Sector, o: nat, v: nat, p: nat)
    requires o + 4 <= SECTOR_SIZE && v < 0x1_0000_0000
    requires p + 4 <= SECTOR_SIZE && (p + 4 <= o || o + 4 <= p)
    ensures Word(PutWord(s, o, v), p) == Word(s, p)
  {
  }

  lemma WordSum(v: nat)
    ensures v % 0x100 + 0x100 * (v / 0x100 % 0x100) + 0x1_0000 * (v / 0x1_0000 % 0x100)
            + 0x100_0000 * (v / 0x100_0000) == v
  {
    var a := v / 0x100;
    var b := a / 0x100;
    var c := b / 0x100;
    assert b == v / 0x1_0000;
    assert c == v / 0x100_0000;
    assert v == 0x100 * a + v % 0x100;
    assert a == 0x100 * b + a % 0x100;
    assert b == 0x100 * c + b % 0x100;
  }

  // ------------------------------------------------------------------ the FAT

  /** Entry c starts at byte `EntryOffset(c)` of FAT sector `EntrySector(c)`. */
  function EntrySector(c: nat): nat {
    c * 4 / SECTOR_SIZE
  }

  function EntryOffset(c: nat): (o: nat)
    ensures o + 4 <= SECTOR_SIZE && 4 * c == SECTOR_SIZE * EntrySector(c) + o
  {
    assert c * 4 % SECTOR_SIZE == c % 128 * 4;
    c * 4 % SECTOR_SIZE
  }

  lemma FatSectorOnDisk(g: Geometry, d: Disk, c: nat)
    requires Fits(g, d) && c < g.Clusters()
    ensures g.fatSector + EntrySector(c) < g.fatSector + g.fatSize <= g.firstData <= |d|
  {
    assert 4 * c == SECTOR_SIZE * EntrySector(c) + EntryOffset(c);
  }

  function FatEntry(g: Geometry, d: Disk, c: nat): (v: nat)
    requires Fits(g, d) && c < g.Clusters()
    ensures v < FAT_MASK
  {
    FatSectorOnDisk(g, d, c);
    Word(d[g.fatSector + EntrySector(c)], EntryOffset(c)) % FAT_MASK
  }

  function Fat(g: Geometry, d: Disk): (fat: seq<nat>)
    requires Fits(g, d)
    ensures |fat| == g.Clusters()
    ensures forall c :: 0 <= c < |fat| ==> fat[c] == FatEntry(g, d, c) && fat[c] < FAT_MASK
  {
    seq(g.Clusters(), c requires 0 <= c < g.Clusters() => FatEntry(g, d, c))
  }

  /** The sector write that `set_next_cluster` performs. */
  function WithFatEntry(g: Geometry, d: Disk, c: nat, v: nat): (d': Disk)
    requires Fits(g, d) && c < g.Clusters() && v < FAT_MASK
    ensures |d'| == |d|
  {
    FatSectorOnDisk(g, d, c);
    var k := g.fatSector + EntrySector(c);
    d[k := PutWord(d[k], EntryOffset(c), v)]
  }

  /** Entries that share a sector do not overlap. */
  lemma EntriesApart(c: nat, x: nat)
    requires x != c && EntrySector(x) == EntrySector(c)
    ensures EntryOffset(x) + 4 <= EntryOffset(c) || EntryOffset(c) + 4 <= EntryOffset(x)
  {
    assert EntryOffset(x) - EntryOffset(c) == 4 * (x - c);
  }

  lemma WithFatEntryAt(g: Geometry, d: Disk, c: nat, v: nat, x: nat)
    requires Fits(g, d) && c < g.Clusters() && v < FAT_MASK && x < g.Clusters()
    requires Fits(g, WithFatEntry(g, d, c, v))
    ensures FatEntry(g, WithFatEntry(g, d, c, v), x) == if x == c then v else FatEntry(g, d, x)
  {
    FatSectorOnDisk(g, d, c);
    FatSectorOnDisk(g, d, x);
    if x == c {
      PutWordGet(d[g.fatSector + EntrySector(c)], EntryOffset(c), v);
    } else if EntrySector(x) == EntrySector(c) {
      EntriesApart(c, x);
      PutWordOther(d[g.fatSector + EntrySector(c)], EntryOffset(c), v, EntryOffset(x));
    }
  }

  /** Writing one FAT entry changes that entry and nothing else: no other entry,
      although 127 of them share the sector, and no data sector. */
  lemma WithFatEntryExact(g: Geometry, d: Disk, c: nat, v: nat)
    requires Fits(g, d) && c < g.Clusters() && v < FAT_MASK
    ensures Fits(g, WithFatEntry(g, d, c, v))
    ensures Fat(g, WithFatEntry(g, d, c, v)) == Fat(g, d)[c := v]
    ensures SameData(g, d, WithFatEntry(g, d, c, v))
  {
    FatSectorOnDisk(g, d, c);
    var d' := WithFatEntry(g, d, c, v);
    forall x | 0 <= x < g.Clusters()
      ensures Fat(g, d')[x] == Fat(g, d)[c := v][x]
    {
      WithFatEntryAt(g, d, c, v, x);
    }
  }

  /** All sectors of the data area agree. */
  ghost predicate SameData(g: Geometry, d: Disk, d': Disk) {
    |d| == |d'| && forall k :: g.firstData <= k < |d| ==> d'[k] == d[k]
  }

  /** A write to the data area leaves the FAT alone. */
  lemma DataWriteKeepsFat(g: Geometry, d: Disk, k: nat, s: Sector)
    requires Fits(g, d) && g.firstData <= k < |d|
    ensures Fits(g, d[k := s]) && Fat(g, d[k := s]) == Fat(g, d)
  {
    forall x | 0 <= x < g.Clusters()
      ensures FatEntry(g, d[k := s], x) == FatEntry(g, d, x)
    {
      FatSectorOnDisk(g, d, x);
    }
  }

  // ------------------------------------------------------------- data clusters

  /** Sector s of cluster c lies in the data area of the disk. */
  lemma ClusterOnDisk(g: Geometry, d: Disk, c: nat, s: nat)
    requires Fits(g, d) && 2 <= c < g.Clusters() && s < g.spc
    ensures g.firstData <= g.ClusterToSector(c) + s < |d|
  {
    TimesStep(c - 2, g.Clusters() - 2, g.spc);
  }

  /** The sectors of a cluster end before those of a later cluster begin. */
  lemma ClusterBefore(g: Geometry, c: nat, s: nat, c': nat)
    requires 2 <= c < c' && s < g.spc
    ensures g.ClusterToSector(c) + s < g.ClusterToSector(c')
  {
    TimesStep(c - 2, c' - 2, g.spc);
  }
}
