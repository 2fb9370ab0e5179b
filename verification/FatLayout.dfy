/**
  What the volume's records and calls mean byte by byte: where an entry of the FAT, a byte of
  a file and a record of a directory lie on the disk, and which bytes each call changes.
 */
module FatLayout {
  import opened FatDisk
  import opened FatChain
  import opened FatPartition
  import opened FatBytes
  import opened FatData
  import opened FatWrite
  import opened FatEntry
  import opened FatTree
  import opened FatScan
  import opened FatMatch

  // ---------------------------------------------------------------------- the FAT

  /** Entry c of the FAT: four bytes, low byte first, without the four highest bits. */
  lemma FatEntryAt(g: Geometry, d: Disk, c: nat)
    requires Fits(g, d) && c < g.fatSize * 128
    ensures g.fatSector + c / 128 < |d| && 4 * (c % 128) + 3 < 512
    ensures var s: seq<int>, o := d[g.fatSector + c / 128], 4 * (c % 128);
            Fat(g, d)[c] == s[o] + 0x100 * s[o + 1] + 0x1_0000 * s[o + 2] + 0x100_0000 * (s[o + 3] % 16)
  {
    FatSectorOnDisk(g, d, c);
    assert EntrySector(c) == c / 128 && EntryOffset(c) == 4 * (c % 128);
    var s: seq<int>, o := d[g.fatSector + c / 128], 4 * (c % 128);
    LowBits(s[o] + 0x100 * s[o + 1] + 0x1_0000 * s[o + 2], s[o + 3]);
  }

  lemma LowBits(x: nat, y: nat)
    requires x < 0x100_0000
    ensures (x + 0x100_0000 * y) % 0x1000_0000 == x + 0x100_0000 * (y % 16)
  {
    assert x + 0x100_0000 * y == 0x1000_0000 * (y / 16) + (x + 0x100_0000 * (y % 16));
  }

  /** Setting entry c changes four bytes of the disk: the value, low byte first. */
  lemma FatEntryWrite(g: Geometry, d: Disk, c: nat, v: nat, k: nat, i: nat)
    requires Fits(g, d) && c < g.fatSize * 128 && v < 0x1000_0000 && k < |d| && i < 512
    ensures var o := 4 * (c % 128);
            WithFatEntry(g, d, c, v)[k][i]
            == if k != g.fatSector + c / 128 then d[k][i]
               else if i == o then v % 0x100
               else if i == o + 1 then v / 0x100 % 0x100
               else if i == o + 2 then v / 0x1_0000 % 0x100
               else if i == o + 3 then v / 0x100_0000
               else d[k][i]
  {
    FatSectorOnDisk(g, d, c);
    assert EntrySector(c) == c / 128 && EntryOffset(c) == 4 * (c % 128);
  }

  /** A chain: clusters from 2 on, each entry the next cluster, and the last one 0x0FFFFFF8 or more. */
  lemma ChainEntries(fat: seq<nat>, cs: seq<nat>)
    ensures IsChain(fat, cs) <==>
            && cs != [] && (forall i :: 0 <= i < |cs| ==> 2 <= cs[i] < |fat|)
            && (forall i {:trigger fat[cs[i]]} :: 0 <= i < |cs| ==>
                  if i + 1 < |cs| then fat[cs[i]] == cs[i + 1] else fat[cs[i]] >= 0x0FFF_FFF8)
  {
    if cs != [] && forall i :: 0 <= i < |cs| ==> 2 <= cs[i] < |fat| {
      var last := fat[cs[|cs| - 1]];
    }
  }

  // ----------------------------------------------------------------------- the data

  /** Byte x of sector s of the i-th cluster of a chain, in its string and on the disk. */
  lemma TextAt(g: Geometry, d: Disk, cs: seq<nat>, i: nat, s: nat, x: nat, at: nat, sector: nat)
    requires Fits(g, d) && Clusters(g, cs) && i < |cs| && s < g.spc && x < 512
    requires at == i * (g.spc * 512) + s * 512 + x && sector == g.firstData + (cs[i] - 2) * g.spc + s
    ensures |Text(g, d, cs)| == |cs| * (g.spc * 512)
    ensures at < |Text(g, d, cs)| && sector < |d| && Text(g, d, cs)[at] == d[sector][x]
  {
    assert 2 <= cs[i] < g.Clusters();
    TimesIsProduct(|cs|, ClusterSize(g));
    TimesIsProduct(i, ClusterSize(g));
    TimesIsProduct(cs[i] - 2, g.spc);
    TextSpot(g, d, cs, i, s, x);
    hide Text;
    hide Times;
  }

  lemma TextSpot(g: Geometry, d: Disk, cs: seq<nat>, i: nat, s: nat, x: nat)
    requires Fits(g, d) && Clusters(g, cs) && i < |cs| && s < g.spc && x < 512
    ensures Start(g, i) + s * 512 + x < |Text(g, d, cs)| && g.ClusterToSector(cs[i]) + s < |d|
    ensures Text(g, d, cs)[Start(g, i) + s * 512 + x] == d[g.ClusterToSector(cs[i]) + s][x]
  {
    hide Text;
    hide ClusterText;
    var c, a := cs[i], s * 512 + x;
    assert 2 <= c < g.Clusters();
    SectorSlice(g, d, c, s, x, x + 1);
    ClusterSlice(g, d, cs, i, a, a + 1);
    var t, b := Text(g, d, cs), ClusterText(g, d, c);
    assert t[Start(g, i) + a] == t[Start(g, i) + a..Start(g, i) + (a + 1)][0];
    assert b[a] == b[s * SECTOR_SIZE + x..s * SECTOR_SIZE + (x + 1)][0];
  }

  /** Record j of a directory: 32 bytes of its string. */
  lemma RecordAt(g: Geometry, d: Disk, cs: seq<nat>, j: nat, i: nat)
    requires Fits(g, d) && Clusters(g, cs) && 32 * j + 32 <= |Text(g, d, cs)| && i < 32
    ensures j < |Records(g, d, cs)| && Records(g, d, cs)[j][i] == Text(g, d, cs)[32 * j + i]
  {
    hide Text;
    assert j < |Text(g, d, cs)| / 32;
  }

  // -------------------------------------------------------------------- the records

  /** The fields of a record. */
  lemma RecordFields(e: Entry)
    ensures forall i :: 0 <= i < 11 ==> NameOf(e)[i] == e[i]
    ensures var b: seq<int> := e; FirstCluster(e) == b[26] + 0x100 * b[27] + 0x1_0000 * b[20] + 0x100_0000 * b[21]
    ensures var b: seq<int> := e; SizeOf(e) == b[28] + 0x100 * b[29] + 0x1_0000 * b[30] + 0x100_0000 * b[31]
    ensures InUse(e) <==> e[0] !in {0, 0xE5}
    ensures Live(e) <==> e[0] !in {0, 0xE5} && e[11] != 0x0F
    ensures IsDir(e) <==> e[11] / 16 % 2 == 1
    ensures IsDot(e) <==>
            e[0] == 46 && (e[1] == 32 || e[1] == 46) && forall i :: 2 <= i < 11 ==> e[i] == 32
  {
    if e[0] == 46 && e[1] == 32 && forall i :: 2 <= i < 11 ==> e[i] == 32 {
      assert NameOf(e) == DOT;
    }
    if e[0] == 46 && e[1] == 46 && forall i :: 2 <= i < 11 ==> e[i] == 32 {
      assert NameOf(e) == DOTDOT;
    }
    if IsDot(e) {
      assert forall i :: 0 <= i < 11 ==> e[i] == NameOf(e)[i];
    }
  }

  /** Byte i of a new record. */
  lemma NewRecord(n: Name, attr: Byte, c: nat, i: nat)
    requires c < 0x1_0000_0000 && i < 32
    ensures NewEntry(n, attr, c)[i]
            == if i < 11 then n[i]
               else if i == 11 then attr
               else if i == 26 then c % 0x100
               else if i == 27 then c / 0x100 % 0x100
               else if i == 20 then c / 0x1_0000 % 0x100
               else if i == 21 then c / 0x100_0000
               else 0
  {
  }

  /** Byte i of a record whose cluster or size is rewritten. */
  lemma RecordUpdate(e: Entry, c: nat, size: nat, i: nat)
    requires c < 0x1000_0000 && size < 0x1_0000_0000 && i < 32
    ensures UpdatedEntry(e, c, size)[i]
            == if i in {20, 21, 26, 27} && c != 0
               then (if i == 26 then c % 0x100 else if i == 27 then c / 0x100 % 0x100
                     else if i == 20 then c / 0x1_0000 % 0x100 else c / 0x100_0000)
               else if 28 <= i && size != 0xFFFF_FFFF
               then (if i == 28 then size % 0x100 else if i == 29 then size / 0x100 % 0x100
                     else if i == 30 then size / 0x1_0000 % 0x100 else size / 0x100_0000)
               else e[i]
  {
  }

  /** A directory can take a record without growing iff some first byte is 0 or 0xE5. */
  lemma RoomNeeded(es: seq<Entry>, n: nat)
    ensures ClustersFor(es, n) == if exists i :: 0 <= i < |es| && es[i][0] in {0, 0xE5} then n else n + 1
  {
    assert HasSlot(es) <==> exists i :: 0 <= i < |es| && !InUse(es[i]);
    assert forall i :: 0 <= i < |es| ==> (!InUse(es[i]) <==> es[i][0] in {0, 0xE5});
  }

  /** A directory cannot be removed iff some record is neither free nor deleted nor named `.` or
      `..`; a long-name record counts. */
  lemma OccupiedBy(es: seq<Entry>)
    ensures Occupied(es) <==>
            exists i :: 0 <= i < |es| && es[i][0] !in {0, 0xE5} && es[i][..11] != DOT && es[i][..11] != DOTDOT
  {
    assert forall i :: 0 <= i < |es| ==> (InUse(es[i]) <==> es[i][0] !in {0, 0xE5});
    assert forall i :: 0 <= i < |es| ==> (IsDot(es[i]) <==> es[i][..11] == DOT || es[i][..11] == DOTDOT);
  }

  // ---------------------------------------------------------------------- the calls

  /** What a call keeps of the chains it does not name: their clusters and every byte. */
  lemma KeptChains(g: Geometry, d: Disk, ch: Chains, d': Disk, ch': Chains, ex: set<nat>, f: nat, i: nat)
    requires Kept(g, d, ch, d', ch', ex) && f in ch && f !in ex && Clusters(g, ch[f]) && i < |Text(g, d, ch[f])|
    ensures f in ch' && ch'[f] == ch[f]
    ensures |Text(g, d', ch[f])| == |Text(g, d, ch[f])| && Text(g, d', ch[f])[i] == Text(g, d, ch[f])[i]
  {
    hide Text;
  }

  /** A directory that grew: one cluster behind its chain, and free records behind its own. */
  lemma GrewRecords(dirs: Dirs, dirs': Dirs, k: nat, ch: Chains, ch': Chains)
    requires Grew(dirs, dirs', k, ch, ch')
    ensures k in dirs' && |dirs[k]| <= |dirs'[k]| && dirs'[k][..|dirs[k]|] == dirs[k] && dirs'.Keys == dirs.Keys
    ensures forall j, i :: |dirs[k]| <= j < |dirs'[k]| && 0 <= i < 32 ==> dirs'[k][j][i] == 0
    ensures forall x :: x in dirs && x != k ==> dirs'[x] == dirs[x]
    ensures k in ch' && |ch'[k]| == |ch[k]| + 1 && ch'[k][..|ch[k]|] == ch[k] && ch'.Keys == ch.Keys
    ensures forall x :: x in ch && x != k ==> ch'[x] == ch[x]
  {
  }

  /** A created file: its name, its first cluster, size 0, the archive attribute. */
  lemma CreatedRecord(dirs: Dirs, dirs': Dirs, k: nat, j: nat, n: Name, c: nat)
    requires c < 0x1_0000_0000 && Inserted(dirs, dirs', k, j, NewEntry(n, ATTR_ARCHIVE, c))
    ensures k in dirs' && j < |dirs'[k]|
    ensures var e := dirs'[k][j]; NameOf(e) == n && e[11] == 0x20 && !IsDir(e) && FirstCluster(e) == c && SizeOf(e) == 0
    ensures forall x, y :: x in dirs && 0 <= y < |dirs[x]| && (x != k || y != j) ==>
                             x in dirs' && y < |dirs'[x]| && dirs'[x][y] == dirs[x][y]
  {
    NewEntryFields(n, 0x20, c);
    hide NewEntry;
  }

  /** A truncated file: its size is 0, and its first cluster c if it got one. */
  lemma TruncatedRecord(e: Entry, c: nat)
    requires c < 0x1_0000_0000
    ensures SizeOf(WithSize(e, 0)) == 0 && WithSize(e, 0)[..28] == e[..28]
    ensures var r := WithSize(WithCluster(e, c), 0);
            SizeOf(r) == 0 && FirstCluster(r) == c && r[..20] == e[..20] && r[22..26] == e[22..26]
  {
    WithSizeFields(e, 0);
    WithClusterFields(e, c);
    WithSizeFields(WithCluster(e, c), 0);
  }

  /** A renamed record: the eleven bytes of the name and no other byte of any record. */
  lemma RenamedRecord(dirs: Dirs, dirs': Dirs, k: nat, j: nat, n: Name, n': Name)
    requires Renamed(dirs, dirs', k, j, n, n')
    ensures k in dirs' && j < |dirs'[k]| && dirs'[k][j][..11] == n' && dirs'[k][j][11..] == dirs[k][j][11..]
    ensures dirs'.Keys == dirs.Keys
    ensures forall x :: x in dirs ==> |dirs'[x]| == |dirs[x]|
    ensures forall x, y :: x in dirs && 0 <= y < |dirs[x]| && (x != k || y != j) ==> dirs'[x][y] == dirs[x][y]
  {
  }

  /** An unlinked record: its first byte is 0xE5 and every other byte of every remaining record is the same. */
  lemma UnlinkedRecord(g: Geometry, d: Disk, d': Disk, dirs: Dirs, ch: Chains, dirs': Dirs, ch': Chains, k: nat, j: nat,
                       n: Name)
    requires Unlinked(g, d, d', dirs, ch, dirs', ch', k, j, n)
    ensures k in dirs' ==> j < |dirs'[k]| && dirs'[k][j][0] == 0xE5 && dirs'[k][j][1..] == dirs[k][j][1..]
    ensures forall x :: x in dirs' ==> x in dirs && |dirs'[x]| == |dirs[x]|
    ensures forall x, y :: x in dirs' && 0 <= y < |dirs'[x]| && (x != k || y != j) ==> dirs'[x][y] == dirs[x][y]
    ensures forall x :: x in dirs && x !in dirs' ==> x == FirstCluster(dirs[k][j])
  {
    hide Kept;
    hide Cleared;
    hide FirstCluster;
  }

  /** A moved record: all 32 bytes arrive, and the old slot keeps all but its first byte. */
  lemma MovedRecord(dirs: Dirs, dirs': Dirs, k: nat, j: nat, k': nat, j': nat, n: Name)
    requires Moved(dirs, dirs', k, j, k', j', n)
    ensures k in dirs' && k' in dirs' && j < |dirs'[k]| && j' < |dirs'[k']|
    ensures dirs'[k'][j'] == dirs[k][j]
    ensures dirs'[k][j][0] == 0xE5 && dirs'[k][j][1..] == dirs[k][j][1..]
    ensures forall x, y :: x in dirs && 0 <= y < |dirs[x]| && (x != k || y != j) && (x != k' || y != j') ==>
                             y < |dirs'[x]| && dirs'[x][y] == dirs[x][y]
  {
    assert dirs'[k] == Put(dirs[k], j, Deleted(dirs[k][j]));
  }

  /** What a write leaves in the string, position by position. */
  lemma OverlaidBytes(b: seq<Byte>, b': seq<Byte>, o: nat, s: seq<Byte>)
    ensures Overlaid(b, b', o, s) <==>
            && |b| <= |b'| && (s == [] || o + |s| <= |b'|)
            && forall p :: 0 <= p < |b'| ==>
                 b'[p] == if o <= p < o + |s| then s[p - o] else if p < |b| then b[p] else 0
  {
    if |b| <= |b'| && (s == [] || o + |s| <= |b'|) {
      var z := b + Zeros(|b'| - |b|);
      forall p | 0 <= p < |b'|
        ensures Overlay(z, o, s)[p] == if o <= p < o + |s| then s[p - o] else z[p]
      {
        if s != [] {
          SpliceAt(z, o, s, p);
        }
      }
    }
  }
}
