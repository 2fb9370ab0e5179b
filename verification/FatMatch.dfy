/**
  The link between the abstract volume and the disk: directory records are what
  the chains hold, and which chains an operation leaves untouched.
 */
module FatMatch {
  import opened FatDisk
  import opened FatChain
  import opened FatPartition
  import opened FatBytes
  import opened FatData
  import opened FatClear
  import opened FatWrite
  import opened FatVolume
  import opened FatEntry
  import opened FatTree
  import opened FatScan
  import FatRun

  /** The records of the directories are what their chains hold on the disk. */
  ghost predicate DirsMatch(g: Geometry, d: Disk, ch: Chains, dirs: Dirs) {
    && Fits(g, d)
    && forall k :: k in dirs ==> k in ch && Clusters(g, ch[k]) && Records(g, d, ch[k]) == dirs[k]
  }

  lemma MatchSameData(g: Geometry, d: Disk, d': Disk, ch: Chains, dirs: Dirs)
    requires DirsMatch(g, d, ch, dirs) && Fits(g, d') && SameData(g, d, d')
    ensures DirsMatch(g, d', ch, dirs)
  {
    hide Text;
    hide Slots;
    forall k | k in dirs
      ensures Records(g, d', ch[k]) == dirs[k]
    {
      TextSameData(g, d, d', ch[k]);
    }
  }

  /** Changing a cluster that is on no chain but possibly k's. */
  lemma MatchOthers(g: Geometry, d: Disk, d': Disk, ch: Chains, dirs: Dirs, c: nat, k: nat)
    requires DirsMatch(g, d, ch, dirs) && Fits(g, d') && 2 <= c < g.Clusters() && TouchesOnly(g, d, d', c)
    requires forall x :: x in ch && c in ch[x] ==> x == k
    ensures forall x :: x in dirs && x != k ==> Records(g, d', ch[x]) == dirs[x]
    ensures OthersSame(g, d, d', ch, k)
  {
    hide Text;
    hide Slots;
    hide TouchesOnly;
    forall x | x in ch && x != k && Clusters(g, ch[x])
      ensures Text(g, d', ch[x]) == Text(g, d, ch[x])
    {
      TextFrame(g, d, d', c, ch[x]);
    }
  }

  lemma MatchRecordWrite(g: Geometry, d: Disk, d': Disk, ch: Chains, dirs: Dirs, k: nat, ci: nat, p: Place, j: nat,
                         e: Entry)
    requires DirsMatch(g, d, ch, dirs) && Fits(g, d') && k in dirs && Distinct(ch[k]) && Disjoint(ch)
    requires ci < |ch[k]| && PlaceOf(g, ch[k], p, ci, j) && TouchesOnly(g, d, d', p.c)
    requires p.s * SECTOR_SIZE + ENTRY_SIZE * p.i + ENTRY_SIZE <= ClusterSize(g)
    requires ClusterText(g, d', p.c) == Splice(ClusterText(g, d, p.c), p.s * SECTOR_SIZE + ENTRY_SIZE * p.i, e)
    ensures j < |dirs[k]| && DirsMatch(g, d', ch, SetSlot(dirs, k, j, e))
    ensures OthersSame(g, d, d', ch, k)
  {
    hide Records;
    hide TouchesOnly;
    hide ClusterText;
    hide OthersSame;
    assert ch[k][ci] in ch[k];
    RecordWrite(g, d, d', ch[k], ci, p.s, p.i, e);
    MatchOthers(g, d, d', ch, dirs, p.c, k);
  }

  /** Every chain outside ex keeps its clusters and its bytes. */
  ghost predicate Kept(g: Geometry, d: Disk, ch: Chains, d': Disk, ch': Chains, ex: set<nat>) {
    && Fits(g, d) && Fits(g, d')
    && forall f :: f in ch && f !in ex ==> f in ch' && ch'[f] == ch[f] && SameText(g, d, d', ch[f])
  }

  ghost predicate SameText(g: Geometry, d: Disk, d': Disk, cs: seq<nat>)
    requires Fits(g, d) && Fits(g, d')
  {
    Clusters(g, cs) ==> Text(g, d', cs) == Text(g, d, cs)
  }

  lemma KeptThen(g: Geometry, d: Disk, ch: Chains, d1: Disk, ch1: Chains, d2: Disk, ch2: Chains, ex: set<nat>,
                 ex': set<nat>)
    requires Kept(g, d, ch, d1, ch1, ex) && Kept(g, d1, ch1, d2, ch2, ex') && ex' <= ex
    ensures Kept(g, d, ch, d2, ch2, ex)
  {
    hide Text;
    forall f | f in ch && f !in ex
      ensures f in ch2 && ch2[f] == ch[f] && SameText(g, d, d2, ch[f])
    {
      assert f in ch1 && f !in ex';
    }
  }

  lemma KeptSame(g: Geometry, d: Disk, ch: Chains, ex: set<nat>)
    requires Fits(g, d)
    ensures Kept(g, d, ch, d, ch, ex)
  {
  }

  lemma KeptOthers(g: Geometry, d: Disk, d': Disk, ch: Chains, k: nat)
    requires Fits(g, d) && Fits(g, d') && OthersSame(g, d, d', ch, k)
    ensures Kept(g, d, ch, d', ch, {k})
  {
    hide Text;
  }

  lemma KeptExtend(g: Geometry, d: Disk, d': Disk, ch: Chains, ch': Chains, k: nat)
    requires Fits(g, d) && Fits(g, d') && OthersSame(g, d, d', ch, k) && k in ch && k in ch' && ch' == ch[k := ch'[k]]
    ensures Kept(g, d, ch, d', ch', {k})
  {
    hide Text;
  }

  /** A FAT name that `to_fat_name` can make and a live record can carry. */
  predicate GoodName(n: Name) {
    n[0] != 0 && n[0] != DELETED && n != DOT && n != DOTDOT
  }

  lemma GoodNameOwns(e: Entry)
    requires GoodName(NameOf(e)) && e[11] != ATTR_LONG_NAME
    ensures Live(e) && !IsDot(e) && (FirstCluster(e) != 0 ==> Owns(e))
  {
    assert e[0] == NameOf(e)[0];
  }

  /** Only directory k changed, and only by one more cluster of free records. */
  ghost predicate Grew(dirs: Dirs, dirs': Dirs, k: nat, ch: Chains, ch': Chains) {
    && k in dirs && k in ch
    && (exists n: nat :: dirs' == dirs[k := Grown(dirs[k], n)])
    && (exists c: nat :: ch' == ch[k := ch[k] + [c]])
  }

  /** Some record of the directory is free. */
  ghost predicate HasSlot(es: seq<Entry>) {
    !Taken(es, |es|)
  }

  /** The clusters it takes to add a record that needs n of its own. */
  ghost function ClustersFor(es: seq<Entry>, n: nat): nat {
    if HasSlot(es) then n else n + 1
  }

  /** e went into the first free slot, j, of directory k, which may have grown by free records; every other record
      of every directory is the same. */
  ghost predicate Inserted(dirs: Dirs, dirs': Dirs, k: nat, j: nat, e: Entry) {
    && k in dirs && dirs'.Keys == dirs.Keys && (forall x :: x in dirs && x != k ==> dirs'[x] == dirs[x])
    && |dirs[k]| <= |dirs'[k]| && j < |dirs'[k]| && dirs'[k][j] == e
    && Taken(dirs[k], j) && (j < |dirs[k]| ==> !InUse(dirs[k][j]))
    && (forall i :: 0 <= i < |dirs'[k]| && i != j ==>
          dirs'[k][i] == if i < |dirs[k]| then dirs[k][i] else ZeroEntry())
  }

  lemma InsertedShown(dirs: Dirs, dirs1: Dirs, k: nat, j: nat, e: Entry, ch: Chains, ch1: Chains)
    requires k in dirs && (dirs1 == dirs || Grew(dirs, dirs1, k, ch, ch1))
    requires k in dirs1 && j < |dirs1[k]| && Taken(dirs1[k], j) && !InUse(dirs1[k][j])
    ensures Inserted(dirs, SetSlot(dirs1, k, j, e), k, j, e)
  {
    hide InUse;
    hide ZeroEntry;
    assert forall i :: 0 <= i < |dirs[k]| ==> dirs1[k][i] == dirs[k][i];
    assert Taken(dirs[k], j);
  }

  /** In a well-formed directory the scan for a name is exact. */
  lemma LookupExact(es: seq<Entry>, n: Name, stopped: bool, j: nat)
    requires DirOk(es) && NoStop(ForName(n), es, if stopped then j else |es|)
    requires stopped ==> j < |es| && Stops(ForName(n), es[j])
    ensures stopped && es[j][0] != 0 ==> Live(es[j]) && NameOf(es[j]) == n && !Absent(es, n)
    ensures !(stopped && es[j][0] != 0) ==> Absent(es, n)
  {
    if !(stopped && es[j][0] != 0) {
      forall i | 0 <= i < |es| && Live(es[i])
        ensures NameOf(es[i]) != n
      {
        if !stopped || i < j {
          assert !Stops(ForName(n), es[i]);
        }
      }
    }
  }

  lemma FreeScan(es: seq<Entry>, stopped: bool, j: nat)
    requires NoStop(ForFree, es, if stopped then j else |es|) && (stopped ==> j < |es| && Stops(ForFree, es[j]))
    ensures Taken(es, if stopped then j else |es|) && (stopped ==> !InUse(es[j])) && (stopped <==> HasSlot(es))
  {
    hide InUse;
    forall i | 0 <= i < (if stopped then j else |es|) && i < |es|
      ensures InUse(es[i])
    {
      assert !Stops(ForFree, es[i]);
    }
  }

  lemma GrownFree(es: seq<Entry>, n: nat)
    requires Taken(es, |es|) && 0 < n
    ensures Taken(Grown(es, n), |es|) && !InUse(Grown(es, n)[|es|])
  {
  }

  lemma GrowVolume(g: Geometry, d: Disk, d': Disk, ch: Chains, dirs: Dirs, k: nat, c: nat)
    requires DirsMatch(g, d, ch, dirs) && k in dirs && |ch[k]| > 0
    requires TreeOk(Fat(g, d), ch, dirs, g.root) && Linked(g, d, d', ch[k][|ch[k]| - 1], c)
    ensures TreeOk(Fat(g, d'), ch[k := ch[k] + [c]], dirs[k := Grown(dirs[k], SLOTS * g.spc)], g.root)
    ensures DirsMatch(g, d', ch[k := ch[k] + [c]], dirs[k := Grown(dirs[k], SLOTS * g.spc)])
    ensures OthersSame(g, d, d', ch, k)
    ensures |dirs[k]| == SlotIndex(g, |ch[k]|, 0, 0)
  {
    hide Partition;
    hide LinksOk;
    hide DirOk;
    hide Text;
    hide ClusterText;
    hide TouchesOnly;
    hide Slots;
    hide Grown;
    TreeGrow(Fat(g, d), ch, dirs, g.root, k, c, SLOTS * g.spc);
    FreeIsUnowned(Fat(g, d), ch, c);
    LinkedText(g, d, d', ch[k], ch[k][|ch[k]| - 1], c);
    RecordsGrow(g, d, d', ch[k], c);
    LinkedOthers(g, d, d', ch, k, ch[k][|ch[k]| - 1], c);
    GrownIs(dirs[k], SLOTS * g.spc);
    forall x | x in dirs && x != k
      ensures Records(g, d', ch[x]) == dirs[x]
    {
      LinkedText(g, d, d', ch[x], ch[k][|ch[k]| - 1], c);
    }
  }

  lemma GrownIs(es: seq<Entry>, n: nat)
    ensures Grown(es, n) == es + seq(n, _ => ZeroEntry())
  {
  }

  lemma FreeIsUnowned(fat: seq<nat>, ch: Chains, c: nat)
    requires Partition(fat, ch) && 2 <= c < |fat| && fat[c] == 0
    ensures !OnSomeChain(ch, c) && forall k :: k in ch ==> c !in ch[k]
  {
    UsedIffOwned(fat, ch, c);
  }

  lemma KeptNew(g: Geometry, d: Disk, d': Disk, ch: Chains, c: nat)
    requires Fits(g, d) && Fits(g, d') && c !in ch && OthersSame(g, d, d', ch, c)
    ensures Kept(g, d, ch, d', ch[c := [c]], {})
  {
    hide Text;
  }

  /** Growing a directory adds no name. */
  lemma AbsentStill(dirs: Dirs, dirs': Dirs, k: nat, ch: Chains, ch': Chains, n: Name)
    requires k in dirs && Absent(dirs[k], n) && (dirs' == dirs || Grew(dirs, dirs', k, ch, ch'))
    ensures k in dirs' && Absent(dirs'[k], n)
  {
    FreeOwnsNothing(ZeroEntry());
  }

  lemma NewFileEntry(n: Name, c: nat)
    requires GoodName(n) && 2 <= c < 0x1_0000_0000
    ensures Owns(NewEntry(n, ATTR_ARCHIVE, c)) && !IsDir(NewEntry(n, ATTR_ARCHIVE, c))
    ensures FirstCluster(NewEntry(n, ATTR_ARCHIVE, c)) == c && NameOf(NewEntry(n, ATTR_ARCHIVE, c)) == n
  {
    NewEntryFields(n, ATTR_ARCHIVE, c);
    GoodNameOwns(NewEntry(n, ATTR_ARCHIVE, c));
  }

  lemma TreeDirs(fat: seq<nat>, ch: Chains, dirs: Dirs, root: nat, k: nat)
    requires TreeOk(fat, ch, dirs, root) && k in dirs
    ensures k in ch && dirs.Keys <= ch.Keys
  {
    hide Partition;
    hide DirOk;
    hide LinksOk;
  }

  lemma KeptMore(g: Geometry, d: Disk, ch: Chains, d': Disk, ch': Chains, ex: set<nat>, ex': set<nat>)
    requires Kept(g, d, ch, d', ch', ex) && ex <= ex'
    ensures Kept(g, d, ch, d', ch', ex')
  {
    hide SameText;
  }

  lemma KeptSameData(g: Geometry, d: Disk, d': Disk, ch: Chains, k: nat, cs: seq<nat>)
    requires Fits(g, d) && Fits(g, d') && SameData(g, d, d')
    ensures Kept(g, d, ch, d', ch[k := cs], {k})
  {
    hide Text;
    forall f | f in ch && f != k
      ensures SameText(g, d, d', ch[f])
    {
      if Clusters(g, ch[f]) {
        TextSameData(g, d, d', ch[f]);
      }
    }
  }

  lemma SameDataThen(g: Geometry, d: Disk, d1: Disk, d2: Disk)
    requires SameData(g, d, d1) && SameData(g, d1, d2)
    ensures SameData(g, d, d2)
  {
  }

  lemma TruncateFreesTail(fat: seq<nat>, ch: Chains, k: nat)
    requires Partition(fat, ch) && k in ch && k < |fat|
    ensures |ch[k]| > 0 && InRange(fat[k := EOC]) && (fat[k] < |fat| || EOC_MIN <= fat[k])
    ensures ClearChain(fat[k := EOC], fat[k]) == Freed(fat[k := EOC], Elements(ch[k][1..]))
  {
    PartitionInRange(fat, ch);
    HeadInRange(fat, ch, k);
    TailFreed(fat, ch[k]);
  }

  lemma TailFreed(fat: seq<nat>, cs: seq<nat>)
    requires IsChain(fat, cs) && InRange(fat) && 2 <= |fat| <= EOC_MIN
    ensures InRange(fat[cs[0] := EOC]) && (fat[cs[0]] < |fat| || EOC_MIN <= fat[cs[0]])
    ensures ClearChain(fat[cs[0] := EOC], fat[cs[0]]) == Freed(fat[cs[0] := EOC], Elements(cs[1..]))
  {
    hide ClearChain;
    if |cs| > 1 {
      TailStands(fat, cs);
      ClearChainFrees(fat[cs[0] := EOC], cs[1..]);
    } else {
      ClearNothing(fat[cs[0] := EOC], fat[cs[0]]);
      assert Elements(cs[1..]) == {};
    }
  }

  lemma TailStands(fat: seq<nat>, cs: seq<nat>)
    requires IsChain(fat, cs) && |fat| <= EOC_MIN && |cs| > 1
    ensures IsChain(fat[cs[0] := EOC], cs[1..]) && cs[1..][0] == fat[cs[0]]
  {
    ChainDistinct(fat, cs);
    ChainTail(fat, cs, 1);
    ChainFrame(fat, fat[cs[0] := EOC], cs[1..]);
  }

  lemma ClearNothing(fat: seq<nat>, c: nat)
    requires InRange(fat) && 2 <= |fat| <= EOC_MIN && EOC_MIN <= c
    ensures ClearChain(fat, c) == fat && Freed(fat, {}) == fat
  {
  }

  lemma ResizedEntry(e: Entry, n: nat)
    requires n < 0x1_0000_0000
    ensures FirstCluster(WithSize(e, n)) == FirstCluster(e) && WithSize(e, n)[11] == e[11]
    ensures NameOf(WithSize(e, n)) == NameOf(e)
    ensures (Live(WithSize(e, n)) <==> Live(e)) && (IsDot(WithSize(e, n)) <==> IsDot(e))
  {
    WithSizeFields(e, n);
    assert WithSize(e, n)[0] == e[0];
  }

  lemma AttachedEntry(e: Entry, c: nat)
    requires 2 <= c < 0x1_0000_0000 && Live(e) && !IsDot(e) && !IsDir(e)
    ensures Owns(WithSize(WithCluster(e, c), 0)) && FirstCluster(WithSize(WithCluster(e, c), 0)) == c
    ensures NameOf(WithSize(WithCluster(e, c), 0)) == NameOf(e) && !IsDir(WithSize(WithCluster(e, c), 0))
  {
    WithClusterFields(e, c);
    WithSizeFields(WithCluster(e, c), 0);
    assert WithSize(WithCluster(e, c), 0)[0] == e[0];
  }

  /** The chain of a live file. */
  lemma FileChain(ch: Chains, dirs: Dirs, root: nat, k: nat, j: nat)
    requires LinksOk(ch, dirs, root) && k in dirs && j < |dirs[k]| && Live(dirs[k][j]) && !IsDot(dirs[k][j])
    requires FirstCluster(dirs[k][j]) != 0
    ensures Ref(dirs, k, j, FirstCluster(dirs[k][j]))
    ensures FirstCluster(dirs[k][j]) in ch && FirstCluster(dirs[k][j]) != root
    ensures FirstCluster(dirs[k][j]) in dirs <==> IsDir(dirs[k][j])
  {
    hide FirstCluster;
    hide IsDir;
    assert Ref(dirs, k, j, FirstCluster(dirs[k][j]));
  }

  /** A first cluster below 2 is 0. */
  lemma NoChainMeansZero(fat: seq<nat>, ch: Chains, dirs: Dirs, root: nat, k: nat, j: nat)
    requires TreeOk(fat, ch, dirs, root) && k in dirs && j < |dirs[k]| && Live(dirs[k][j]) && !IsDot(dirs[k][j])
    requires FirstCluster(dirs[k][j]) < 2
    ensures FirstCluster(dirs[k][j]) == 0
  {
    hide FirstCluster;
    hide Partition;
    if FirstCluster(dirs[k][j]) != 0 {
      FileChain(ch, dirs, root, k, j);
      HeadInRange(fat, ch, FirstCluster(dirs[k][j]));
    }
  }

  lemma HeadInRange(fat: seq<nat>, ch: Chains, c: nat)
    requires Partition(fat, ch) && c in ch
    ensures 2 <= c < |fat| && |ch[c]| > 0 && ch[c][0] == c
  {
    assert ch[c][0] == c;
  }

  // ------------------------------------------------------------------- new directories

  /** The first sector of a new directory: `.`, `..`, and free records. */
  function DotSector(c: nat, parent: nat): (buf: Sector)
    requires c < FAT_MASK && parent < FAT_MASK
  {
    NewEntry(DOT, ATTR_DIRECTORY, c) + NewEntry(DOTDOT, ATTR_DIRECTORY, parent) + Zeros(SECTOR_SIZE - 2 * ENTRY_SIZE)
  }

  function NewDirRecords(g: Geometry, c: nat, parent: nat): (es: seq<Entry>)
    requires c < FAT_MASK && parent < FAT_MASK
  {
    Grown([NewEntry(DOT, ATTR_DIRECTORY, c), NewEntry(DOTDOT, ATTR_DIRECTORY, parent)],
          if g.spc == 0 then 0 else SLOTS * g.spc - 2)
  }

  lemma NewDirOk(g: Geometry, c: nat, parent: nat)
    requires c < FAT_MASK && parent < FAT_MASK
    ensures DirOk(NewDirRecords(g, c, parent)) && OwnsNothing(NewDirRecords(g, c, parent))
  {
    NewEntryFields(DOT, ATTR_DIRECTORY, c);
    NewEntryFields(DOTDOT, ATTR_DIRECTORY, parent);
    hide NewEntry;
    FreeOwnsNothing(ZeroEntry());
    assert DOT[1] != DOTDOT[1];
  }

  /** Two records followed by zeros, cut into records. */
  lemma TwoSlots(a: Entry, b: Entry, n: nat)
    ensures Slots(a + b + Zeros(ENTRY_SIZE * n)) == Grown([a, b], n)
  {
    var t := a + b + Zeros(ENTRY_SIZE * n);
    var l, r := Slots(t), Grown([a, b], n);
    assert |l| == n + 2;
    forall j | 0 <= j < n + 2
      ensures l[j] == r[j]
    {
      assert l[j] == t[ENTRY_SIZE * j..ENTRY_SIZE * j + ENTRY_SIZE];
    }
  }

  lemma DotRecords(g: Geometry, d: Disk, c: nat, parent: nat)
    requires Fits(g, d) && 2 <= c < g.Clusters() && parent < FAT_MASK
    requires ClusterText(g, d, c) == Splice(Zeros(ClusterSize(g)), 0, DotSector(c, parent))
    ensures Clusters(g, [c]) && Records(g, d, [c]) == NewDirRecords(g, c, parent)
  {
    hide NewEntry;
    hide ClusterText;
    hide Text;
    hide Slots;
    var a: seq<Byte>, b: seq<Byte> := NewEntry(DOT, ATTR_DIRECTORY, c), NewEntry(DOTDOT, ATTR_DIRECTORY, parent);
    TextOne(g, d, c);
    SpliceParts(Zeros(ClusterSize(g)), 0, DotSector(c, parent));
    var n := SLOTS * g.spc - 2;
    assert Text(g, d, [c]) == a + b + Zeros(ENTRY_SIZE * n);
    TwoSlots(a, b, n);
  }

  lemma NewDirEntry(n: Name, c: nat)
    requires GoodName(n) && 2 <= c < 0x1_0000_0000
    ensures Owns(NewEntry(n, ATTR_DIRECTORY, c)) && IsDir(NewEntry(n, ATTR_DIRECTORY, c))
    ensures FirstCluster(NewEntry(n, ATTR_DIRECTORY, c)) == c && NameOf(NewEntry(n, ATTR_DIRECTORY, c)) == n
  {
    NewEntryFields(n, ATTR_DIRECTORY, c);
    GoodNameOwns(NewEntry(n, ATTR_DIRECTORY, c));
  }

  /** What the `..` record of a directory made in k points to. */
  function ParentOf(g: Geometry, k: nat): nat {
    if k == g.root then 0 else k
  }

  /** k gained a record named n for the new directory c, which holds only `.` and `..`. */
  ghost predicate MadeDir(g: Geometry, dirs: Dirs, dirs': Dirs, k: nat, j: nat, n: Name, c: nat) {
    && c < FAT_MASK && ParentOf(g, k) < FAT_MASK && c !in dirs
    && Inserted(dirs[c := NewDirRecords(g, c, ParentOf(g, k))], dirs', k, j, NewEntry(n, ATTR_DIRECTORY, c))
  }

  /** The new directory and its record, field by field: `.` leads to the directory itself, `..` to
      the one it was made in, 0 standing for the root, and nothing else is in use. */
  lemma MadeDirHolds(g: Geometry, dirs: Dirs, dirs': Dirs, k: nat, j: nat, n: Name, c: nat)
    requires k in dirs && MadeDir(g, dirs, dirs', k, j, n, c)
    ensures c in dirs' && 2 <= |dirs'[c]|
    ensures var e := dirs'[c][0]; NameOf(e) == DOT && e[11] == 0x10 && IsDir(e) && FirstCluster(e) == c
    ensures var e := dirs'[c][1];
            NameOf(e) == DOTDOT && e[11] == 0x10 && IsDir(e) && FirstCluster(e) == if k == g.root then 0 else k
    ensures forall i :: 2 <= i < |dirs'[c]| ==> dirs'[c][i][0] == 0
    ensures k in dirs' && j < |dirs'[k]|
    ensures var e := dirs'[k][j]; NameOf(e) == n && e[11] == 0x10 && IsDir(e) && FirstCluster(e) == c && SizeOf(e) == 0
  {
    var e, es := NewEntry(n, ATTR_DIRECTORY, c), NewDirRecords(g, c, ParentOf(g, k));
    assert dirs'[c] == es && dirs'[k][j] == e;
    assert e == NewEntry(n, 0x10, c);
    NewEntryFields(DOT, 0x10, c);
    NewEntryFields(DOTDOT, 0x10, ParentOf(g, k));
    NewEntryFields(n, 0x10, c);
    hide NewEntry;
  }

  lemma MadeDirShown(g: Geometry, dirs: Dirs, dirs1: Dirs, k: nat, j: nat, n: Name, c: nat, ch: Chains, ch1: Chains)
    requires c < FAT_MASK && k < FAT_MASK && c !in dirs && k in dirs && (dirs1 == dirs || Grew(dirs, dirs1, k, ch, ch1))
    requires k in dirs1 && j < |dirs1[k]| && Taken(dirs1[k], j) && !InUse(dirs1[k][j])
    ensures var named := SetSlot(dirs1, k, j, NewEntry(n, ATTR_DIRECTORY, c));
            MadeDir(g, dirs, named[c := NewDirRecords(g, c, ParentOf(g, k))], k, j, n, c)
  {
    var e := NewEntry(n, ATTR_DIRECTORY, c);
    InsertedShown(dirs, dirs1, k, j, e, ch, ch1);
    hide NewEntry;
    hide NewDirRecords;
    hide SetSlot;
    hide Grew;
    hide Taken;
    hide InUse;
  }

  lemma SetSlotNewKey(dirs: Dirs, k: nat, j: nat, e: Entry, c: nat, es: seq<Entry>)
    requires k in dirs && j < |dirs[k]| && c !in dirs
    ensures SetSlot(dirs, k, j, e)[c := es] == SetSlot(dirs[c := es], k, j, e)
    ensures SetSlot(dirs, k, j, e)[c := es][k] == Put(dirs[k], j, e)
  {
  }

  lemma KeyBound(fat: seq<nat>, ch: Chains, k: nat)
    requires Partition(fat, ch) && k in ch
    ensures k < FAT_MASK
  {
    HeadInRange(fat, ch, k);
  }

  lemma ZeroStays(g: Geometry, d: Disk, d': Disk, ch: Chains, k: nat, c: nat)
    requires Kept(g, d, ch, d', ch, {k}) && c in ch && c != k && ch[c] == [c] && 2 <= c < g.Clusters()
    ensures ClusterText(g, d', c) == ClusterText(g, d, c)
  {
    hide Text;
    hide ClusterText;
    assert SameText(g, d, d', [c]);
    TextOne(g, d, c);
    TextOne(g, d', c);
  }

  lemma KeptFresh(g: Geometry, d: Disk, ch: Chains, d1: Disk, ch1: Chains, d2: Disk, k: nat, c: nat)
    requires Kept(g, d, ch, d1, ch1, {k}) && Kept(g, d1, ch1, d2, ch1, {c}) && c !in ch
    ensures Kept(g, d, ch, d2, ch1, {k})
  {
    hide Text;
    forall f | f in ch && f != k
      ensures f in ch1 && ch1[f] == ch[f] && SameText(g, d, d2, ch[f])
    {
      assert SameText(g, d, d1, ch[f]);
      assert SameText(g, d1, d2, ch1[f]);
    }
  }

  lemma OnlyOwnChain(ch: Chains, c: nat)
    requires Disjoint(ch) && c in ch && ch[c] == [c]
    ensures forall x :: x in ch && c in ch[x] ==> x == c
  {
    assert c in ch[c];
  }

  // --------------------------------------------------------------------- removing

  lemma KeptRemoved(g: Geometry, d: Disk, d': Disk, ch: Chains, c: nat)
    requires Fits(g, d) && Fits(g, d') && SameData(g, d, d')
    ensures Kept(g, d, ch, d', Removed(ch, c), {c})
  {
    hide Text;
    forall f | f in ch && f != c
      ensures SameText(g, d, d', ch[f])
    {
      if Clusters(g, ch[f]) {
        TextSameData(g, d, d', ch[f]);
      }
    }
  }

  /** Something other than `.` and `..` is in use before the end marker. */
  ghost predicate Occupied(es: seq<Entry>) {
    exists i :: 0 <= i < |es| && InUse(es[i]) && !IsDot(es[i])
  }

  lemma OtherScan(es: seq<Entry>, stopped: bool, j: nat)
    requires DirOk(es) && NoStop(ForOther, es, if stopped then j else |es|)
    requires stopped ==> j < |es| && Stops(ForOther, es[j])
    ensures (stopped && es[j][0] != 0) <==> Occupied(es)
    ensures !Occupied(es) ==> OwnsNothing(es)
  {
    hide IsDot;
    hide FirstCluster;
    if !(stopped && es[j][0] != 0) {
      forall i | 0 <= i < |es|
        ensures !(InUse(es[i]) && !IsDot(es[i]))
      {
        if !stopped || i < j {
          assert !Stops(ForOther, es[i]);
        }
      }
    }
  }

  lemma LiveUnowned(e: Entry)
    requires Live(e) && FirstCluster(e) == 0
    ensures InUse(e) && !Owns(e)
  {
  }

  lemma DirHasChain(fat: seq<nat>, ch: Chains, dirs: Dirs, root: nat, k: nat, j: nat)
    requires TreeOk(fat, ch, dirs, root) && k in dirs && j < |dirs[k]| && Live(dirs[k][j]) && !IsDot(dirs[k][j])
    requires IsDir(dirs[k][j])
    ensures FirstCluster(dirs[k][j]) != 0 && FirstCluster(dirs[k][j]) in dirs
  {
    hide Partition;
    hide FirstCluster;
    hide IsDir;
    hide IsDot;
    hide Live;
    assert DirsHaveClusters(dirs[k]);
    FileChain(ch, dirs, root, k, j);
  }

  lemma OwnerElsewhere(ch: Chains, dirs: Dirs, root: nat, k: nat, j: nat, c: nat)
    requires LinksOk(ch, dirs, root) && Ref(dirs, k, j, c) && (c in dirs ==> OwnsNothing(dirs[c]))
    ensures k != c
  {
    hide Owns;
  }

  lemma WithoutOther(dirs: Dirs, k: nat, c: nat)
    requires k in dirs && k != c
    ensures k in Without(dirs, c) && Without(dirs, c)[k] == dirs[k]
  {
  }

  lemma WithoutSetSlot(dirs: Dirs, k: nat, j: nat, e: Entry, c: nat)
    requires k in dirs && j < |dirs[k]| && k != c
    ensures k in Without(dirs, c) && Without(dirs, c)[k] == dirs[k]
    ensures SetSlot(Without(dirs, c), k, j, e) == Without(SetSlot(dirs, k, j, e), c)
  {
  }

  lemma KeptAt(g: Geometry, d: Disk, ch: Chains, d': Disk, ch': Chains, k: nat, c: nat, p: Place, j: nat)
    requires Kept(g, d, ch, d', ch', {c}) && k in ch && k != c && At(g, ch[k], p, j)
    ensures k in ch' && At(g, ch'[k], p, j)
  {
    hide SameText;
  }

  /** Record j of k, named n, is gone, and so is exactly the chain it owned. */
  ghost predicate Unlinked(g: Geometry, d: Disk, d': Disk, dirs: Dirs, ch: Chains, dirs': Dirs, ch': Chains, k: nat,
                           j: nat, n: Name) {
    && k in dirs && j < |dirs[k]| && Live(dirs[k][j]) && NameOf(dirs[k][j]) == n
    && Kept(g, d, ch, d', ch', {k, FirstCluster(dirs[k][j])})
    && Cleared(Fat(g, d), FirstCluster(dirs[k][j]), Fat(g, d'))
    && var c := FirstCluster(dirs[k][j]);
       if c == 0 || IsDot(dirs[k][j]) then ch' == ch && dirs' == SetSlot(dirs, k, j, Deleted(dirs[k][j]))
       else ch' == Removed(ch, c) && dirs' == Without(SetSlot(dirs, k, j, Deleted(dirs[k][j])), c)
  }

  /** The FAT after clear_cluster_chain(c). */
  ghost predicate Cleared(fat: seq<nat>, c: nat, fat': seq<nat>) {
    && InRange(fat) && 2 <= |fat| <= EOC_MIN && (c < |fat| || EOC_MIN <= c)
    && fat' == ClearChain(fat, c)
  }

  lemma ClearedOwned(fat: seq<nat>, ch: Chains, c: nat)
    requires Partition(fat, ch) && c in ch
    ensures Cleared(fat, c, Freed(fat, Elements(ch[c])))
  {
    PartitionInRange(fat, ch);
    HeadInRange(fat, ch, c);
    HeadChain(fat, ch, c);
    hide Partition;
    ClearChainFrees(fat, ch[c]);
  }

  lemma ClearedNone(fat: seq<nat>, ch: Chains)
    requires Partition(fat, ch)
    ensures Cleared(fat, 0, fat)
  {
    PartitionInRange(fat, ch);
  }

  lemma UnlinkedShown(g: Geometry, d: Disk, d': Disk, dirs: Dirs, ch: Chains, dirs': Dirs, ch': Chains, k: nat, j: nat,
                      n: Name)
    requires k in dirs && j < |dirs[k]| && Live(dirs[k][j]) && NameOf(dirs[k][j]) == n
    requires Kept(g, d, ch, d', ch', {k, FirstCluster(dirs[k][j])})
    requires Cleared(Fat(g, d), FirstCluster(dirs[k][j]), Fat(g, d'))
    requires FirstCluster(dirs[k][j]) == 0 || IsDot(dirs[k][j]) ==>
              ch' == ch && dirs' == SetSlot(dirs, k, j, Deleted(dirs[k][j]))
    requires FirstCluster(dirs[k][j]) != 0 && !IsDot(dirs[k][j]) ==>
              ch' == Removed(ch, FirstCluster(dirs[k][j]))
              && dirs' == Without(SetSlot(dirs, k, j, Deleted(dirs[k][j])), FirstCluster(dirs[k][j]))
    ensures Unlinked(g, d, d', dirs, ch, dirs', ch', k, j, n)
  {
    hide Cleared;
    hide IsDot;
    hide Kept;
    hide Live;
    hide FirstCluster;
    hide Deleted;
    hide SetSlot;
    hide Without;
  }

  /** k lists a directory named n that is not empty. */
  ghost predicate BusyDir(dirs: Dirs, k: nat, n: Name) {
    k in dirs && exists j :: 0 <= j < |dirs[k]| && Live(dirs[k][j]) && NameOf(dirs[k][j]) == n && BusyAt(dirs, k, j)
  }

  ghost predicate BusyAt(dirs: Dirs, k: nat, j: nat)
    requires k in dirs && j < |dirs[k]|
  {
    IsDir(dirs[k][j]) && FirstCluster(dirs[k][j]) in dirs && Occupied(dirs[FirstCluster(dirs[k][j])])
  }

  lemma BusyShown(dirs: Dirs, k: nat, j: nat, n: Name)
    requires k in dirs && j < |dirs[k]| && Live(dirs[k][j]) && NameOf(dirs[k][j]) == n && IsDir(dirs[k][j])
    requires FirstCluster(dirs[k][j]) in dirs && Occupied(dirs[FirstCluster(dirs[k][j])])
    ensures BusyDir(dirs, k, n)
  {
    hide Live;
    hide IsDir;
    hide Occupied;
    hide FirstCluster;
    assert BusyAt(dirs, k, j);
  }

  lemma NotBusy(fat: seq<nat>, ch: Chains, dirs: Dirs, root: nat, k: nat, j: nat, n: Name)
    requires TreeOk(fat, ch, dirs, root) && k in dirs && j < |dirs[k]| && Live(dirs[k][j]) && NameOf(dirs[k][j]) == n
    requires var c := FirstCluster(dirs[k][j]); IsDir(dirs[k][j]) ==> c !in dirs || !Occupied(dirs[c])
    ensures !BusyDir(dirs, k, n)
  {
    hide Partition;
    hide LinksOk;
    hide Live;
    hide IsDir;
    hide Occupied;
    hide FirstCluster;
    assert NamesUnique(dirs[k]);
  }

  // ---------------------------------------------------------------------- moving

  lemma RenamedEntry(e: Entry, n: Name)
    requires Live(e) && GoodName(n)
    ensures FirstCluster(WithName(e, n)) == FirstCluster(e) && WithName(e, n)[11] == e[11]
    ensures NameOf(WithName(e, n)) == n && Live(WithName(e, n)) && !IsDot(WithName(e, n))
  {
    WithNameFields(e, n);
    GoodNameOwns(WithName(e, n));
  }

  /** The record named n is now named n'; its other fields are the same. */
  ghost predicate Renamed(dirs: Dirs, dirs': Dirs, k: nat, j: nat, n: Name, n': Name) {
    && k in dirs && j < |dirs[k]| && Live(dirs[k][j]) && NameOf(dirs[k][j]) == n
    && dirs' == SetSlot(dirs, k, j, WithName(dirs[k][j], n'))
  }

  /** The record named n went from slot j of k to slot j' of k', unchanged. */
  ghost predicate Moved(dirs: Dirs, dirs': Dirs, k: nat, j: nat, k': nat, j': nat, n: Name) {
    && k in dirs && j < |dirs[k]| && Live(dirs[k][j]) && NameOf(dirs[k][j]) == n
    && k in dirs' && k' in dirs' && j' < |dirs'[k']| && dirs'[k'][j'] == dirs[k][j]
    && dirs'[k] == Put(dirs[k], j, Deleted(dirs[k][j]))
    && dirs'.Keys == dirs.Keys && (forall x :: x in dirs && x != k && x != k' ==> dirs'[x] == dirs[x])
    && k' in dirs && |dirs[k']| <= |dirs'[k']| && (j' < |dirs[k']| ==> !InUse(dirs[k'][j']))
    && (forall i :: 0 <= i < |dirs'[k']| && i != j' ==>
          dirs'[k'][i] == if i < |dirs[k']| then dirs[k'][i] else ZeroEntry())
  }

  lemma MovedShown(dirs0: Dirs, dirs1: Dirs, dirs2: Dirs, k: nat, j: nat, k': nat, j': nat, n: Name)
    requires k in dirs0 && k' in dirs0 && k != k' && j < |dirs0[k]| && Live(dirs0[k][j]) && NameOf(dirs0[k][j]) == n
    requires k in dirs1 && dirs1[k] == dirs0[k] && k' in dirs1 && j' < |dirs1[k']| && !InUse(dirs1[k'][j'])
    requires dirs1 == dirs0 || exists m: nat :: dirs1 == dirs0[k' := Grown(dirs0[k'], m)]
    requires dirs2 == SetSlot(SetSlot(dirs1, k', j', dirs0[k][j]), k, j, Deleted(dirs0[k][j]))
    ensures Moved(dirs0, dirs2, k, j, k', j', n)
  {
    hide Live;
    hide InUse;
    hide Deleted;
    hide ZeroEntry;
  }

  lemma GrewElsewhere(dirs: Dirs, dirs': Dirs, k: nat, k': nat, ch: Chains, ch': Chains)
    requires k in dirs && k in ch && k != k' && ((dirs' == dirs && ch' == ch) || Grew(dirs, dirs', k', ch, ch'))
    ensures k in dirs' && dirs'[k] == dirs[k] && k in ch' && ch'[k] == ch[k]
    ensures dirs' == dirs || (k' in dirs && exists m: nat :: dirs' == dirs[k' := Grown(dirs[k'], m)])
  {
  }

  // ----------------------------------------------------------- writing through a handle

  const NO_SIZE := 0xFFFF_FFFF   // "leave the size alone"

  /** The string of chain f, empty if there is no such chain. */
  ghost function TextOf(g: Geometry, d: Disk, ch: Chains, f: nat): seq<Byte> {
    if Fits(g, d) && f in ch && Clusters(g, ch[f]) then Text(g, d, ch[f]) else []
  }

  lemma TextOfOne(g: Geometry, d: Disk, ch: Chains, c: nat)
    requires Fits(g, d) && c in ch && ch[c] == [c] && 2 <= c < g.Clusters()
    ensures TextOf(g, d, ch, c) == ClusterText(g, d, c)
  {
    hide ClusterText;
    TextOne(g, d, c);
  }

  /** No long-name record carries the bytes of the name. */
  ghost predicate NoShadow(es: seq<Entry>, n: Name) {
    forall i :: 0 <= i < |es| && NameOf(es[i]) == n ==> es[i][11] != ATTR_LONG_NAME
  }

  /** Slot j of directory k is the record of the open file. */
  ghost predicate Bound(dirs: Dirs, k: nat, j: nat, n: Name, first: nat) {
    && k in dirs && j < |dirs[k]| && Live(dirs[k][j]) && NameOf(dirs[k][j]) == n
    && !IsDir(dirs[k][j]) && FirstCluster(dirs[k][j]) == first
    && GoodName(n) && NoShadow(dirs[k], n)
  }

  function UpdatedEntry(e: Entry, c: nat, size: nat): (r: Entry)
    requires c < FAT_MASK && size < 0x1_0000_0000
  {
    if c != 0 && size != NO_SIZE then WithSize(WithCluster(e, c), size)
    else if c != 0 then WithCluster(e, c)
    else if size != NO_SIZE then WithSize(e, size)
    else e
  }

  lemma AttachEntry(e: Entry, c: nat)
    requires 2 <= c < FAT_MASK && Live(e) && GoodName(NameOf(e)) && !IsDir(e)
    ensures var r := UpdatedEntry(e, c, NO_SIZE);
            Owns(r) && FirstCluster(r) == c && NameOf(r) == NameOf(e) && !IsDir(r) && Live(r)
  {
    WithClusterFields(e, c);
    assert WithCluster(e, c)[0] == NameOf(WithCluster(e, c))[0];
    GoodNameOwns(WithCluster(e, c));
  }

  lemma ResizeEntry(e: Entry, n: nat)
    requires n < NO_SIZE && Live(e) && GoodName(NameOf(e))
    ensures var r := UpdatedEntry(e, 0, n);
            FirstCluster(r) == FirstCluster(e) && NameOf(r) == NameOf(e) && r[11] == e[11] && SizeOf(r) == n
            && Live(r) && !IsDot(r) && !IsDot(e) && (IsDir(r) <==> IsDir(e))
  {
    WithSizeFields(e, n);
    GoodNameOwns(e);
    GoodNameOwns(WithSize(e, n));
  }

  lemma StillUnshadowed(es: seq<Entry>, j: nat, e: Entry, n: Name)
    requires j < |es| && NoShadow(es, n) && Live(e)
    ensures NoShadow(Put(es, j, e), n)
  {
  }

  /** The raw scan for the name of a live record finds that record. */
  lemma RawIsLive(es: seq<Entry>, n: Name, stopped: bool, i: nat, j: nat)
    requires DirOk(es) && GoodName(n) && NoShadow(es, n) && j < |es| && Live(es[j]) && NameOf(es[j]) == n
    requires NoStop(ForRaw(n), es, if stopped then i else |es|)
    requires stopped ==> i < |es| && Stops(ForRaw(n), es[i])
    ensures stopped && i == j && es[i][0] != 0
  {
    assert Stops(ForRaw(n), es[j]);
    assert i <= j;
    if es[i][0] != 0 {
      assert es[i][0] == NameOf(es[i])[0];
    }
  }

  lemma BoundSlot(dirs: Dirs, k: nat, j: nat, n: Name, first: nat)
    requires Bound(dirs, k, j, n, first)
    ensures k in dirs && j < |dirs[k]| && FirstCluster(dirs[k][j]) == first
  {
  }

  /** The write reached its place and went past the old size. */
  ghost predicate Extends(text: seq<Byte>, o: nat, o': nat, size: nat) {
    o < |text| && o' > size
  }

  /** The size after a write: never less, and after n > 0 bytes the greater of the old size and
      the end of what was written. */
  lemma ExtendedSize(b: seq<Byte>, text: seq<Byte>, o: nat, s: seq<Byte>, n: nat, size: nat)
    requires Overlaid(b, text, o, s) && n == |s|
    ensures var size' := if Extends(text, o, o + n, size) then o + n else size;
            && size <= size' && (n > 0 ==> size' == if o + n > size then o + n else size)
            && (n == 0 && size' != size ==> size' == o < |text|)
            && (o < |text| ==> o + n <= size')
  {
  }

  /** The two fields that the write-back can change, and all that it leaves. */
  lemma UpdatedFields(e: Entry, c: nat, size: nat)
    requires c < FAT_MASK && size < 0x1_0000_0000
    ensures var r := UpdatedEntry(e, c, size);
            && FirstCluster(r) == (if c != 0 then c else FirstCluster(e))
            && SizeOf(r) == (if size != 0xFFFF_FFFF then size else SizeOf(e))
            && r[..20] == e[..20] && r[22..26] == e[22..26]
  {
    WithClusterFields(e, c);
    WithSizeFields(e, size);
    WithSizeFields(WithCluster(e, c), size);
  }

  lemma WroteSlot(dirs: Dirs, dirs': Dirs, k: nat, j: nat, c: nat, size: nat)
    requires k in dirs && j < |dirs[k]| && c < FAT_MASK && size < 0x1_0000_0000
    requires dirs' == SetSlot(dirs, k, j, UpdatedEntry(dirs[k][j], c, size))
    ensures k in dirs' && j < |dirs'[k]|
    ensures var e, r := dirs[k][j], dirs'[k][j];
            && FirstCluster(r) == (if c != 0 then c else FirstCluster(e))
            && SizeOf(r) == (if size != 0xFFFF_FFFF then size else SizeOf(e))
            && r[..20] == e[..20] && r[22..26] == e[22..26]
  {
    UpdatedFields(dirs[k][j], c, size);
  }

  lemma SameSlot(dirs: Dirs, k: nat, j: nat)
    requires k in dirs && j < |dirs[k]|
    ensures SetSlot(dirs, k, j, UpdatedEntry(dirs[k][j], 0, NO_SIZE)) == dirs
  {
    assert Put(dirs[k], j, dirs[k][j]) == dirs[k];
  }

  /** First cluster, then size: both fields of one record. */
  lemma AttachThenSize(dirs: Dirs, k: nat, j: nat, c: nat, size: nat)
    requires k in dirs && j < |dirs[k]| && 0 < c < FAT_MASK && size < 0x1_0000_0000
    ensures var mid := SetSlot(dirs, k, j, UpdatedEntry(dirs[k][j], c, NO_SIZE));
            SetSlot(mid, k, j, UpdatedEntry(mid[k][j], 0, size))
            == SetSlot(dirs, k, j, UpdatedEntry(dirs[k][j], c, size))
  {
    hide WithSize;
    hide WithCluster;
    var mid := SetSlot(dirs, k, j, UpdatedEntry(dirs[k][j], c, NO_SIZE));
    assert mid[k][j] == UpdatedEntry(dirs[k][j], c, NO_SIZE);
    var e := UpdatedEntry(dirs[k][j], c, size);
    assert UpdatedEntry(mid[k][j], 0, size) == e;
    assert Put(mid[k], j, e) == Put(dirs[k], j, e);
  }

  lemma AttachThenWrite(g: Geometry, d0: Disk, ch0: Chains, d1: Disk, ch1: Chains, d2: Disk, ch2: Chains,
                        k: nat, f: nat, o: nat, s: seq<Byte>)
    requires Kept(g, d0, ch0, d1, ch1, {k}) && Kept(g, d1, ch1, d2, ch2, {k, f}) && f !in ch0
    requires TextOf(g, d1, ch1, f) == Zeros(ClusterSize(g))
    requires Overlaid(TextOf(g, d1, ch1, f), TextOf(g, d2, ch2, f), o, s)
    ensures Kept(g, d0, ch0, d2, ch2, {k, f}) && Overlaid(TextOf(g, d0, ch0, f), TextOf(g, d2, ch2, f), o, s)
  {
    hide Text;
    hide Overlaid;
    KeptMore(g, d0, ch0, d1, ch1, {k}, {k, f});
    KeptThen(g, d0, ch0, d1, ch1, d2, ch2, {k, f}, {k, f});
    OverlaidFromNothing(ClusterSize(g), TextOf(g, d2, ch2, f), o, s);
  }

  lemma NotDotGood(e: Entry)
    requires GoodName(NameOf(e))
    ensures !IsDot(e)
  {
  }

  lemma BoundChain(ch: Chains, dirs: Dirs, root: nat, k: nat, j: nat, n: Name, first: nat)
    requires LinksOk(ch, dirs, root) && Bound(dirs, k, j, n, first) && first != 0
    ensures first in ch && first !in dirs
  {
    hide FirstCluster;
    hide IsDir;
    GoodNameOwns(dirs[k][j]);
    FileChain(ch, dirs, root, k, j);
  }

  lemma MatchWrote(g: Geometry, d: Disk, ch: Chains, d': Disk, ch': Chains, dirs: Dirs, f: nat, o: nat, s: seq<Byte>)
    requires DirsMatch(g, d, ch, dirs) && Wrote(g, d, ch, d', ch', f, o, s) && f !in dirs
    ensures DirsMatch(g, d', ch', dirs) && ch'.Keys == ch.Keys
  {
    hide Text;
    hide Slots;
    hide Overlaid;
    forall k | k in dirs
      ensures k in ch' && ch'[k] == ch[k] && Records(g, d', ch'[k]) == dirs[k]
    {
      assert k != f;
    }
  }

  lemma OverlaidFromNothing(m: nat, b: seq<Byte>, o: nat, s: seq<Byte>)
    requires Overlaid(Zeros(m), b, o, s)
    ensures Overlaid([], b, o, s)
  {
    ZerosAdd(m, |b| - m);
    assert [] + Zeros(|b|) == Zeros(m) + Zeros(|b| - m);
  }

  /** The three parts of `WriteFile` together. */
  lemma WriteFileFrame(g: Geometry, d0: Disk, ch0: Chains, d1: Disk, ch1: Chains, d2: Disk, ch2: Chains, d3: Disk,
                       k: nat, f: nat, o: nat, s: seq<Byte>)
    requires Kept(g, d0, ch0, d1, ch1, {k}) && Wrote(g, d1, ch1, d2, ch2, f, o, s) && Kept(g, d2, ch2, d3, ch2, {k})
    requires f != k && (f in ch0 || TextOf(g, d1, ch1, f) == Zeros(ClusterSize(g)))
    ensures f in ch2 && Kept(g, d0, ch0, d3, ch2, {k, f})
    ensures Overlaid(TextOf(g, d0, ch0, f), TextOf(g, d3, ch2, f), o, s)
    ensures TextOf(g, d3, ch2, f) == TextOf(g, d2, ch2, f)
  {
    hide Text;
    hide Overlaid;
    KeptExtend(g, d1, d2, ch1, ch2, f);
    KeptMore(g, d0, ch0, d1, ch1, {k}, {k, f});
    KeptMore(g, d1, ch1, d2, ch2, {f}, {k, f});
    KeptThen(g, d0, ch0, d1, ch1, d2, ch2, {k, f}, {k, f});
    KeptThen(g, d0, ch0, d2, ch2, d3, ch2, {k, f}, {k});
    assert SameText(g, d2, d3, ch2[f]);
    if f in ch0 {
      assert SameText(g, d0, d1, ch0[f]);
    } else {
      OverlaidFromNothing(ClusterSize(g), Text(g, d2, ch2[f]), o, s);
    }
  }

  /** Write, then read at the same place: the bytes written come back, from either
      reader, since both compute `ReadSpec`. */
  lemma WriteThenRead(b: seq<Byte>, b': seq<Byte>, o: nat, s: seq<Byte>, size: nat)
    requires Overlaid(b, b', o, s) && o + |s| <= size
    ensures ReadSpec(b', size, o, |s|) == s
  {
    if s != [] {
      OverlayRead(b + Zeros(|b'| - |b|), o, s);
      assert b'[o..o + |s|] == s;
    }
  }

  /** ... and bytes of the old string outside the written range are still there. */
  lemma WriteKeepsRest(b: seq<Byte>, b': seq<Byte>, o: nat, s: seq<Byte>, p: nat)
    requires Overlaid(b, b', o, s) && p < |b| && !(o <= p < o + |s|)
    ensures p < |b'| && b'[p] == b[p]
  {
    if s != [] {
      SpliceAt(b + Zeros(|b'| - |b|), o, s, p);
    }
  }

  /** Whatever is read after a write, with the size at least the old one: each position holds the
      byte written there, else the old byte, else, behind the old chain, zero. */
  lemma ReadAfterWrite(b: seq<Byte>, b': seq<Byte>, o: nat, s: seq<Byte>, size: nat, q: nat, len: nat, p: nat)
    requires Overlaid(b, b', o, s) && q <= p < q + len && p < size && p < |b'|
    ensures var out := ReadSpec(b', size, q, len);
            p - q < |out| && out[p - q] == if o <= p < o + |s| then s[p - o] else if p < |b| then b[p] else 0
  {
    if s != [] {
      SpliceAt(b + Zeros(|b'| - |b|), o, s, p);
    }
  }

  /** Every byte that could be read before a write and was not overwritten can be read after it. */
  lemma StillRead(b: seq<Byte>, b': seq<Byte>, o: nat, s: seq<Byte>, size: nat, size': nat, q: nat, len: nat, i: nat)
    requires Overlaid(b, b', o, s) && size <= size' && i < |ReadSpec(b, size, q, len)| && !(o <= q + i < o + |s|)
    ensures i < |ReadSpec(b', size', q, len)| && ReadSpec(b', size', q, len)[i] == ReadSpec(b, size, q, len)[i]
  {
    WriteKeepsRest(b, b', o, s, q + i);
    ReadAfterWrite(b, b', o, s, size', q, len, q + i);
  }

  // ------------------------------------------------------------- names that get lost

  /** A record named n with a cluster of its own owns it iff the name is good. */
  lemma OwnsIffGood(e: Entry)
    requires NameOf(e)[0] != 0 && e[11] != ATTR_LONG_NAME && FirstCluster(e) != 0
    ensures Owns(e) <==> GoodName(NameOf(e))
  {
    assert e[0] == NameOf(e)[0];
  }

  /** Creating a file keeps the volume consistent exactly when the name is good.  With a name
      that begins with the byte of deleted records the new record is dead on arrival; one
      named `.` or `..`, which only the root lets through, is taken for a link of the
      directory itself.  Either way the new cluster belongs to nobody. */
  lemma CreateNeedsName(fat: seq<nat>, ch: Chains, dirs: Dirs, root: nat, k: nat, j: nat, c: nat, n: Name)
    requires TreeOk(fat, ch, dirs, root) && 2 <= c < |fat| && fat[c] == 0
    requires k in dirs && j < |dirs[k]| && Taken(dirs[k], j) && !InUse(dirs[k][j]) && Absent(dirs[k], n)
    requires n[0] != 0
    ensures c < 0x1_0000_0000
    ensures TreeOk(fat[c := EOC], ch[c := [c]], SetSlot(dirs, k, j, NewEntry(n, ATTR_ARCHIVE, c)), root)
            <==> GoodName(n)
  {
    hide Partition;
    hide DirsOk;
    hide NewEntry;
    hide Absent;
    hide Taken;
    hide Live;
    SizeOfFat(fat, ch);
    NewEntryFields(n, ATTR_ARCHIVE, c);
    var e := NewEntry(n, ATTR_ARCHIVE, c);
    OwnsIffGood(e);
    if GoodName(n) {
      NewFileEntry(n, c);
      TreeCreate(fat, ch, dirs, root, k, j, c, e);
    } else {
      UnownedIsLost(fat, ch, dirs, root, k, j, c, e);
    }
  }

  /** So does making a directory. */
  lemma MakeDirNeedsName(fat: seq<nat>, ch: Chains, dirs: Dirs, root: nat, k: nat, j: nat, c: nat, n: Name,
                         es: seq<Entry>)
    requires TreeOk(fat, ch, dirs, root) && 2 <= c < |fat| && fat[c] == 0 && c !in dirs
    requires k in dirs && j < |dirs[k]| && Taken(dirs[k], j) && !InUse(dirs[k][j]) && Absent(dirs[k], n)
    requires n[0] != 0 && DirOk(es) && OwnsNothing(es)
    ensures c < 0x1_0000_0000 && k != c
    ensures TreeOk(fat[c := EOC], ch[c := [c]], SetSlot(dirs[c := es], k, j, NewEntry(n, ATTR_DIRECTORY, c)), root)
            <==> GoodName(n)
  {
    hide Partition;
    hide DirsOk;
    hide NewEntry;
    hide Absent;
    hide Taken;
    hide Live;
    hide OwnsNothing;
    hide DirOk;
    SizeOfFat(fat, ch);
    NewEntryFields(n, ATTR_DIRECTORY, c);
    var e := NewEntry(n, ATTR_DIRECTORY, c);
    OwnsIffGood(e);
    if GoodName(n) {
      NewDirEntry(n, c);
      TreeMakeDir(fat, ch, dirs, root, k, j, c, e, es);
    } else {
      UnownedDirIsLost(fat, ch, dirs, root, k, j, c, e, es);
    }
  }

  /** The record owns a chain after the renaming iff it did before, and a directory has one. */
  predicate RenameSafe(e: Entry, n': Name) {
    if IsDot(e) then !GoodName(n') || (FirstCluster(e) == 0 && !IsDir(e))
    else GoodName(n') || FirstCluster(e) == 0
  }

  /** Renaming keeps it exactly when it neither loses a chain nor, for a `.` or `..` record, takes
      another's. */
  lemma RenameNeedsName(fat: seq<nat>, ch: Chains, dirs: Dirs, root: nat, k: nat, j: nat, n': Name)
    requires TreeOk(fat, ch, dirs, root) && k in dirs && j < |dirs[k]|
    requires Live(dirs[k][j]) && Absent(dirs[k], n') && n'[0] != 0
    ensures TreeOk(fat, ch, SetSlot(dirs, k, j, WithName(dirs[k][j], n')), root) <==> RenameSafe(dirs[k][j], n')
  {
    var e := dirs[k][j];
    var e' := WithName(e, n');
    WithNameFields(e, n');
    if GoodName(n') && !IsDot(e) {
      RenamedEntry(e, n');
      hide WithName;
      hide Live;
      hide IsDot;
      TreeReplace(fat, ch, dirs, root, k, j, e');
    } else if RenameSafe(e, n') {
      RenamedAway(fat, ch, dirs, root, k, j, n');
    } else if IsDot(e) {
      DotRenamed(fat, ch, dirs, root, k, j, n');
    } else {
      OwnsIffGood(e');
      hide WithName;
      hide FirstCluster;
      LostByRename(ch, dirs, root, k, j, e');
    }
  }

  /** A record that owns no chain, before or after, can take any name. */
  lemma RenamedAway(fat: seq<nat>, ch: Chains, dirs: Dirs, root: nat, k: nat, j: nat, n': Name)
    requires TreeOk(fat, ch, dirs, root) && k in dirs && j < |dirs[k]|
    requires Live(dirs[k][j]) && Absent(dirs[k], n') && n'[0] != 0 && RenameSafe(dirs[k][j], n')
    requires IsDot(dirs[k][j]) || !GoodName(n')
    ensures !Owns(dirs[k][j]) && !Owns(WithName(dirs[k][j], n')) && DirOk(Put(dirs[k], j, WithName(dirs[k][j], n')))
    ensures TreeOk(fat, ch, SetSlot(dirs, k, j, WithName(dirs[k][j], n')), root)
  {
    var e' := WithName(dirs[k][j], n');
    WithNameFields(dirs[k][j], n');
    assert !Owns(e') by {
      if FirstCluster(e') != 0 {
        OwnsIffGood(e');
      }
    }
    RenamedDirOk(dirs[k], j, n');
    hide WithName;
    hide Partition;
    hide DirOk;
    hide FirstCluster;
    hide IsDot;
    hide Live;
    TreeRelabel(fat, ch, dirs, root, k, j, e');
  }

  lemma RenamedDirOk(es: seq<Entry>, j: nat, n': Name)
    requires DirOk(es) && j < |es| && Live(es[j]) && Absent(es, n') && n'[0] != 0
    requires GoodName(n') ==> !IsDir(es[j])
    ensures DirOk(Put(es, j, WithName(es[j], n')))
  {
    var e' := WithName(es[j], n');
    WithNameFields(es[j], n');
    assert e'[0] == n'[0] && (IsDir(e') <==> IsDir(es[j]));
    assert Live(e') && !IsDot(e') ==> GoodName(n');
    hide WithName;
    hide FirstCluster;
  }

  /** A `.` or `..` record under another name claims a chain that another record owns, the root's
      or none at all, or is a directory without a chain. */
  lemma DotRenamed(fat: seq<nat>, ch: Chains, dirs: Dirs, root: nat, k: nat, j: nat, n': Name)
    requires TreeOk(fat, ch, dirs, root) && k in dirs && j < |dirs[k]| && Live(dirs[k][j]) && IsDot(dirs[k][j])
    requires GoodName(n') && (FirstCluster(dirs[k][j]) != 0 || IsDir(dirs[k][j]))
    ensures !TreeOk(fat, ch, SetSlot(dirs, k, j, WithName(dirs[k][j], n')), root)
  {
    var e := dirs[k][j];
    var e' := WithName(e, n');
    var dirs' := SetSlot(dirs, k, j, e');
    RenamedEntry(e, n');
    hide WithName;
    hide Partition;
    var c := FirstCluster(e);
    if c == 0 {
      assert dirs'[k][j] == e' && !DirOk(dirs'[k]);
    } else {
      assert Owns(e') && !Owns(e);
      hide Owns;
      hide FirstCluster;
      hide DirsOk;
      hide Live;
      hide IsDot;
      Claimed(ch, dirs, root, k, j, e', c);
    }
  }

  lemma Claimed(ch: Chains, dirs: Dirs, root: nat, k: nat, j: nat, e': Entry, c: nat)
    requires LinksOk(ch, dirs, root) && k in dirs && j < |dirs[k]| && !Owns(dirs[k][j])
    requires Owns(e') && FirstCluster(e') == c
    ensures !LinksOk(ch, SetSlot(dirs, k, j, e'), root)
  {
    hide Owns;
    hide FirstCluster;
    var dirs' := SetSlot(dirs, k, j, e');
    assert Ref(dirs', k, j, c);
    if c in ch && c != root {
      var a, b :| Ref(dirs, a, b, c);
      assert Ref(dirs', a, b, c);
    }
  }

  lemma LostByRename(ch: Chains, dirs: Dirs, root: nat, k: nat, j: nat, e': Entry)
    requires LinksOk(ch, dirs, root) && k in dirs && j < |dirs[k]| && Owns(dirs[k][j]) && !Owns(e')
    ensures !LinksOk(ch, SetSlot(dirs, k, j, e'), root)
  {
    hide Owns;
    hide FirstCluster;
    var c := FirstCluster(dirs[k][j]);
    assert Ref(dirs, k, j, c);
    LinksRemove(ch, dirs, root, k, j, e', c);
  }

  /** A `.` or `..` record named n points into the FAT, and if it is a directory's to a directory:
      it is not stale. */
  ghost predicate DotsKnown(fat: seq<nat>, dirs: Dirs, k: nat, n: Name) {
    k in dirs ==> forall i :: 0 <= i < |dirs[k]| && Live(dirs[k][i]) && NameOf(dirs[k][i]) == n && IsDot(dirs[k][i]) ==>
      DotKnown(fat, dirs, dirs[k][i])
  }

  ghost predicate DotKnown(fat: seq<nat>, dirs: Dirs, e: Entry) {
    var c := FirstCluster(e);
    (c < |fat| || EOC_MIN <= c) && (IsDir(e) && 2 <= c < EOC_MIN ==> c in dirs)
  }

  /** Unlinking name n would free clusters that its record does not own. */
  ghost predicate DotFrees(fat: seq<nat>, es: seq<Entry>, n: Name) {
    exists i ::
      0 <= i < |es| && Live(es[i]) && NameOf(es[i]) == n && IsDot(es[i]) && InUseCluster(fat, FirstCluster(es[i]))
  }

  /** What unlinking record j of directory k, which points to cluster c, may leave of the records. */
  ghost predicate Left(dirs: Dirs, k: nat, j: nat, c: nat, dirs': Dirs) {
    && k in dirs && j < |dirs[k]|
    && var rest := SetSlot(dirs, k, j, Deleted(dirs[k][j])); dirs' == rest || dirs' == Without(rest, c)
  }

  /** The cluster is one that clear_cluster_chain frees. */
  predicate InUseCluster(fat: seq<nat>, c: nat) { 2 <= c < |fat| && fat[c] != 0 }

  /** Unlinking any live record, whatever cluster it points to: some set of chains and records makes
      the volume consistent afterwards iff the record is not `.` or `..`, or frees nothing.  Else
      it frees clusters of the directory itself or of another. */
  lemma UnlinkNeedsName(fat: seq<nat>, ch: Chains, dirs: Dirs, root: nat, k: nat, j: nat, c: nat)
    requires TreeOk(fat, ch, dirs, root) && k in dirs && j < |dirs[k]| && Live(dirs[k][j])
    requires FirstCluster(dirs[k][j]) == c && (c < |fat| || EOC_MIN <= c) && (c in dirs ==> OwnsNothing(dirs[c]))
    ensures InRange(fat) && 2 <= |fat| <= EOC_MIN
    ensures (exists ch': Chains, dirs': Dirs ::
               Left(dirs, k, j, c, dirs') && TreeOk(ClearChain(fat, c), ch', dirs', root))
            <==> !IsDot(dirs[k][j]) || !InUseCluster(fat, c)
  {
    var e := dirs[k][j];
    PartitionInRange(fat, ch);
    if !IsDot(e) && c != 0 {
      assert Ref(dirs, k, j, c);
      HeadInRange(fat, ch, c);
      hide Partition;
      hide LinksOk;
      hide DirsOk;
      OwnedUnlinks(fat, ch, dirs, root, k, j, c);
    } else if !InUseCluster(fat, c) || c == 0 {
      assert !Owns(e) && InUse(e);
      NothingCleared(fat, c);
      TreeUnlinkEmpty(fat, ch, dirs, root, k, j);
      hide TreeOk;
      assert Left(dirs, k, j, c, SetSlot(dirs, k, j, Deleted(e)));
    } else {
      assert !Owns(e);
      hide Owns;
      forall ch': Chains, dirs': Dirs | Left(dirs, k, j, c, dirs')
        ensures !TreeOk(ClearChain(fat, c), ch', dirs', root)
      {
        forall a: nat, b: nat, f: nat | Ref(dirs, a, b, f)
          ensures Ref(dirs', a, b, f)
        {
          StillOwned(dirs, k, j, Deleted(e), a, b, c, f);
        }
        DotUnlinks(fat, ch, dirs, root, c, ch', dirs');
      }
    }
  }

  lemma OwnedUnlinks(fat: seq<nat>, ch: Chains, dirs: Dirs, root: nat, k: nat, j: nat, c: nat)
    requires TreeOk(fat, ch, dirs, root) && Ref(dirs, k, j, c) && (c in dirs ==> OwnsNothing(dirs[c]))
    requires InRange(fat) && 2 <= c < |fat| <= EOC_MIN
    ensures exists ch': Chains, dirs': Dirs ::
              Left(dirs, k, j, c, dirs') && TreeOk(ClearChain(fat, c), ch', dirs', root)
  {
    hide Partition;
    hide LinksOk;
    hide DirsOk;
    TreeUnlink(fat, ch, dirs, root, k, j, c);
    HeadChain(fat, ch, c);
    ClearChainFrees(fat, ch[c]);
    hide TreeOk;
    hide IsChain;
    var dirs' := Without(SetSlot(dirs, k, j, Deleted(dirs[k][j])), c);
    assert Left(dirs, k, j, c, dirs');
  }

  lemma NothingCleared(fat: seq<nat>, c: nat)
    requires InRange(fat) && 2 <= |fat| <= EOC_MIN && (c < |fat| || EOC_MIN <= c) && !InUseCluster(fat, c)
    ensures ClearChain(fat, c) == fat
  {
    if 2 <= c < |fat| {
      assert fat[c := 0] == fat;
      ClearStep(fat, c);
    }
  }

  /** A chain whose owner is still there has lost a cluster. */
  lemma DotUnlinks(fat: seq<nat>, ch: Chains, dirs: Dirs, root: nat, c: nat, ch': Chains, dirs': Dirs)
    requires TreeOk(fat, ch, dirs, root) && InRange(fat) && InUseCluster(fat, c) && |fat| <= EOC_MIN
    requires forall a: nat, b: nat, f: nat :: Ref(dirs, a, b, f) ==> Ref(dirs', a, b, f)
    ensures !TreeOk(ClearChain(fat, c), ch', dirs', root)
  {
    var fat' := ClearChain(fat, c);
    UsedIffOwned(fat, ch, c);
    var f :| f in ch && c in ch[f];
    OnlyCleared(fat, c);
    hide Ref;
    if f != root {
      var a, b :| Ref(dirs, a, b, f);
      assert Ref(dirs', a, b, f);
    }
    if f in ch' {
      CutChain(fat, ch, fat', ch', f, c);
    }
    hide Partition;
    hide DirOk;
  }

  lemma DotUnowned(e: Entry)
    requires Live(e) && IsDot(e)
    ensures InUse(e) && !Owns(e)
  {
  }

  lemma DirsMatched(g: Geometry, d: Disk, ch: Chains, dirs: Dirs, k: nat)
    requires DirsMatch(g, d, ch, dirs) && k in dirs
    ensures k in ch
  {
  }

  /** The outcome for a `.` or `..` record: consistent iff nothing was freed. */
  lemma DotLeaves(fat: seq<nat>, ch: Chains, dirs: Dirs, root: nat, k: nat, j: nat, c: nat, n: Name)
    requires TreeOk(fat, ch, dirs, root) && k in dirs && j < |dirs[k]| && Live(dirs[k][j]) && IsDot(dirs[k][j])
    requires NameOf(dirs[k][j]) == n && FirstCluster(dirs[k][j]) == c && (c < |fat| || EOC_MIN <= c)
    ensures InRange(fat) && 2 <= |fat| <= EOC_MIN && (DotFrees(fat, dirs[k], n) <==> InUseCluster(fat, c))
    ensures TreeOk(ClearChain(fat, c), ch, SetSlot(dirs, k, j, Deleted(dirs[k][j])), root) <==> !InUseCluster(fat, c)
    ensures !InUseCluster(fat, c) ==> ClearChain(fat, c) == fat
  {
    PartitionInRange(fat, ch);
    var e := dirs[k][j];
    DotUnowned(e);
    DotFreesIff(fat, dirs[k], j, n);
    hide Partition;
    hide LinksOk;
    hide DirsOk;
    hide DotFrees;
    hide Owns;
    hide FirstCluster;
    hide Live;
    hide IsDot;
    hide Deleted;
    if InUseCluster(fat, c) {
      RefsStay(dirs, k, j, Deleted(e));
      DotUnlinks(fat, ch, dirs, root, c, ch, SetSlot(dirs, k, j, Deleted(e)));
    } else {
      NothingCleared(fat, c);
      TreeUnlinkEmpty(fat, ch, dirs, root, k, j);
    }
  }

  lemma RefsStay(dirs: Dirs, k: nat, j: nat, e': Entry)
    requires k in dirs && j < |dirs[k]| && !Owns(dirs[k][j])
    ensures forall a: nat, b: nat, f: nat :: Ref(dirs, a, b, f) ==> Ref(SetSlot(dirs, k, j, e'), a, b, f)
  {
    hide Owns;
    hide FirstCluster;
  }

  lemma DotFreesIff(fat: seq<nat>, es: seq<Entry>, j: nat, n: Name)
    requires DirOk(es) && j < |es| && Live(es[j]) && NameOf(es[j]) == n && IsDot(es[j])
    ensures DotFrees(fat, es, n) <==> InUseCluster(fat, FirstCluster(es[j]))
  {
    hide FirstCluster;
    hide Live;
    hide IsDot;
    hide NoUseAfterEnd;
    hide DirsHaveClusters;
  }

  lemma DirKeyRange(fat: seq<nat>, ch: Chains, dirs: Dirs, root: nat, c: nat)
    requires TreeOk(fat, ch, dirs, root)
    ensures c in dirs ==> c in ch && 2 <= c < |fat| <= EOC_MIN
  {
    if c in dirs {
      HeadInRange(fat, ch, c);
    }
  }

  lemma NoDotNamed(fat: seq<nat>, es: seq<Entry>, j: nat, n: Name)
    requires j < |es| && NameOf(es[j]) == n && !IsDot(es[j])
    ensures !DotFrees(fat, es, n)
  {
  }

  lemma OnlyCleared(fat: seq<nat>, c: nat)
    requires InRange(fat) && 2 <= c < |fat| <= EOC_MIN
    ensures ClearChain(fat, c)[c] == 0
    ensures forall x :: 0 <= x < |fat| && ClearChain(fat, c)[x] != fat[x] ==> ClearChain(fat, c)[x] == 0
  {
    ClearChainAllReached(fat, c, 0);
    forall x | 0 <= x < |fat| && ClearChain(fat, c)[x] != fat[x]
      ensures ClearChain(fat, c)[x] == 0
    {
      var n := ClearChainOnlyReached(fat, c, x);
    }
  }

  lemma HeadChain(fat: seq<nat>, ch: Chains, f: nat)
    requires Partition(fat, ch) && f in ch
    ensures IsChain(fat, ch[f]) && ch[f][0] == f && |fat| <= EOC_MIN
  {
  }

  lemma CutChain(fat: seq<nat>, ch: Chains, fat': seq<nat>, ch': Chains, f: nat, c: nat)
    requires Partition(fat, ch) && f in ch && c in ch[f] && f in ch' && |fat'| == |fat|
    requires c < |fat'| && fat'[c] == 0 && forall x :: 0 <= x < |fat| && fat'[x] != fat[x] ==> fat'[x] == 0
    ensures !Partition(fat', ch')
  {
    hide Partition;
    if Partition(fat', ch') {
      var m: nat :| m < |ch[f]| && ch[f][m] == c;
      HeadChain(fat, ch, f);
      HeadChain(fat', ch', f);
      hide IsChain;
      SamePrefix(fat, ch[f], fat', ch'[f], m);
      OwnedIsUsed(fat', ch'[f], c);
    }
  }

  lemma {:induction false} SamePrefix(fat: seq<nat>, cs: seq<nat>, fat': seq<nat>, cs': seq<nat>, m: nat)
    requires IsChain(fat, cs) && IsChain(fat', cs') && cs[0] == cs'[0] && m < |cs| && |fat'| == |fat| <= EOC_MIN
    requires forall x :: 0 <= x < |fat| && fat'[x] != fat[x] ==> fat'[x] == 0
    ensures m < |cs'| && cs'[m] == cs[m]
    decreases m
  {
    if m > 0 {
      SamePrefix(fat, cs, fat', cs', m - 1);
      assert fat[cs[m - 1]] == cs[m - 1 + 1];
      OwnedIsUsed(fat', cs', cs'[m - 1]);
      assert fat'[cs'[m - 1]] == cs[m];
      assert m - 1 < |cs'| - 1 ==> fat'[cs'[m - 1]] == cs'[m - 1 + 1];
    }
  }

  lemma StillOwned(dirs: Dirs, k: nat, j: nat, e': Entry, a: nat, b: nat, c: nat, f: nat)
    requires k in dirs && j < |dirs[k]| && !Owns(dirs[k][j]) && Ref(dirs, a, b, f)
    requires c in dirs ==> OwnsNothing(dirs[c])
    ensures Ref(SetSlot(dirs, k, j, e'), a, b, f) && Ref(Without(SetSlot(dirs, k, j, e'), c), a, b, f)
  {
    hide Owns;
    hide FirstCluster;
  }

  lemma SizeOfFat(fat: seq<nat>, ch: Chains)
    requires Partition(fat, ch)
    ensures |fat| <= EOC_MIN
  {
  }

  lemma UnownedIsLost(fat: seq<nat>, ch: Chains, dirs: Dirs, root: nat, k: nat, j: nat, c: nat, e: Entry)
    requires TreeOk(fat, ch, dirs, root) && 2 <= c < |fat| && fat[c] == 0 && k in dirs && j < |dirs[k]|
    requires !Owns(e)
    ensures !LinksOk(ch[c := [c]], SetSlot(dirs, k, j, e), root)
  {
    PartitionAlloc(fat, ch, c);
    hide Partition;
    hide DirOk;
    hide Owns;
    hide FirstCluster;
    hide SetSlot;
    RefAfter(dirs, k, j, e);
    var dirs' := SetSlot(dirs, k, j, e);
    assert !Referenced(dirs', c);
  }

  lemma UnownedDirIsLost(fat: seq<nat>, ch: Chains, dirs: Dirs, root: nat, k: nat, j: nat, c: nat, e: Entry,
                         es: seq<Entry>)
    requires TreeOk(fat, ch, dirs, root) && 2 <= c < |fat| && fat[c] == 0 && k in dirs && j < |dirs[k]| && c !in dirs
    requires !Owns(e) && OwnsNothing(es)
    ensures !LinksOk(ch[c := [c]], SetSlot(dirs[c := es], k, j, e), root)
  {
    PartitionAlloc(fat, ch, c);
    hide Partition;
    hide DirOk;
    hide Owns;
    hide FirstCluster;
    var mid := dirs[c := es];
    assert forall x: nat, y: nat, z: nat :: Ref(mid, x, y, z) ==> Ref(dirs, x, y, z);
    hide SetSlot;
    RefAfter(mid, k, j, e);
    assert !Referenced(SetSlot(mid, k, j, e), c);
  }

  // ------------------------------------------------------------- other files, by name

  /** When only slot j of k changed and only the chains of k and of its file were written, a
      file under any other record is still there, by name and by content. */
  lemma OtherFilesSame(g: Geometry, d: Disk, ch: Chains, dirs: Dirs, d': Disk, ch': Chains, dirs': Dirs, root: nat,
                       k: nat, j: nat, f: nat, x: nat, i: nat)
    requires LinksOk(ch, dirs, root) && Kept(g, d, ch, d', ch', {k, f}) && k in dirs && j < |dirs[k]|
    requires k in dirs' && j < |dirs'[k]| && dirs' == SetSlot(dirs, k, j, dirs'[k][j])
    requires f in ch ==> Ref(dirs, k, j, f)
    requires x in dirs && i < |dirs[x]| && (x != k || i != j) && Owns(dirs[x][i]) && !IsDir(dirs[x][i])
    ensures x in dirs' && i < |dirs'[x]| && dirs'[x][i] == dirs[x][i]
    ensures var c := FirstCluster(dirs[x][i]);
            c in ch && c in ch' && ch'[c] == ch[c]
            && (Clusters(g, ch[c]) ==> Text(g, d', ch[c]) == Text(g, d, ch[c]))
  {
    hide Owns;
    hide FirstCluster;
    hide IsDir;
    hide Text;
    var c := FirstCluster(dirs[x][i]);
    assert Ref(dirs, x, i, c);
    assert c in ch && c != f && c !in dirs;
  }

  /** The same after a record was added. */
  lemma OtherFilesStay(g: Geometry, d: Disk, ch: Chains, dirs: Dirs, d': Disk, ch': Chains, dirs': Dirs, root: nat,
                       k: nat, j: nat, e: Entry, x: nat, i: nat)
    requires LinksOk(ch, dirs, root) && Kept(g, d, ch, d', ch', {k}) && Inserted(dirs, dirs', k, j, e)
    requires x in dirs && i < |dirs[x]| && Owns(dirs[x][i]) && !IsDir(dirs[x][i])
    ensures x in dirs' && i < |dirs'[x]| && dirs'[x][i] == dirs[x][i]
    ensures var c := FirstCluster(dirs[x][i]);
            c in ch && c in ch' && ch'[c] == ch[c]
            && (Clusters(g, ch[c]) ==> Text(g, d', ch[c]) == Text(g, d, ch[c]))
  {
    OwnsLive(dirs[x][i]);
    hide Owns;
    hide FirstCluster;
    hide IsDir;
    hide Text;
    hide InUse;
    hide ZeroEntry;
    var c := FirstCluster(dirs[x][i]);
    assert Ref(dirs, x, i, c);
    assert c in ch && c !in dirs;
  }

  // ----------------------------------------------------------------- mv loses nothing

  /** What mv must preserve of a record. */
  datatype Payload = Payload(cluster: nat, size: nat, attr: Byte)

  function PayloadOf(e: Entry): Payload {
    Payload(FirstCluster(e), SizeOf(e), e[11])
  }

  /** Record j of k is live and has payload x. */
  ghost predicate Holds(dirs: Dirs, k: nat, j: nat, x: Payload) {
    k in dirs && j < |dirs[k]| && Live(dirs[k][j]) && PayloadOf(dirs[k][j]) == x
  }

  /** The live records with payload x. */
  ghost function Holders(dirs: Dirs, x: Payload): set<(nat, nat)> {
    set k: nat, j: nat | k in dirs && 0 <= j < |dirs[k]| && Holds(dirs, k, j, x) :: (k, j)
  }

  lemma HoldsAfterMove(dirs: Dirs, dirs': Dirs, k: nat, j: nat, k': nat, j': nat, n: Name, x: Payload, a: nat, b: nat)
    requires Moved(dirs, dirs', k, j, k', j', n) && k != k'
    ensures Holds(dirs', a, b, x) <==>
            if a == k && b == j then false
            else if a == k' && b == j' then PayloadOf(dirs[k][j]) == x
            else Holds(dirs, a, b, x)
  {
    DeletedOwnsNothing(dirs[k][j]);
    FreeOwnsNothing(ZeroEntry());
    hide PayloadOf;
    hide Deleted;
    hide ZeroEntry;
  }

  /** Moving a record changes where each payload is held, not how often. */
  lemma MoveKeepsPayloads(dirs: Dirs, dirs': Dirs, k: nat, j: nat, k': nat, j': nat, n: Name, x: Payload)
    requires Moved(dirs, dirs', k, j, k', j', n) && k != k'
    ensures |Holders(dirs', x)| == |Holders(dirs, x)|
  {
    hide Moved;
    hide Holds;
    var s, s' := Holders(dirs, x), Holders(dirs', x);
    MovedEnds(dirs, dirs', k, j, k', j', n, x);
    var t := if (k, j) in s then s - {(k, j)} + {(k', j')} else s;
    forall a: nat, b: nat
      ensures (a, b) in s' <==> (a, b) in t
    {
      HoldsAfterMove(dirs, dirs', k, j, k', j', n, x, a, b);
      HoldsIsIn(dirs, x, a, b);
      HoldsIsIn(dirs', x, a, b);
    }
    assert s' == t;
  }

  lemma HoldsIsIn(dirs: Dirs, x: Payload, a: nat, b: nat)
    ensures (a, b) in Holders(dirs, x) <==> Holds(dirs, a, b, x)
  {
  }

  lemma MovedEnds(dirs: Dirs, dirs': Dirs, k: nat, j: nat, k': nat, j': nat, n: Name, x: Payload)
    requires Moved(dirs, dirs', k, j, k', j', n)
    ensures k in dirs && j < |dirs[k]| && ((k, j) in Holders(dirs, x) <==> PayloadOf(dirs[k][j]) == x)
    ensures (k', j') !in Holders(dirs, x)
  {
    hide PayloadOf;
    HoldsIsIn(dirs, x, k, j);
    HoldsIsIn(dirs, x, k', j');
  }

  /** Renaming leaves every payload where it is, unless the new name begins with the byte of
      deleted records: then the record's own payload, and no other, is lost. */
  lemma RenameKeepsPayloads(dirs: Dirs, dirs': Dirs, k: nat, j: nat, n: Name, n': Name, x: Payload)
    requires Renamed(dirs, dirs', k, j, n, n') && n'[0] != 0
    ensures Holders(dirs', x) == if n'[0] != DELETED || PayloadOf(dirs[k][j]) != x then Holders(dirs, x)
                                 else Holders(dirs, x) - {(k, j)}
    ensures Holders(dirs', x) == Holders(dirs, x) <==> n'[0] != DELETED || PayloadOf(dirs[k][j]) != x
  {
    var e := dirs[k][j];
    WithNameFields(e, n');
    assert PayloadOf(WithName(e, n')) == PayloadOf(e);
    assert WithName(e, n')[0] == n'[0] && (Live(WithName(e, n')) <==> n'[0] != DELETED);
    HoldsIsIn(dirs, x, k, j);
    hide PayloadOf;
    hide WithName;
    hide Live;
  }

  // ----------------------------------------------------------- calls as abstract steps

  /** Growing a directory is one step of the abstract volume and takes one cluster. */
  lemma GrowStep(g: Geometry, d: Disk, d': Disk, ch: Chains, dirs: Dirs, k: nat, c: nat)
    requires Fits(g, d) && Fits(g, d') && Partition(Fat(g, d), ch) && k in ch && k in dirs && |ch[k]| > 0
    requires Linked(g, d, d', ch[k][|ch[k]| - 1], c)
    ensures |FreeClusters(Fat(g, d'))| + 1 == |FreeClusters(Fat(g, d))|
    ensures Grew(dirs, dirs[k := Grown(dirs[k], SLOTS * g.spc)], k, ch, ch[k := ch[k] + [c]])
    ensures FatRun.Reaches(FatRun.Vol(Fat(g, d), ch, dirs, g.root),
                           FatRun.Vol(Fat(g, d'), ch[k := ch[k] + [c]], dirs[k := Grown(dirs[k], SLOTS * g.spc)],
                                      g.root))
  {
    hide TouchesOnly;
    hide ClusterText;
    hide FatRun.Reaches;
    hide Grown;
    var fat, fat', last := Fat(g, d), Fat(g, d'), ch[k][|ch[k]| - 1];
    OwnedIsUsed(fat, ch[k], last);
    LinkTakes(fat, last, c);
    hide Partition;
    hide FreeClusters;
    var v := FatRun.Vol(fat, ch, dirs, g.root);
    var v' := FatRun.Vol(fat', ch[k := ch[k] + [c]], dirs[k := Grown(dirs[k], SLOTS * g.spc)], g.root);
    assert FatRun.Allocates(v, FatRun.GrowDir(k, c, SLOTS * g.spc), v');
    FatRun.ReachSame(v);
    FatRun.ReachStep(v, v, FatRun.GrowDir(k, c, SLOTS * g.spc), v');
  }

  lemma CreateStep(v0: FatRun.Vol, v: FatRun.Vol, k: nat, j: nat, c: nat, n: Name, v': FatRun.Vol)
    requires FatRun.Reaches(v0, v) && 2 <= c < |v.fat| <= EOC_MIN && v.fat[c] == 0 && GoodName(n)
    requires FatRun.FreeSlot(v, k, j) && Absent(v.dirs[k], n)
    requires v' == v.(fat := v.fat[c := EOC], ch := v.ch[c := [c]],
                      dirs := SetSlot(v.dirs, k, j, NewEntry(n, ATTR_ARCHIVE, c)))
    ensures FatRun.Reaches(v0, v')
  {
    NewFileEntry(n, c);
    hide FatRun.Reaches;
    hide NewEntry;
    hide Owns;
    hide IsDir;
    hide Absent;
    hide FirstCluster;
    var e := NewEntry(n, ATTR_ARCHIVE, c);
    assert FatRun.Allocates(v, FatRun.Create(k, j, c, e), v');
    FatRun.ReachStep(v0, v, FatRun.Create(k, j, c, e), v');
  }

  lemma MakeDirStep(g: Geometry, v0: FatRun.Vol, v: FatRun.Vol, k: nat, j: nat, c: nat, n: Name, v': FatRun.Vol)
    requires FatRun.Reaches(v0, v) && 2 <= c < |v.fat| <= EOC_MIN && v.fat[c] == 0 && GoodName(n) && c !in v.dirs
    requires FatRun.FreeSlot(v, k, j) && Absent(v.dirs[k], n) && ParentOf(g, k) < FAT_MASK
    requires v' == v.(fat := v.fat[c := EOC], ch := v.ch[c := [c]],
                      dirs := SetSlot(v.dirs[c := NewDirRecords(g, c, ParentOf(g, k))], k, j,
                                      NewEntry(n, ATTR_DIRECTORY, c)))
    ensures FatRun.Reaches(v0, v')
  {
    NewDirEntry(n, c);
    NewDirOk(g, c, ParentOf(g, k));
    hide FatRun.Reaches;
    hide NewEntry;
    hide NewDirRecords;
    hide Owns;
    hide IsDir;
    hide Absent;
    hide FirstCluster;
    hide DirOk;
    hide OwnsNothing;
    var e, es := NewEntry(n, ATTR_DIRECTORY, c), NewDirRecords(g, c, ParentOf(g, k));
    assert FatRun.Allocates(v, FatRun.MakeDir(k, j, c, e, es), v');
    FatRun.ReachStep(v0, v, FatRun.MakeDir(k, j, c, e, es), v');
  }

  lemma AttachStep(v0: FatRun.Vol, v: FatRun.Vol, k: nat, j: nat, c: nat, e: Entry, v': FatRun.Vol)
    requires FatRun.Reaches(v0, v) && 2 <= c < |v.fat| && v.fat[c] == 0 && FatRun.LiveSlot(v, k, j)
    requires FirstCluster(v.dirs[k][j]) == 0 && !IsDir(v.dirs[k][j])
    requires Owns(e) && FirstCluster(e) == c && NameOf(e) == NameOf(v.dirs[k][j]) && !IsDir(e)
    requires v' == v.(fat := v.fat[c := EOC], ch := v.ch[c := [c]], dirs := SetSlot(v.dirs, k, j, e))
    ensures FatRun.Reaches(v0, v')
  {
    hide FatRun.Reaches;
    hide Owns;
    hide IsDir;
    hide FirstCluster;
    hide FatRun.LiveSlot;
    assert FatRun.Allocates(v, FatRun.Attach(k, j, c, e), v');
    FatRun.ReachStep(v0, v, FatRun.Attach(k, j, c, e), v');
  }

  lemma RelabelStep(v0: FatRun.Vol, v: FatRun.Vol, k: nat, j: nat, e: Entry, v': FatRun.Vol)
    requires FatRun.Reaches(v0, v) && FatRun.LiveRecord(v, k, j) && !Owns(v.dirs[k][j]) && !Owns(e)
    requires DirOk(Put(v.dirs[k], j, e)) && v' == v.(dirs := SetSlot(v.dirs, k, j, e))
    ensures FatRun.Reaches(v0, v')
  {
    hide FatRun.Reaches;
    hide Live;
    hide Owns;
    hide DirOk;
    assert FatRun.Changes(v, FatRun.Relabel(k, j, e), v');
    FatRun.ReachStep(v0, v, FatRun.Relabel(k, j, e), v');
  }

  lemma UpdateStep(v0: FatRun.Vol, v: FatRun.Vol, k: nat, j: nat, e: Entry, v': FatRun.Vol)
    requires FatRun.Reaches(v0, v) && FatRun.LiveSlot(v, k, j) && Live(e) && !IsDot(e)
    requires FirstCluster(e) == FirstCluster(v.dirs[k][j]) && e[11] == v.dirs[k][j][11]
    requires NameOf(e) == NameOf(v.dirs[k][j]) || Absent(v.dirs[k], NameOf(e))
    requires v' == v.(dirs := SetSlot(v.dirs, k, j, e))
    ensures FatRun.Reaches(v0, v')
  {
    hide FatRun.Reaches;
    hide Live;
    hide IsDot;
    hide FirstCluster;
    hide Absent;
    assert FatRun.Changes(v, FatRun.Update(k, j, e), v');
    FatRun.ReachStep(v0, v, FatRun.Update(k, j, e), v');
  }

  lemma ResizeStep(v0: FatRun.Vol, v: FatRun.Vol, k: nat, j: nat, v': FatRun.Vol)
    requires FatRun.Reaches(v0, v) && FatRun.LiveSlot(v, k, j)
    requires v' == v.(dirs := SetSlot(v.dirs, k, j, WithSize(v.dirs[k][j], 0)))
    ensures FatRun.Reaches(v0, v')
  {
    ResizedEntry(v.dirs[k][j], 0);
    hide WithSize;
    hide Live;
    hide IsDot;
    hide FirstCluster;
    UpdateStep(v0, v, k, j, WithSize(v.dirs[k][j], 0), v');
  }

  lemma TruncateStep(v: FatRun.Vol, k: nat, v': FatRun.Vol)
    requires k in v.ch && k < |v.fat| && |v.ch[k]| > 0
    requires v' == v.(fat := Freed(v.fat[k := EOC], Elements(v.ch[k][1..])), ch := v.ch[k := [k]])
    ensures FatRun.Reaches(v, v')
  {
    hide FatRun.Reaches;
    assert FatRun.Changes(v, FatRun.Truncate(k), v');
    FatRun.ReachSame(v);
    FatRun.ReachStep(v, v, FatRun.Truncate(k), v');
  }

  lemma UnlinkStep(v: FatRun.Vol, k: nat, j: nat, c: nat, v': FatRun.Vol)
    requires Ref(v.dirs, k, j, c) && (c in v.dirs ==> OwnsNothing(v.dirs[c])) && c in v.ch
    requires v' == v.(fat := Freed(v.fat, Elements(v.ch[c])), ch := Removed(v.ch, c),
                      dirs := Without(SetSlot(v.dirs, k, j, Deleted(v.dirs[k][j])), c))
    ensures FatRun.Reaches(v, v')
  {
    hide FatRun.Reaches;
    hide OwnsNothing;
    hide Owns;
    hide FirstCluster;
    assert FatRun.Changes(v, FatRun.Unlink(k, j, c), v');
    FatRun.ReachSame(v);
    FatRun.ReachStep(v, v, FatRun.Unlink(k, j, c), v');
  }

  lemma UnlinkEmptyStep(v: FatRun.Vol, k: nat, j: nat, v': FatRun.Vol)
    requires k in v.dirs && j < |v.dirs[k]| && InUse(v.dirs[k][j]) && !Owns(v.dirs[k][j])
    requires v' == v.(dirs := SetSlot(v.dirs, k, j, Deleted(v.dirs[k][j])))
    ensures FatRun.Reaches(v, v')
  {
    hide FatRun.Reaches;
    hide InUse;
    hide Owns;
    assert FatRun.Changes(v, FatRun.UnlinkEmpty(k, j), v');
    FatRun.ReachSame(v);
    FatRun.ReachStep(v, v, FatRun.UnlinkEmpty(k, j), v');
  }

  lemma MoveStep(v0: FatRun.Vol, v: FatRun.Vol, k: nat, j: nat, k': nat, j': nat, v': FatRun.Vol)
    requires FatRun.Reaches(v0, v) && FatRun.LiveRecord(v, k, j) && FatRun.FreeSlot(v, k', j') && k != k'
    requires Absent(v.dirs[k'], NameOf(v.dirs[k][j]))
    requires v' == v.(dirs := SetSlot(SetSlot(v.dirs, k', j', v.dirs[k][j]), k, j, Deleted(v.dirs[k][j])))
    ensures FatRun.Reaches(v0, v')
  {
    hide FatRun.Reaches;
    hide Live;
    hide InUse;
    hide IsDot;
    hide Absent;
    hide Taken;
    assert FatRun.Changes(v, FatRun.Move(k, j, k', j'), v');
    FatRun.ReachStep(v0, v, FatRun.Move(k, j, k', j'), v');
  }
}
