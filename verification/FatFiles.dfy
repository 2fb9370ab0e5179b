/**
  The file-system calls of kernelspace/fs/fs.c on directories: lookup, create,
  truncate, mkdir, unlink and mv, each of which keeps the whole-volume invariant.
  Directories are named by their first cluster; path resolution is not modelled.
 */
module FatFiles {
  import opened FatDisk
  import opened FatChain
  import opened FatPartition
  import opened FatBytes
  import opened FatData
  import opened FatClear
  import opened FatWrite
  import opened FatVolume
  import opened FatEntry
  import opened FatTree
  import opened FatScan
  import opened FatMatch
  import FatRun

  /** An open file (`file_t`): the fields the file calls use. */
  class File {
    const name: Name
    var first: nat
    var size: nat
    var offset: nat

    constructor (name: Name, first: nat, size: nat)
      ensures this.name == name && this.first == first && this.size == size && offset == 0
    {
      this.name, this.first, this.size, offset := name, first, size, 0;
    }
  }

  class FileSystem {
    const vol: Volume
    /** The records of every directory, by the directory's first cluster. */
    ghost var dirs: Dirs

    ghost predicate Matched()
      reads this, vol
    {
      vol.Valid() && DirsMatch(vol.g, vol.d, vol.chains, dirs)
    }

    /** The whole-volume invariant. */
    ghost predicate Valid()
      reads this, vol
    {
      Matched() && TreeOk(Fat(vol.g, vol.d), vol.chains, dirs, vol.g.root)
    }

    /** The abstract volume that the runs of FatRun are about. */
    ghost function Abs(): FatRun.Vol
      requires Matched()
      reads this, vol
    {
      FatRun.Vol(Fat(vol.g, vol.d), vol.chains, dirs, vol.g.root)
    }

    /** How many clusters are free. */
    ghost function Room(): nat
      requires Matched()
      reads this, vol
    {
      |FreeClusters(Fat(vol.g, vol.d))|
    }

    constructor (v: Volume, ghost dirs: Dirs)
      requires v.Valid() && DirsMatch(v.g, v.d, v.chains, dirs) && TreeOk(Fat(v.g, v.d), v.chains, dirs, v.g.root)
      ensures Valid() && this.vol == v && this.dirs == dirs
    {
      hide Partition;
      hide DirsMatch;
      hide TreeOk;
      this.vol, this.dirs := v, dirs;
    }

    /** One record in its sector, whatever the FAT says. */
    method PutRecord(p: Place, e: Entry, ghost k: nat, ghost j: nat)
      requires Fits(vol.g, vol.d) && DirsMatch(vol.g, vol.d, vol.chains, dirs) && k in dirs
      requires At(vol.g, vol.chains[k], p, j) && Distinct(vol.chains[k]) && Disjoint(vol.chains)
      modifies this, vol`d
      ensures Fits(vol.g, vol.d) && DirsMatch(vol.g, vol.d, vol.chains, dirs)
      ensures Fat(vol.g, vol.d) == old(Fat(vol.g, vol.d))
      ensures j < |old(dirs)[k]| && dirs == SetSlot(old(dirs), k, j, e)
      ensures Kept(vol.g, old(vol.d), vol.chains, vol.d, vol.chains, {k})
    {
      hide Records;
      hide ClusterText;
      hide TouchesOnly;
      hide OthersSame;
      hide SetSlot;
      ghost var d0 := vol.d;
      ghost var ci :| 0 <= ci < |vol.chains[k]| && PlaceOf(vol.g, vol.chains[k], p, ci, j);
      vol.WriteSector(p.c, p.s, ENTRY_SIZE * p.i, e);
      MatchRecordWrite(vol.g, d0, vol.d, vol.chains, dirs, k, ci, p, j, e);
      KeptOthers(vol.g, d0, vol.d, vol.chains, k);
      dirs := SetSlot(dirs, k, j, e);
    }

    /** Read the sector, replace one record, write it back. */
    method WriteRecord(p: Place, e: Entry, ghost k: nat, ghost j: nat)
      requires Matched() && k in dirs && At(vol.g, vol.chains[k], p, j)
      modifies this, vol`d
      ensures Matched() && Fat(vol.g, vol.d) == old(Fat(vol.g, vol.d))
      ensures j < |old(dirs)[k]| && dirs == SetSlot(old(dirs), k, j, e)
      ensures Kept(vol.g, old(vol.d), vol.chains, vol.d, vol.chains, {k})
    {
      hide Partition;
      hide DirsMatch;
      hide SetSlot;
      hide Kept;
      DirsMatched(vol.g, vol.d, vol.chains, dirs, k);
      ChainClusters(vol.g, vol.d, vol.chains, k);
      PartitionDisjoint(Fat(vol.g, vol.d), vol.chains);
      PutRecord(p, e, k, j);
    }

    /** `find_dir_entry`: exact on a consistent volume. */
    method Lookup(k: nat, n: Name) returns (found: bool, p: Place, e: Entry, ghost j: nat)
      requires Valid() && k in dirs
      ensures found ==> At(vol.g, vol.chains[k], p, j) && j < |dirs[k]| && e == dirs[k][j] && Live(e) && NameOf(e) == n
      ensures found <==> exists i :: 0 <= i < |dirs[k]| && Live(dirs[k][i]) && NameOf(dirs[k][i]) == n
      ensures !found <==> Absent(dirs[k], n)
    {
      hide Partition;
      hide Records;
      hide Live;
      hide NoStop;
      hide Stops;
      hide DirOk;
      hide LinksOk;
      ChainClusters(vol.g, vol.d, vol.chains, k);
      var stopped, last;
      stopped, p, e, last, j := ScanDir(vol, k, ForName(n), vol.chains[k]);
      found := stopped && e[0] != 0;
      LookupExact(dirs[k], n, stopped, j);
    }

    /** A full directory grows by one zeroed cluster, if one is free. */
    method GrowDirectory(k: nat, last: nat) returns (ok: bool, p: Place, ghost j: nat)
      requires Valid() && k in dirs && !HasSlot(dirs[k]) && Taken(dirs[k], |dirs[k]|)
      requires k in vol.chains && |vol.chains[k]| > 0 && last == vol.chains[k][|vol.chains[k]| - 1]
      modifies this, vol
      ensures Valid() && k in dirs
      ensures ok <==> old(Room()) > 0
      ensures !ok ==> dirs == old(dirs) && vol.chains == old(vol.chains) && vol.d == old(vol.d)
      ensures ok ==> Grew(old(dirs), dirs, k, old(vol.chains), vol.chains) && Room() + 1 == old(Room())
      ensures vol.chains.Keys == old(vol.chains).Keys && dirs.Keys == old(dirs).Keys
      ensures ok ==> At(vol.g, vol.chains[k], p, j) && j < |dirs[k]| && Taken(dirs[k], j) && !InUse(dirs[k][j])
      ensures Kept(vol.g, old(vol.d), old(vol.chains), vol.d, vol.chains, {k})
      ensures FatRun.Reaches(old(Abs()), Abs())
    {
      hide Partition;
      hide Kept;
      hide Records;
      hide Stops;
      hide NoStop;
      hide InUse;
      hide LinksOk;
      hide OthersSame;
      hide LinkFat;
      hide Grew;
      hide HasSlot;
      hide Taken;
      hide FreeClusters;
      hide DirsMatch;
      hide DirsOk;
      hide FatRun.Reaches;
      ChainClusters(vol.g, vol.d, vol.chains, k);
      KeptSame(vol.g, vol.d, vol.chains, {k});
      FatRun.ReachSame(Abs());
      ghost var d0, ch0, es := vol.d, vol.chains, dirs[k];
      ok, p, j := false, Place(0, 0, 0), 0;
      var c := vol.LinkNewCluster(last);
      if c != 0 {
        GrowVolume(vol.g, d0, vol.d, ch0, dirs, k, c);
        GrowStep(vol.g, d0, vol.d, ch0, dirs, k, c);
        hide Linked;
        KeptExtend(vol.g, d0, vol.d, ch0, ch0[k := ch0[k] + [c]], k);
        vol.chains := ch0[k := ch0[k] + [c]];
        dirs := dirs[k := Grown(es, SLOTS * vol.g.spc)];
        ok, p, j := true, Place(c, 0, 0), |es|;
        assert PlaceOf(vol.g, vol.chains[k], p, |ch0[k]|, j);
        GrownFree(es, SLOTS * vol.g.spc);
      }
    }

    /** `find_free_dir_entry`: the first free record; a full directory grows first.  It fails
        iff every slot is taken and no cluster is free. */
    method FindFreeDirEntry(k: nat) returns (ok: bool, p: Place, ghost j: nat)
      requires Valid() && k in dirs
      modifies this, vol
      ensures Valid() && k in dirs
      ensures ok <==> HasSlot(old(dirs)[k]) || old(Room()) > 0
      ensures !ok || HasSlot(old(dirs)[k]) ==> dirs == old(dirs) && vol.chains == old(vol.chains) && vol.d == old(vol.d)
      ensures ok && !HasSlot(old(dirs)[k]) ==>
                Grew(old(dirs), dirs, k, old(vol.chains), vol.chains) && Room() + 1 == old(Room())
      ensures vol.chains.Keys == old(vol.chains).Keys && dirs.Keys == old(dirs).Keys
      ensures ok ==> At(vol.g, vol.chains[k], p, j) && j < |dirs[k]| && Taken(dirs[k], j) && !InUse(dirs[k][j])
      ensures Kept(vol.g, old(vol.d), old(vol.chains), vol.d, vol.chains, {k})
      ensures FatRun.Reaches(old(Abs()), Abs())
    {
      hide Partition;
      hide Kept;
      hide Records;
      hide Stops;
      hide NoStop;
      hide InUse;
      hide LinksOk;
      hide OthersSame;
      hide LinkFat;
      hide Grew;
      hide HasSlot;
      hide Taken;
      hide FreeClusters;
      hide FatRun.Reaches;
      ChainClusters(vol.g, vol.d, vol.chains, k);
      KeptSame(vol.g, vol.d, vol.chains, {k});
      FatRun.ReachSame(Abs());
      ghost var es := dirs[k];
      var e, last;
      ok, p, e, last, j := ScanDir(vol, k, ForFree, vol.chains[k]);
      FreeScan(es, ok, j);
      if !ok {
        ok, p, j := GrowDirectory(k, last);
      }
    }

    /** `alloc_cluster` as the start of a new chain. */
    method NewChain() returns (c: nat)
      requires Matched()
      modifies vol
      ensures Matched()
      ensures c == 0 <==> old(Room()) == 0
      ensures c == 0 ==> vol.d == old(vol.d) && vol.chains == old(vol.chains)
      ensures c != 0 ==> 2 <= c < vol.g.Clusters() && old(Fat(vol.g, vol.d))[c] == 0 && c !in old(vol.chains)
      ensures c != 0 ==>
                Fat(vol.g, vol.d) == old(Fat(vol.g, vol.d))[c := EOC] && vol.chains == old(vol.chains)[c := [c]]
      ensures c != 0 ==> ClusterText(vol.g, vol.d, c) == Zeros(ClusterSize(vol.g))
      ensures Kept(vol.g, old(vol.d), old(vol.chains), vol.d, vol.chains, {})
    {
      hide Partition;
      hide Records;
      hide ClusterText;
      hide TouchesOnly;
      hide OthersSame;
      hide Kept;
      ghost var d0, ch0 := vol.d, vol.chains;
      NoneFree(Fat(vol.g, d0));
      hide FreeClusters;
      KeptSame(vol.g, d0, ch0, {});
      c := vol.AllocCluster();
      if c != 0 {
        FreeIsUnowned(Fat(vol.g, d0), ch0, c);
        PartitionAlloc(Fat(vol.g, d0), ch0, c);
        MatchOthers(vol.g, d0, vol.d, ch0, dirs, c, c);
        KeptNew(vol.g, d0, vol.d, ch0, c);
        vol.chains := ch0[c := [c]];
      }
    }

    /** `CreateHandler` with `O_CREATE` for a name that is absent: the first cluster of the
        new, empty file, or 0 iff there are too few free clusters.  Only the new record is
        added, and the volume stays consistent iff the name is good. */
    method CreateFile(k: nat, n: Name) returns (c: nat)
      requires Valid() && k in dirs && Absent(dirs[k], n) && n[0] != 0
      modifies this, vol
      ensures Matched() && k in dirs && (Valid() <==> c == 0 || GoodName(n))
      ensures c != 0 <==> old(Room()) >= ClustersFor(old(dirs)[k], 1)
      ensures c != 0 ==> c !in old(vol.chains) && c in vol.chains && vol.chains[c] == [c] && c < FAT_MASK
      ensures c != 0 ==> exists j: nat :: Inserted(old(dirs), dirs, k, j, NewEntry(n, ATTR_ARCHIVE, c))
      ensures c == 0 ==> dirs == old(dirs) || Grew(old(dirs), dirs, k, old(vol.chains), vol.chains)
      ensures Kept(vol.g, old(vol.d), old(vol.chains), vol.d, vol.chains, {k})
      ensures Valid() ==> FatRun.Reaches(old(Abs()), Abs())
    {
      hide Partition;
      hide Kept;
      hide DirsMatch;
      hide DirsOk;
      hide LinksOk;
      hide InUse;
      hide Absent;
      hide Taken;
      hide NewEntry;
      hide FreeClusters;
      hide FatRun.Reaches;
      hide HasSlot;
      hide SetSlot;
      ghost var d0, ch0, dirs0, v0 := vol.d, vol.chains, dirs, Abs();
      var ok, p, j := FindFreeDirEntry(k);
      c := 0;
      if ok {
        AbsentStill(dirs0, dirs, k, ch0, vol.chains, n);
        ghost var d1, ch1, dirs1, v1 := vol.d, vol.chains, dirs, Abs();
        c := NewChain();
        KeptThen(vol.g, d0, ch0, d1, ch1, vol.d, vol.chains, {k}, {});
        if c != 0 {
          CreateNeedsName(v1.fat, ch1, dirs1, vol.g.root, k, j, c, n);
          var e := NewEntry(n, ATTR_ARCHIVE, c);
          ghost var d2 := vol.d;
          TreeDirs(v1.fat, ch1, dirs1, vol.g.root, k);
          WriteRecord(p, e, k, j);
          KeptThen(vol.g, d0, ch0, d2, vol.chains, vol.d, vol.chains, {k}, {k});
          InsertedShown(dirs0, dirs1, k, j, e, ch0, ch1);
          if GoodName(n) {
            CreateStep(v0, v1, k, j, c, n, Abs());
          }
        }
      }
    }

    /** `O_TRUNC` on a chain: keep the first cluster, free the rest. */
    method TruncateChain(first: nat)
      requires Matched() && first in vol.chains && first !in dirs
      modifies vol
      ensures Matched() && vol.chains == old(vol.chains)[first := [first]]
      ensures first < vol.g.Clusters() && |old(vol.chains)[first]| > 0
      ensures Fat(vol.g, vol.d)
              == Freed(old(Fat(vol.g, vol.d))[first := EOC], Elements(old(vol.chains)[first][1..]))
      ensures Kept(vol.g, old(vol.d), old(vol.chains), vol.d, vol.chains, {first})
    {
      hide Partition;
      hide Records;
      hide Kept;
      hide ClearChain;
      hide InRange;
      hide SameData;
      ghost var d0, ch0, fat := vol.d, vol.chains, Fat(vol.g, vol.d);
      ChainClusters(vol.g, d0, ch0, first);
      TruncateFreesTail(fat, ch0, first);
      var next := vol.GetNextCluster(first);
      vol.SetNextCluster(first, EOC);
      ghost var d1 := vol.d;
      vol.ClearClusterChain(next);
      SameDataThen(vol.g, d0, d1, vol.d);
      PartitionTruncate(fat, ch0, first);
      MatchSameData(vol.g, d0, vol.d, ch0, dirs);
      KeptSameData(vol.g, d0, vol.d, ch0, first, [first]);
      vol.chains := ch0[first := [first]];
    }

    /** `CreateHandler` with `O_TRUNC` on an existing file: its first cluster, which is new if
        the file had none, and 0 iff it had none and no cluster is free. */
    method TruncateFile(k: nat, p: Place, e: Entry, ghost j: nat) returns (first: nat)
      requires Valid() && k in dirs && At(vol.g, vol.chains[k], p, j) && j < |dirs[k]| && dirs[k][j] == e
      requires Live(e) && !IsDot(e) && !IsDir(e)
      modifies this, vol
      ensures Valid()
      ensures first == 0 <==> FirstCluster(e) == 0 && old(Room()) == 0
      ensures FirstCluster(e) != 0 ==> first == FirstCluster(e) && vol.chains == old(vol.chains)[first := [first]]
      ensures FirstCluster(e) != 0 ==> dirs == SetSlot(old(dirs), k, j, WithSize(e, 0))
      ensures FirstCluster(e) == 0 && first != 0 ==>
                first !in old(vol.chains) && vol.chains == old(vol.chains)[first := [first]] && first < 0x1_0000_0000
                && dirs == SetSlot(old(dirs), k, j, WithSize(WithCluster(e, first), 0))
      ensures first == 0 ==> vol.chains == old(vol.chains) && dirs == SetSlot(old(dirs), k, j, WithSize(e, 0))
      ensures Kept(vol.g, old(vol.d), old(vol.chains), vol.d, vol.chains, {k, first})
      ensures FatRun.Reaches(old(Abs()), Abs())
    {
      hide Partition;
      hide Kept;
      hide DirsMatch;
      hide LinksOk;
      hide DirOk;
      hide Live;
      hide Owns;
      hide IsDot;
      hide FirstCluster;
      hide WithSize;
      hide WithCluster;
      hide At;
      hide FreeClusters;
      hide FatRun.Reaches;
      ghost var d0, ch0, dirs0, v0 := vol.d, vol.chains, dirs, Abs();
      FatRun.ReachSame(v0);
      first := FirstCluster(e);
      ResizedEntry(e, 0);
      if first >= 2 {
        FileChain(ch0, dirs0, vol.g.root, k, j);
        TruncateChain(first);
        ghost var d1, ch1, v1 := vol.d, vol.chains, Abs();
        WriteRecord(p, WithSize(e, 0), k, j);
        KeptMore(vol.g, d0, ch0, d1, ch1, {first}, {k, first});
        KeptThen(vol.g, d0, ch0, d1, ch1, vol.d, vol.chains, {k, first}, {k});
        TreeSameKeys(v0.fat, ch0, Fat(vol.g, vol.d), vol.chains, dirs0, vol.g.root);
        TreeReplace(Fat(vol.g, vol.d), vol.chains, dirs0, vol.g.root, k, j, WithSize(e, 0));
        TruncateStep(v0, first, v1);
        ResizeStep(v0, v1, k, j, Abs());
      } else {
        NoChainMeansZero(v0.fat, ch0, dirs0, vol.g.root, k, j);
        first := NewChain();
        ghost var d1, ch1 := vol.d, vol.chains;
        if first != 0 {
          AttachedEntry(e, first);
          WriteRecord(p, WithSize(WithCluster(e, first), 0), k, j);
          TreeAttach(v0.fat, ch0, dirs0, vol.g.root, k, j, first, WithSize(WithCluster(e, first), 0));
          AttachStep(v0, v0, k, j, first, WithSize(WithCluster(e, first), 0), Abs());
        } else {
          WriteRecord(p, WithSize(e, 0), k, j);
          TreeReplace(v0.fat, ch0, dirs0, vol.g.root, k, j, WithSize(e, 0));
          ResizeStep(v0, v0, k, j, Abs());
        }
        KeptMore(vol.g, d0, ch0, d1, ch1, {}, {k, first});
        KeptThen(vol.g, d0, ch0, d1, ch1, vol.d, vol.chains, {k, first}, {k});
      }
    }

    /** `MakeDir`: a record in k and a chain of one cluster holding `.` and `..`.  It succeeds
        iff the name is absent and there are enough free clusters; only the new record is
        added, and the volume stays consistent iff the name is good. */
    method MakeDir(k: nat, n: Name) returns (ok: bool, ghost j: nat, ghost c: nat)
      requires Valid() && k in dirs && n[0] != 0
      modifies this, vol
      ensures Matched() && k in dirs && (Valid() <==> !ok || GoodName(n))
      ensures ok <==> Absent(old(dirs)[k], n) && old(Room()) >= ClustersFor(old(dirs)[k], 1)
      ensures !Absent(old(dirs)[k], n) ==>
                dirs == old(dirs) && vol.d == old(vol.d) && vol.chains == old(vol.chains)
      ensures !ok ==> dirs == old(dirs) || Grew(old(dirs), dirs, k, old(vol.chains), vol.chains)
      ensures ok ==> MadeDir(vol.g, old(dirs), dirs, k, j, n, c)
      ensures ok ==> c !in old(vol.chains) && c in vol.chains && vol.chains[c] == [c]
      ensures ok ==> c in dirs && 2 <= |dirs[c]| && j < |dirs[k]|
      ensures ok ==> NameOf(dirs[c][0]) == DOT && IsDir(dirs[c][0]) && FirstCluster(dirs[c][0]) == c
      ensures ok ==> NameOf(dirs[c][1]) == DOTDOT && IsDir(dirs[c][1])
                     && FirstCluster(dirs[c][1]) == if k == vol.g.root then 0 else k
      ensures ok ==> forall i :: 2 <= i < |dirs[c]| ==> dirs[c][i][0] == 0
      ensures ok ==> NameOf(dirs[k][j]) == n && IsDir(dirs[k][j]) && FirstCluster(dirs[k][j]) == c
      ensures Kept(vol.g, old(vol.d), old(vol.chains), vol.d, vol.chains, {k})
      ensures Valid() ==> FatRun.Reaches(old(Abs()), Abs())
    {
      hide Partition;
      hide Kept;
      hide DirsMatch;
      hide DirsOk;
      hide LinksOk;
      hide InUse;
      hide Absent;
      hide Taken;
      hide NewEntry;
      hide NewDirRecords;
      hide FreeClusters;
      hide FatRun.Reaches;
      hide HasSlot;
      hide SetSlot;
      hide DirOk;
      hide OwnsNothing;
      hide MadeDir;
      hide IsDir;
      hide FirstCluster;
      ghost var d0, ch0, dirs0, v0 := vol.d, vol.chains, dirs, Abs();
      KeptSame(vol.g, d0, ch0, {k});
      FatRun.ReachSame(v0);
      var found, p0, e0, j0 := Lookup(k, n);
      ok, j, c := false, 0, 0;
      if found {
        return;
      }
      var p;
      ok, p, j := FindFreeDirEntry(k);
      if !ok {
        return;
      }
      AbsentStill(dirs0, dirs, k, ch0, vol.chains, n);
      ghost var d1, ch1, dirs1, v1 := vol.d, vol.chains, dirs, Abs();
      TreeDirs(v1.fat, ch1, dirs1, vol.g.root, k);
      var head := NewChain();
      KeptThen(vol.g, d0, ch0, d1, ch1, vol.d, vol.chains, {k}, {});
      c := head;
      if head == 0 {
        ok := false;
        return;
      }
      KeyBound(v1.fat, ch1, k);
      var e := NewEntry(n, ATTR_DIRECTORY, head);
      var parent := ParentOf(vol.g, k);
      NewDirOk(vol.g, c, parent);
      MakeDirNeedsName(v1.fat, ch1, dirs1, vol.g.root, k, j, c, n, NewDirRecords(vol.g, c, parent));
      ghost var d2 := vol.d;
      WriteRecord(p, e, k, j);
      KeptThen(vol.g, d0, ch0, d2, vol.chains, vol.d, vol.chains, {k}, {k});
      ghost var d3 := vol.d;
      SetSlotKeys(dirs1, k, j, e);
      ZeroStays(vol.g, d2, d3, vol.chains, k, c);
      WriteDots(head, parent);
      KeptFresh(vol.g, d0, ch0, d3, vol.chains, vol.d, k, c);
      SetSlotNewKey(dirs1, k, j, e, c, NewDirRecords(vol.g, c, parent));
      MadeDirShown(vol.g, dirs0, dirs1, k, j, n, c, ch0, ch1);
      if GoodName(n) {
        MakeDirStep(vol.g, v0, v1, k, j, c, n, Abs());
      }
      MadeDirHolds(vol.g, dirs0, dirs, k, j, n, c);
    }

    /** The sector of `.` and `..` that starts a new directory. */
    method WriteDots(c: nat, parent: nat)
      requires Matched() && c in vol.chains && vol.chains[c] == [c] && c !in dirs
      requires ClusterText(vol.g, vol.d, c) == Zeros(ClusterSize(vol.g)) && c < FAT_MASK && parent < FAT_MASK
      modifies this, vol`d
      ensures Matched() && Fat(vol.g, vol.d) == old(Fat(vol.g, vol.d))
      ensures dirs == old(dirs)[c := NewDirRecords(vol.g, c, parent)]
      ensures Kept(vol.g, old(vol.d), vol.chains, vol.d, vol.chains, {c})
    {
      hide Partition;
      hide Kept;
      hide Records;
      hide ClusterText;
      hide TouchesOnly;
      hide OthersSame;
      hide DotSector;
      hide NewDirRecords;
      ChainClusters(vol.g, vol.d, vol.chains, c);
      PartitionDisjoint(Fat(vol.g, vol.d), vol.chains);
      ghost var d0 := vol.d;
      var buf := DotSector(c, parent);
      vol.WriteSector(c, 0, 0, buf);
      OnlyOwnChain(vol.chains, c);
      MatchOthers(vol.g, d0, vol.d, vol.chains, dirs, c, c);
      KeptOthers(vol.g, d0, vol.d, vol.chains, c);
      DotRecords(vol.g, vol.d, c, parent);
      dirs := dirs[c := NewDirRecords(vol.g, c, parent)];
    }

    /** `clear_cluster_chain` on the chain of c. */
    method FreeChain(c: nat)
      requires Matched() && c in vol.chains
      modifies this, vol
      ensures Matched() && Fat(vol.g, vol.d) == Freed(old(Fat(vol.g, vol.d)), Elements(old(vol.chains)[c]))
      ensures vol.chains == Removed(old(vol.chains), c) && dirs == Without(old(dirs), c)
      ensures Kept(vol.g, old(vol.d), old(vol.chains), vol.d, vol.chains, {c})
    {
      hide Partition;
      hide Records;
      hide Kept;
      hide ClearChain;
      hide InRange;
      hide SameData;
      hide Freed;
      ghost var d0, ch0, fat := vol.d, vol.chains, Fat(vol.g, vol.d);
      ChainClusters(vol.g, d0, ch0, c);
      HeadInRange(fat, ch0, c);
      PartitionInRange(fat, ch0);
      ClearChainFrees(fat, ch0[c]);
      vol.ClearClusterChain(c);
      PartitionFree(fat, ch0, c);
      MatchSameData(vol.g, d0, vol.d, ch0, dirs);
      KeptRemoved(vol.g, d0, vol.d, ch0, c);
      vol.chains := Removed(ch0, c);
      dirs := Without(dirs, c);
    }

    /** The same path for a `.` or `..` record, whose chain is not its own. */
    method UnlinkDot(k: nat, n: Name, p: Place, e: Entry, c: nat, ghost j: nat) returns (ok: bool)
      requires Valid() && k in dirs && At(vol.g, vol.chains[k], p, j) && j < |dirs[k]| && dirs[k][j] == e
      requires Live(e) && NameOf(e) == n && IsDot(e) && c == FirstCluster(e) && DotKnown(Fat(vol.g, vol.d), dirs, e)
      modifies this, vol
      ensures Fits(vol.g, vol.d) && DirsMatch(vol.g, vol.d, vol.chains, dirs)
      ensures Valid() <==> !ok || !DotFrees(old(Fat(vol.g, vol.d)), old(dirs)[k], n)
      ensures ok <==> !BusyDir(old(dirs), k, n)
      ensures !ok ==> dirs == old(dirs) && vol.d == old(vol.d) && vol.chains == old(vol.chains)
      ensures ok ==> Unlinked(vol.g, old(vol.d), vol.d, old(dirs), old(vol.chains), dirs, vol.chains, k, j, n)
      ensures Valid() ==> FatRun.Reaches(old(Abs()), Abs())
    {
      hide Partition;
      hide Kept;
      hide DirsMatch;
      hide DirsOk;
      hide LinksOk;
      hide Live;
      hide Owns;
      hide IsDot;
      hide FirstCluster;
      hide Deleted;
      hide At;
      hide Occupied;
      hide BusyDir;
      hide Unlinked;
      hide FatRun.Reaches;
      ghost var d0, ch0, dirs0, v0 := vol.d, vol.chains, dirs, Abs();
      FatRun.ReachSame(v0);
      DirKeyRange(v0.fat, ch0, dirs0, vol.g.root, k);
      DirKeyRange(v0.fat, ch0, dirs0, vol.g.root, c);
      if IsDir(e) && 2 <= c < EOC_MIN {
        var occupied := HasOther(c);
        if occupied {
          BusyShown(dirs0, k, j, n);
          return false;
        }
      }
      NotBusy(v0.fat, ch0, dirs0, vol.g.root, k, j, n);
      PartitionInRange(v0.fat, ch0);
      ChainClusters(vol.g, d0, ch0, k);
      PartitionDisjoint(v0.fat, ch0);
      vol.ClearClusterChain(c);
      ghost var d1 := vol.d;
      MatchSameData(vol.g, d0, d1, ch0, dirs0);
      KeptSameData(vol.g, d0, d1, ch0, k, ch0[k]);
      assert ch0[k := ch0[k]] == ch0;
      PutRecord(p, Deleted(e), k, j);
      KeptThen(vol.g, d0, ch0, d1, ch0, vol.d, ch0, {k}, {k});
      KeptMore(vol.g, d0, ch0, vol.d, ch0, {k}, {k, c});
      assert Cleared(v0.fat, c, Fat(vol.g, vol.d));
      UnlinkedShown(vol.g, d0, vol.d, dirs0, ch0, dirs, ch0, k, j, n);
      DotLeaves(v0.fat, ch0, dirs0, vol.g.root, k, j, c, n);
      DotUnowned(e);
      if !InUseCluster(v0.fat, c) {
        UnlinkEmptyStep(v0, k, j, Abs());
      }
      return true;
    }

    /** `Unlink`: removes the record and frees exactly its chain; a directory must be
        empty.  The only failures are a missing name and a directory in use. */
    method Unlink(k: nat, n: Name) returns (ok: bool)
      requires Valid() && k in dirs && DotsKnown(Fat(vol.g, vol.d), dirs, k, n)
      modifies this, vol
      ensures Fits(vol.g, vol.d) && DirsMatch(vol.g, vol.d, vol.chains, dirs)
      ensures Valid() <==> !ok || !DotFrees(old(Fat(vol.g, vol.d)), old(dirs)[k], n)
      ensures ok <==> !Absent(old(dirs)[k], n) && !BusyDir(old(dirs), k, n)
      ensures !ok ==> dirs == old(dirs) && vol.d == old(vol.d) && vol.chains == old(vol.chains)
      ensures ok ==>
                exists j :: Unlinked(vol.g, old(vol.d), vol.d, old(dirs), old(vol.chains), dirs, vol.chains, k, j, n)
      ensures Valid() ==> FatRun.Reaches(old(Abs()), Abs())
    {
      hide Partition;
      hide Kept;
      hide DirsMatch;
      hide DirsOk;
      hide Absent;
      hide Live;
      hide Owns;
      hide IsDot;
      hide FirstCluster;
      hide Deleted;
      hide At;
      hide Occupied;
      hide BusyDir;
      hide OwnsNothing;
      hide Unlinked;
      hide Without;
      hide RefsOk;
      hide RefsUnique;
      hide RefsCover;
      hide FatRun.Reaches;
      ghost var d0, ch0, dirs0, v0 := vol.d, vol.chains, dirs, Abs();
      ghost var fat0 := v0.fat;
      FatRun.ReachSame(v0);
      TreeDirs(fat0, ch0, dirs0, vol.g.root, k);
      var found, p, e, j := Lookup(k, n);
      if !found {
        return false;
      }
      var c := FirstCluster(e);
      if IsDot(e) {
        ok := UnlinkDot(k, n, p, e, c, j);
        return;
      }
      NoDotNamed(fat0, dirs0[k], j, n);
      if c != 0 {
        FileChain(ch0, dirs0, vol.g.root, k, j);
      }
      if IsDir(e) {
        DirHasChain(fat0, ch0, dirs0, vol.g.root, k, j);
        var occupied := HasOther(c);
        if occupied {
          BusyShown(dirs0, k, j, n);
          return false;
        }
      }
      NotBusy(fat0, ch0, dirs0, vol.g.root, k, j, n);
      if c != 0 {
        OwnerElsewhere(ch0, dirs0, vol.g.root, k, j, c);
        ClearedOwned(fat0, ch0, c);
        FreeChain(c);
        ghost var d1 := vol.d;
        WithoutOther(dirs0, k, c);
        KeptAt(vol.g, d0, ch0, d1, vol.chains, k, c, p, j);
        WriteRecord(p, Deleted(e), k, j);
        KeptMore(vol.g, d0, ch0, d1, vol.chains, {c}, {k, c});
        KeptThen(vol.g, d0, ch0, d1, vol.chains, vol.d, vol.chains, {k, c}, {k});
        TreeUnlink(fat0, ch0, dirs0, vol.g.root, k, j, c);
        WithoutSetSlot(dirs0, k, j, Deleted(e), c);
        UnlinkStep(v0, k, j, c, Abs());
      } else {
        LiveUnowned(e);
        ClearedNone(fat0, ch0);
        WriteRecord(p, Deleted(e), k, j);
        KeptMore(vol.g, d0, ch0, vol.d, vol.chains, {k}, {k, c});
        TreeUnlinkEmpty(fat0, ch0, dirs0, vol.g.root, k, j);
        UnlinkEmptyStep(v0, k, j, Abs());
      }
      UnlinkedShown(vol.g, d0, vol.d, dirs0, ch0, dirs, vol.chains, k, j, n);
      return true;
    }

    /** The emptiness test of `Unlink`. */
    method HasOther(c: nat) returns (b: bool)
      requires Valid() && c in dirs
      ensures b <==> Occupied(dirs[c])
      ensures !b ==> OwnsNothing(dirs[c])
    {
      hide Partition;
      hide Records;
      hide Stops;
      hide NoStop;
      hide DirOk;
      hide LinksOk;
      hide Occupied;
      hide OwnsNothing;
      ChainClusters(vol.g, vol.d, vol.chains, c);
      var stopped, p, e, last, j := ScanDir(vol, c, ForOther, vol.chains[c]);
      b := stopped && e[0] != 0;
      OtherScan(dirs[c], stopped, j);
    }

    /** `mv` when the target is no directory: the record gets a new name in place.  The volume
        stays consistent iff the new name is good or the record owns no chain. */
    method Rename(k: nat, n: Name, n': Name) returns (ok: bool, ghost j: nat)
      requires Valid() && k in dirs && n'[0] != 0
      modifies this, vol
      ensures Matched() && vol.chains == old(vol.chains)
      ensures ok <==> !Absent(old(dirs)[k], n) && Absent(old(dirs)[k], n')
      ensures !ok ==> dirs == old(dirs) && vol.d == old(vol.d)
      ensures ok ==> Renamed(old(dirs), dirs, k, j, n, n')
      ensures Valid() <==> !ok || RenameSafe(old(dirs)[k][j], n')
      ensures Kept(vol.g, old(vol.d), old(vol.chains), vol.d, vol.chains, {k})
      ensures Valid() ==> FatRun.Reaches(old(Abs()), Abs())
    {
      hide Partition;
      hide Kept;
      hide DirsMatch;
      hide DirsOk;
      hide LinksOk;
      hide Absent;
      hide Live;
      hide IsDot;
      hide WithName;
      hide FirstCluster;
      hide RenameSafe;
      hide At;
      hide FatRun.Reaches;
      ghost var d0, ch0, dirs0, v0 := vol.d, vol.chains, dirs, Abs();
      KeptSame(vol.g, d0, ch0, {k});
      FatRun.ReachSame(v0);
      j := 0;
      var found, p, e;
      found, p, e, j := Lookup(k, n);
      if !found {
        return false, j;
      }
      var taken, p', e', j' := Lookup(k, n');
      if taken {
        return false, j;
      }
      RenameNeedsName(v0.fat, ch0, dirs0, vol.g.root, k, j, n');
      WriteRecord(p, WithName(e, n'), k, j);
      assert Renamed(dirs0, dirs, k, j, n, n');
      if GoodName(n') && !IsDot(e) {
        RenamedEntry(e, n');
        UpdateStep(v0, v0, k, j, WithName(e, n'), Abs());
      } else if RenameSafe(e, n') {
        RenamedAway(v0.fat, ch0, dirs0, vol.g.root, k, j, n');
        RelabelStep(v0, v0, k, j, WithName(e, n'), Abs());
      }
      return true, j;
    }

    /** `mv` into another directory: the record is copied there, then deleted here.  It
        succeeds iff the name is here, not there, and there is a slot or a cluster for it. */
    method MoveInto(k: nat, n: Name, k': nat) returns (ok: bool)
      requires Valid() && k in dirs && k' in dirs
      modifies this, vol
      ensures Valid()
      ensures ok <==> !Absent(old(dirs)[k], n) && Absent(old(dirs)[k'], n)
                      && old(Room()) >= ClustersFor(old(dirs)[k'], 0)
      ensures !ok ==> dirs == old(dirs) && vol.d == old(vol.d) && vol.chains == old(vol.chains)
      ensures ok ==> k' in dirs && k != k' && exists j, j' :: Moved(old(dirs), dirs, k, j, k', j', n)
      ensures Kept(vol.g, old(vol.d), old(vol.chains), vol.d, vol.chains, {k, k'})
      ensures FatRun.Reaches(old(Abs()), Abs())
    {
      hide Partition;
      hide Kept;
      hide DirsMatch;
      hide DirsOk;
      hide LinksOk;
      hide Absent;
      hide Live;
      hide InUse;
      hide IsDot;
      hide FirstCluster;
      hide Deleted;
      hide Taken;
      hide At;
      hide SetSlot;
      hide FreeClusters;
      hide HasSlot;
      hide FatRun.Reaches;
      ghost var d0, ch0, dirs0, v0 := vol.d, vol.chains, dirs, Abs();
      KeptSame(vol.g, d0, ch0, {k, k'});
      FatRun.ReachSame(v0);
      TreeDirs(v0.fat, ch0, dirs0, vol.g.root, k);
      var found, p, e, j := Lookup(k, n);
      if !found {
        return false;
      }
      var taken, p1, e1, j1 := Lookup(k', n);
      if taken {
        return false;
      }
      var p';
      ghost var j';
      ok, p', j' := FindFreeDirEntry(k');
      if !ok {
        return;
      }
      AbsentStill(dirs0, dirs, k', ch0, vol.chains, n);
      GrewElsewhere(dirs0, dirs, k, k', ch0, vol.chains);
      ghost var d1, ch1, dirs1, v1 := vol.d, vol.chains, dirs, Abs();
      KeptMore(vol.g, d0, ch0, d1, ch1, {k'}, {k, k'});
      WriteRecord(p', e, k', j');
      ghost var d2 := vol.d;
      KeptThen(vol.g, d0, ch0, d1, ch1, d2, ch1, {k, k'}, {k'});
      SetSlotOther(dirs1, k, j, Deleted(e), k', j', e);
      WriteRecord(p, Deleted(e), k, j);
      KeptThen(vol.g, d0, ch0, d2, ch1, vol.d, ch1, {k, k'}, {k});
      TreeMove(v1.fat, ch1, dirs1, vol.g.root, k, j, k', j');
      MovedShown(dirs0, dirs1, dirs, k, j, k', j', n);
      MoveStep(v0, v1, k, j, k', j', Abs());
      return true;
    }

    /** `ReadFile` through a handle: the next bytes, and the offset moves past them. */
    method ReadFile(f: File, len: nat, ghost cs: seq<nat>) returns (out: seq<Byte>)
      requires Fits(vol.g, vol.d) && IsFile(Fat(vol.g, vol.d), f.first, f.size, cs)
      modifies f`offset
      ensures out == ReadSpec(Text(vol.g, vol.d, cs), f.size, old(f.offset), len)
      ensures |out| <= len && (old(f.offset) >= f.size ==> out == [])
      ensures out == [] || (f.offset <= f.size && f.offset <= |Text(vol.g, vol.d, cs)|)
      ensures |out| == len || f.offset >= f.size || f.offset >= |Text(vol.g, vol.d, cs)|
      ensures forall i {:trigger out[i]} :: 0 <= i < |out| ==> out[i] == Text(vol.g, vol.d, cs)[old(f.offset) + i]
      ensures f.offset == old(f.offset) + |out|
    {
      hide Text;
      hide Fat;
      out := vol.ReadFile(f.first, f.size, f.offset, len, cs);
      f.offset := f.offset + |out|;
    }

    /** `update_dir_entry_info_cwd`: rewrites the record named n, found by its raw bytes. */
    method UpdateDirEntryInfo(k: nat, n: Name, c: nat, size: nat, ghost j: nat)
      requires Matched() && k in dirs && DirOk(dirs[k]) && GoodName(n) && NoShadow(dirs[k], n)
      requires j < |dirs[k]| && Live(dirs[k][j]) && NameOf(dirs[k][j]) == n && c < FAT_MASK && size < 0x1_0000_0000
      modifies this, vol`d
      ensures Matched() && Fat(vol.g, vol.d) == old(Fat(vol.g, vol.d))
      ensures dirs == SetSlot(old(dirs), k, j, UpdatedEntry(old(dirs)[k][j], c, size))
      ensures Kept(vol.g, old(vol.d), vol.chains, vol.d, vol.chains, {k})
    {
      hide Partition;
      hide Records;
      hide Stops;
      hide NoStop;
      hide DirOk;
      hide Live;
      hide Kept;
      hide UpdatedEntry;
      hide At;
      hide SetSlot;
      ChainClusters(vol.g, vol.d, vol.chains, k);
      var stopped, p, e, last, i := ScanDir(vol, k, ForRaw(n), vol.chains[k]);
      RawIsLive(dirs[k], n, stopped, i, j);
      if stopped && e[0] != 0 {
        WriteRecord(p, UpdatedEntry(e, c, size), k, i);
      }
    }

    /** A file without a chain gets one cluster, recorded in its record; 0 iff none is free. */
    method AttachFirst(f: File, k: nat, ghost j: nat) returns (c: nat)
      requires Valid() && Bound(dirs, k, j, f.name, f.first) && f.first == 0
      modifies this, vol, f`first
      ensures Valid() && Bound(dirs, k, j, f.name, f.first)
      ensures c == 0 <==> old(Room()) == 0
      ensures c == 0 ==> f.first == 0 && vol.d == old(vol.d) && vol.chains == old(vol.chains) && dirs == old(dirs)
      ensures c != 0 ==> f.first == c && c !in old(vol.chains) && c in vol.chains && c != k && c < FAT_MASK
      ensures c != 0 ==> TextOf(vol.g, vol.d, vol.chains, c) == Zeros(ClusterSize(vol.g))
      ensures c != 0 ==> dirs == SetSlot(old(dirs), k, j, UpdatedEntry(old(dirs)[k][j], c, NO_SIZE))
      ensures Kept(vol.g, old(vol.d), old(vol.chains), vol.d, vol.chains, {k})
      ensures FatRun.Reaches(old(Abs()), Abs())
    {
      hide Partition;
      hide Kept;
      hide DirsMatch;
      hide LinksOk;
      hide DirOk;
      hide Live;
      hide UpdatedEntry;
      hide ClusterText;
      hide FirstCluster;
      hide IsDir;
      hide NoShadow;
      hide FreeClusters;
      hide FatRun.Reaches;
      ghost var d0, ch0, dirs0, v0 := vol.d, vol.chains, dirs, Abs();
      FatRun.ReachSame(v0);
      TreeDirs(v0.fat, ch0, dirs0, vol.g.root, k);
      c := NewChain();
      ghost var d1, ch1 := vol.d, vol.chains;
      KeptMore(vol.g, d0, ch0, d1, ch1, {}, {k});
      if c != 0 {
        f.first := c;
        AttachEntry(dirs0[k][j], c);
        NotDotGood(dirs0[k][j]);
        UpdateDirEntryInfo(k, f.name, c, NO_SIZE, j);
        KeptThen(vol.g, d0, ch0, d1, ch1, vol.d, vol.chains, {k}, {k});
        ZeroStays(vol.g, d1, vol.d, ch1, k, c);
        TextOfOne(vol.g, vol.d, vol.chains, c);
        TreeAttach(v0.fat, ch0, dirs0, vol.g.root, k, j, c, UpdatedEntry(dirs0[k][j], c, NO_SIZE));
        StillUnshadowed(dirs0[k], j, UpdatedEntry(dirs0[k][j], c, NO_SIZE), f.name);
        AttachStep(v0, v0, k, j, c, UpdatedEntry(dirs0[k][j], c, NO_SIZE), Abs());
      }
    }

    /** The byte loops of `WriteFile`. */
    method WriteBytes(first: nat, offset: nat, buf: seq<Byte>) returns (n: nat, reached: bool)
      requires Valid() && first in vol.chains && first !in dirs
      modifies vol
      ensures Valid() && n <= |buf| && (!reached ==> n == 0)
      ensures Wrote(vol.g, old(vol.d), old(vol.chains), vol.d, vol.chains, first, offset, buf[..n])
      ensures n < |buf| || !reached ==> Room() == 0 && |TextOf(vol.g, vol.d, vol.chains, first)| <= offset + n
      ensures reached <==> offset < |TextOf(vol.g, vol.d, vol.chains, first)|
      ensures FatRun.Reaches(old(Abs()), Abs())
    {
      hide Partition;
      hide DirsOk;
      hide LinksOk;
      hide Overlaid;
      hide Records;
      hide FreeClusters;
      hide Lengthened;
      hide FatRun.Reaches;
      ghost var d0, ch0, v0 := vol.d, vol.chains, Abs();
      FatRun.ReachSame(v0);
      n, reached := vol.WriteChain(first, offset, buf);
      MatchWrote(vol.g, d0, ch0, vol.d, vol.chains, dirs, first, offset, buf[..n]);
      TreeSameKeys(v0.fat, ch0, Fat(vol.g, vol.d), vol.chains, dirs, vol.g.root);
      FatRun.ReachLonger(v0, v0, first, Fat(vol.g, vol.d), vol.chains[first]);
    }

    /** The size write-back at the end of `WriteFile`. */
    method StoreSize(f: File, k: nat, ghost j: nat)
      requires Valid() && Bound(dirs, k, j, f.name, f.first) && f.size < NO_SIZE
      modifies this, vol`d
      ensures Valid() && Bound(dirs, k, j, f.name, f.first) && SizeOf(dirs[k][j]) == f.size
      ensures Fat(vol.g, vol.d) == old(Fat(vol.g, vol.d))
      ensures dirs == SetSlot(old(dirs), k, j, UpdatedEntry(old(dirs)[k][j], 0, f.size))
      ensures Kept(vol.g, old(vol.d), vol.chains, vol.d, vol.chains, {k})
      ensures FatRun.Reaches(old(Abs()), Abs())
    {
      hide Partition;
      hide Kept;
      hide DirsMatch;
      hide LinksOk;
      hide DirOk;
      hide Live;
      hide UpdatedEntry;
      hide FirstCluster;
      hide SizeOf;
      hide IsDir;
      hide NoShadow;
      hide FatRun.Reaches;
      ghost var dirs0, v0 := dirs, Abs();
      FatRun.ReachSame(v0);
      ResizeEntry(dirs0[k][j], f.size);
      UpdateDirEntryInfo(k, f.name, 0, f.size, j);
      TreeReplace(v0.fat, vol.chains, dirs0, vol.g.root, k, j, UpdatedEntry(dirs0[k][j], 0, f.size));
      StillUnshadowed(dirs0[k], j, UpdatedEntry(dirs0[k][j], 0, f.size), f.name);
      UpdateStep(v0, v0, k, j, UpdatedEntry(dirs0[k][j], 0, f.size), Abs());
    }

    /** `WriteFile` through a handle opened by bare name in the current directory k, where j
        is the slot of its record.  -1 means that an empty file could not get a first cluster.
        Fewer bytes than asked are written only when no cluster is free afterwards and the
        chain is written to its end.  Of all records only the file's own changes. */
    method WriteFile(f: File, k: nat, buf: seq<Byte>, ghost j: nat) returns (n: int)
      requires Valid() && Bound(dirs, k, j, f.name, f.first) && f.offset + |buf| < 0xFFFF_FFFF
      modifies this, vol, f
      ensures Valid() && Bound(dirs, k, j, f.name, f.first)
      ensures n == -1 <==> old(f.first) == 0 && old(Room()) == 0
      ensures n == -1 ==> f.first == 0 && f.offset == old(f.offset) && f.size == old(f.size) && dirs == old(dirs)
      ensures n != -1 ==> 0 <= n <= |buf| && f.first in vol.chains && (old(f.first) != 0 ==> f.first == old(f.first))
      ensures n != -1 && n < |buf| ==>
                Room() == 0 && |TextOf(vol.g, vol.d, vol.chains, f.first)| <= old(f.offset) + n
      ensures n != -1 ==> f.offset == old(f.offset) + n
      ensures n != -1 ==>
                f.size == if Extends(TextOf(vol.g, vol.d, vol.chains, f.first), old(f.offset), f.offset, old(f.size))
                          then f.offset else old(f.size)
      ensures f.size >= old(f.size)
      ensures n > 0 ==> f.size == if old(f.offset) + n > old(f.size) then old(f.offset) + n else old(f.size)
      ensures n == 0 && f.size != old(f.size) ==>
                f.size == old(f.offset) < |TextOf(vol.g, vol.d, vol.chains, f.first)|
      ensures n != -1 ==>
                SizeOf(dirs[k][j]) == if f.size != old(f.size) then f.size else old(SizeOf(dirs[k][j]))
      ensures n != -1 ==> FirstCluster(dirs[k][j]) == f.first
      ensures n != -1 ==> dirs[k][j][..20] == old(dirs[k][j][..20]) && dirs[k][j][22..26] == old(dirs[k][j][22..26])
      ensures n != -1 ==> Overlaid(TextOf(vol.g, old(vol.d), old(vol.chains), f.first),
                                   TextOf(vol.g, vol.d, vol.chains, f.first), old(f.offset), buf[..n])
      ensures n != -1 ==> f.first < FAT_MASK && (f.size != old(f.size) ==> f.size < NO_SIZE)
      ensures n != -1 ==>
                dirs == SetSlot(old(dirs), k, j,
                                UpdatedEntry(old(dirs)[k][j], if old(f.first) == 0 then f.first else 0,
                                             if f.size != old(f.size) then f.size else NO_SIZE))
      ensures Kept(vol.g, old(vol.d), old(vol.chains), vol.d, vol.chains, {k, f.first})
      ensures FatRun.Reaches(old(Abs()), Abs())
    {
      hide Partition;
      hide Kept;
      hide DirsMatch;
      hide DirsOk;
      hide LinksOk;
      hide DirOk;
      hide Live;
      hide Overlaid;
      hide TextOf;
      hide UpdatedEntry;
      hide SetSlot;
      hide Bound;
      hide FreeClusters;
      hide Extends;
      hide FatRun.Reaches;
      ghost var d0, ch0, dirs0, v0 := vol.d, vol.chains, dirs, Abs();
      BoundSlot(dirs, k, j, f.name, f.first);
      if f.first != 0 {
        n := WriteAttached(f, k, buf, j);
        WroteSlot(dirs0, dirs, k, j, 0, if f.size != old(f.size) then f.size else NO_SIZE);
        return;
      }
      var c := AttachFirst(f, k, j);
      if c == 0 {
        KeptMore(vol.g, d0, ch0, vol.d, vol.chains, {k}, {k, f.first});
        return -1;
      }
      ghost var d1, ch1, dirs1, v1 := vol.d, vol.chains, dirs, Abs();
      n := WriteAttached(f, k, buf, j);
      FatRun.ReachTrans(v0, v1, Abs());
      AttachThenWrite(vol.g, d0, ch0, d1, ch1, vol.d, vol.chains, k, c, old(f.offset), buf[..n]);
      AttachThenSize(dirs0, k, j, c, if f.size != old(f.size) then f.size else NO_SIZE);
      WroteSlot(dirs0, dirs, k, j, c, if f.size != old(f.size) then f.size else NO_SIZE);
    }

    /** `WriteFile` on a file that has a chain. */
    method WriteAttached(f: File, k: nat, buf: seq<Byte>, ghost j: nat) returns (n: nat)
      requires Valid() && Bound(dirs, k, j, f.name, f.first) && f.first != 0 && f.offset + |buf| < 0xFFFF_FFFF
      modifies this, vol, f`offset, f`size
      ensures Valid() && Bound(dirs, k, j, f.name, f.first) && n <= |buf| && f.first in vol.chains && f.first < FAT_MASK
      ensures n < |buf| ==> Room() == 0 && |TextOf(vol.g, vol.d, vol.chains, f.first)| <= old(f.offset) + n
      ensures f.offset == old(f.offset) + n
      ensures f.size == if Extends(TextOf(vol.g, vol.d, vol.chains, f.first), old(f.offset), f.offset, old(f.size))
                        then f.offset else old(f.size)
      ensures f.size >= old(f.size)
      ensures n > 0 ==> f.size == if old(f.offset) + n > old(f.size) then old(f.offset) + n else old(f.size)
      ensures n == 0 && f.size != old(f.size) ==>
                f.size == old(f.offset) < |TextOf(vol.g, vol.d, vol.chains, f.first)|
      ensures Overlaid(TextOf(vol.g, old(vol.d), old(vol.chains), f.first),
                       TextOf(vol.g, vol.d, vol.chains, f.first), old(f.offset), buf[..n])
      ensures k in old(dirs) && j < |old(dirs)[k]| && (f.size != old(f.size) ==> f.size < NO_SIZE)
      ensures dirs == SetSlot(old(dirs), k, j,
                              UpdatedEntry(old(dirs)[k][j], 0, if f.size != old(f.size) then f.size else NO_SIZE))
      ensures Kept(vol.g, old(vol.d), old(vol.chains), vol.d, vol.chains, {k, f.first})
      ensures FatRun.Reaches(old(Abs()), Abs())
    {
      hide Partition;
      hide Kept;
      hide DirsMatch;
      hide DirsOk;
      hide LinksOk;
      hide DirOk;
      hide Live;
      hide Overlaid;
      hide TextOf;
      hide UpdatedEntry;
      hide SetSlot;
      hide Wrote;
      hide Bound;
      hide FreeClusters;
      hide FatRun.Reaches;
      ghost var d0, ch0, dirs0, v0 := vol.d, vol.chains, dirs, Abs();
      BoundSlot(dirs, k, j, f.name, f.first);
      BoundChain(vol.chains, dirs, vol.g.root, k, j, f.name, f.first);
      KeyBound(v0.fat, ch0, f.first);
      SameSlot(dirs, k, j);
      KeptSame(vol.g, d0, ch0, {k});
      var reached;
      n, reached := WriteBytes(f.first, f.offset, buf);
      ghost var d2, ch2, v2 := vol.d, vol.chains, Abs();
      KeptSame(vol.g, d2, ch2, {k});
      if reached {
        f.offset := f.offset + n;
        if f.offset > f.size {
          f.size := f.offset;
          StoreSize(f, k, j);
          FatRun.ReachTrans(v0, v2, Abs());
        }
      }
      WriteFileFrame(vol.g, d0, ch0, d0, ch0, d2, ch2, vol.d, k, f.first, old(f.offset), buf[..n]);
      ExtendedSize(TextOf(vol.g, d0, ch0, f.first), TextOf(vol.g, vol.d, vol.chains, f.first), old(f.offset),
                   buf[..n], n, old(f.size));
    }
  }
}
