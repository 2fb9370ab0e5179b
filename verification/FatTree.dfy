/**
  The whole-volume invariant: the chains of the FAT and the entries of the
  directories match one to one.  Each `Tree...` lemma is one file-system operation
  on the abstract volume: the FAT, its chains, and the records of each directory.
 */
module FatTree {
  import opened FatDisk
  import opened FatChain
  import opened FatPartition
  import opened FatEntry

  type Dirs = map<nat, seq<Entry>>

  // ------------------------------------------------------------- one directory

  function Put(es: seq<Entry>, j: nat, e: Entry): (r: seq<Entry>)
    requires j < |es|
    ensures |r| == |es|
    ensures forall i {:trigger r[i]} :: 0 <= i < |es| ==> r[i] == if i == j then e else es[i]
  {
    es[j := e]
  }

  /** n free records more. */
  function Grown(es: seq<Entry>, n: nat): (r: seq<Entry>)
    ensures |r| == |es| + n
    ensures forall i {:trigger r[i]} :: 0 <= i < |r| ==> r[i] == if i < |es| then es[i] else ZeroEntry()
  {
    es + seq(n, _ => ZeroEntry())
  }

  ghost predicate NoUseAfterEnd(es: seq<Entry>) {
    forall i, j :: 0 <= i < j < |es| && es[i][0] == 0 ==> !InUse(es[j])
  }

  ghost predicate NamesUnique(es: seq<Entry>) {
    forall i, j :: 0 <= i < |es| && 0 <= j < |es| && Live(es[i]) && Live(es[j]) && NameOf(es[i]) == NameOf(es[j]) ==>
      i == j
  }

  ghost predicate DirsHaveClusters(es: seq<Entry>) {
    forall i :: 0 <= i < |es| && Live(es[i]) && !IsDot(es[i]) && IsDir(es[i]) ==> FirstCluster(es[i]) != 0
  }

  /** Nothing in use follows an end marker, live names are unique, and a
      subdirectory has a chain. */
  ghost predicate DirOk(es: seq<Entry>) {
    NoUseAfterEnd(es) && NamesUnique(es) && DirsHaveClusters(es)
  }

  /** No live record carries the name. */
  ghost predicate Absent(es: seq<Entry>, n: Name) {
    forall i :: 0 <= i < |es| && Live(es[i]) ==> NameOf(es[i]) != n
  }

  /** The first j slots are taken. */
  ghost predicate Taken(es: seq<Entry>, j: nat) {
    forall i :: 0 <= i < j && i < |es| ==> InUse(es[i])
  }

  /** Filling the first free slot. */
  lemma DirInsert(es: seq<Entry>, j: nat, e: Entry)
    requires DirOk(es) && j < |es| && Taken(es, j) && !InUse(es[j])
    requires Live(e) && Absent(es, NameOf(e)) && (!IsDot(e) && IsDir(e) ==> FirstCluster(e) != 0)
    ensures DirOk(Put(es, j, e))
  {
  }

  lemma DirDelete(es: seq<Entry>, j: nat)
    requires DirOk(es) && j < |es| && InUse(es[j])
    ensures DirOk(Put(es, j, Deleted(es[j])))
  {
  }

  /** Replacing a live record by one whose name is its own or new. */
  lemma DirReplace(es: seq<Entry>, j: nat, e: Entry)
    requires DirOk(es) && j < |es| && Live(es[j]) && Live(e)
    requires NameOf(e) == NameOf(es[j]) || Absent(es, NameOf(e))
    requires !IsDot(e) && IsDir(e) ==> FirstCluster(e) != 0
    ensures DirOk(Put(es, j, e))
  {
  }

  lemma DirGrow(es: seq<Entry>, n: nat)
    requires DirOk(es)
    ensures DirOk(Grown(es, n))
  {
    assert !InUse(ZeroEntry());
  }

  // --------------------------------------------------------------------- links

  /** Record j of directory k owns the chain of c. */
  ghost predicate Ref(dirs: Dirs, k: nat, j: nat, c: nat) {
    k in dirs && j < |dirs[k]| && Owns(dirs[k][j]) && FirstCluster(dirs[k][j]) == c
  }

  ghost predicate Referenced(dirs: Dirs, c: nat) {
    exists k: nat, j: nat :: Ref(dirs, k, j, c)
  }

  /** Records own chains that exist, and agree on which of them are directories. */
  ghost predicate RefsOk(ch: Chains, dirs: Dirs, root: nat) {
    forall k: nat, j: nat, c: nat :: Ref(dirs, k, j, c) ==> c in ch && c != root && (c in dirs <==> IsDir(dirs[k][j]))
  }

  /** No chain has two owners. */
  ghost predicate RefsUnique(dirs: Dirs) {
    forall k: nat, j: nat, k': nat, j': nat, c: nat :: Ref(dirs, k, j, c) && Ref(dirs, k', j', c) ==> k == k' && j == j'
  }

  /** Every chain but the root directory's has an owner. */
  ghost predicate RefsCover(ch: Chains, dirs: Dirs, root: nat) {
    forall c :: c in ch && c != root ==> Referenced(dirs, c)
  }

  ghost predicate DirsOk(ch: Chains, dirs: Dirs, root: nat) {
    root in dirs && forall k :: k in dirs ==> k in ch && DirOk(dirs[k])
  }

  ghost predicate LinksOk(ch: Chains, dirs: Dirs, root: nat) {
    RefsOk(ch, dirs, root) && RefsUnique(dirs) && RefsCover(ch, dirs, root)
  }

  ghost predicate TreeOk(fat: seq<nat>, ch: Chains, dirs: Dirs, root: nat) {
    Partition(fat, ch) && DirsOk(ch, dirs, root) && LinksOk(ch, dirs, root)
  }

  /** The point of it all: a data cluster is in use exactly when it is on the chain
      of the root directory or of a file or directory with exactly one live record. */
  lemma EveryClusterAccounted(fat: seq<nat>, ch: Chains, dirs: Dirs, root: nat, c: nat)
    requires TreeOk(fat, ch, dirs, root) && 2 <= c < |fat|
    ensures fat[c] != 0 <==> exists f :: f in ch && c in ch[f] && (f == root || Referenced(dirs, f))
    ensures forall f, f' :: f in ch && f' in ch && c in ch[f] && c in ch[f'] ==> f == f'
  {
    UsedIffOwned(fat, ch, c);
    if fat[c] != 0 {
      var f :| f in ch && c in ch[f];
    }
  }

  // ------------------------------------------------------------ link lemmas

  function SetSlot(dirs: Dirs, k: nat, j: nat, e: Entry): Dirs
    requires k in dirs && j < |dirs[k]|
  {
    dirs[k := Put(dirs[k], j, e)]
  }

  lemma RefAfter(dirs: Dirs, k: nat, j: nat, e: Entry)
    requires k in dirs && j < |dirs[k]|
    ensures forall x: nat, y: nat, c: nat :: Ref(SetSlot(dirs, k, j, e), x, y, c) <==>
                              if x == k && y == j then Owns(e) && FirstCluster(e) == c else Ref(dirs, x, y, c)
  {
    hide Owns;
    hide FirstCluster;
  }

  lemma SetSlotKeys(dirs: Dirs, k: nat, j: nat, e: Entry)
    requires k in dirs && j < |dirs[k]|
    ensures SetSlot(dirs, k, j, e).Keys == dirs.Keys
    ensures forall x :: x in dirs ==> |SetSlot(dirs, k, j, e)[x]| == |dirs[x]|
    ensures forall x, y :: x in dirs && 0 <= y < |dirs[x]| ==>
              SetSlot(dirs, k, j, e)[x][y] == if x == k && y == j then e else dirs[x][y]
  {
  }

  /** The links are in order except that the chain of c, which exists, has no owner. */
  ghost predicate LinksBut(ch: Chains, dirs: Dirs, root: nat, c: nat) {
    && RefsOk(ch, dirs, root) && RefsUnique(dirs)
    && c in ch && c != root && !Referenced(dirs, c)
    && forall x :: x in ch && x != root && x != c ==> Referenced(dirs, x)
  }

  /** A record begins to own the chain that had no owner. */
  lemma LinksAdd(ch: Chains, dirs: Dirs, root: nat, k: nat, j: nat, e: Entry)
    requires k in dirs && j < |dirs[k]| && !Owns(dirs[k][j])
    requires Owns(e) && LinksBut(ch, dirs, root, FirstCluster(e)) && (FirstCluster(e) in dirs <==> IsDir(e))
    ensures LinksOk(ch, SetSlot(dirs, k, j, e), root)
  {
    hide Owns;
    hide FirstCluster;
    hide IsDir;
    hide SetSlot;
    var dirs', c := SetSlot(dirs, k, j, e), FirstCluster(e);
    RefAfter(dirs, k, j, e);
    SetSlotKeys(dirs, k, j, e);
    assert Ref(dirs', k, j, c);
    forall x | x in ch && x != root && x != c
      ensures Referenced(dirs', x)
    {
      var a, b :| Ref(dirs, a, b, x);
      assert Ref(dirs', a, b, x);
    }
  }

  /** A record stops owning its chain. */
  lemma LinksRemove(ch: Chains, dirs: Dirs, root: nat, k: nat, j: nat, e: Entry, c: nat)
    requires LinksOk(ch, dirs, root) && Ref(dirs, k, j, c) && !Owns(e)
    ensures LinksBut(ch, SetSlot(dirs, k, j, e), root, c)
  {
    hide Owns;
    hide FirstCluster;
    hide IsDir;
    hide SetSlot;
    var dirs' := SetSlot(dirs, k, j, e);
    RefAfter(dirs, k, j, e);
    SetSlotKeys(dirs, k, j, e);
    forall x | x in ch && x != root && x != c
      ensures Referenced(dirs', x)
    {
      var a, b :| Ref(dirs, a, b, x);
      assert Ref(dirs', a, b, x);
    }
  }

  /** A record changes but owns what it owned. */
  lemma LinksKeep(ch: Chains, dirs: Dirs, root: nat, k: nat, j: nat, e: Entry)
    requires LinksOk(ch, dirs, root) && k in dirs && j < |dirs[k]|
    requires Owns(e) <==> Owns(dirs[k][j])
    requires Owns(e) ==> FirstCluster(e) == FirstCluster(dirs[k][j]) && (IsDir(e) <==> IsDir(dirs[k][j]))
    ensures LinksOk(ch, SetSlot(dirs, k, j, e), root)
  {
    hide Owns;
    hide FirstCluster;
    hide IsDir;
    hide SetSlot;
    var dirs' := SetSlot(dirs, k, j, e);
    RefAfter(dirs, k, j, e);
    SetSlotKeys(dirs, k, j, e);
    assert forall x: nat, y: nat, c: nat :: Ref(dirs', x, y, c) <==> Ref(dirs, x, y, c);
    assert RefsOk(ch, dirs', root) by {
      forall x: nat, y: nat, c: nat | Ref(dirs', x, y, c)
        ensures c in ch && c != root && (c in dirs' <==> IsDir(dirs'[x][y]))
      {
        assert Ref(dirs, x, y, c);
      }
    }
    forall x | x in ch && x != root
      ensures Referenced(dirs', x)
    {
      var a, b :| Ref(dirs, a, b, x);
      assert Ref(dirs', a, b, x);
    }
  }

  /** A fresh chain has no owner. */
  lemma LinksFresh(ch: Chains, dirs: Dirs, root: nat, c: nat, cs: seq<nat>)
    requires LinksOk(ch, dirs, root) && c !in ch && c !in dirs && root in ch
    ensures LinksBut(ch[c := cs], dirs, root, c)
  {
    hide Owns;
    hide FirstCluster;
    hide IsDir;
  }

  ghost predicate OwnsNothing(es: seq<Entry>) {
    forall j :: 0 <= j < |es| ==> !Owns(es[j])
  }

  /** The fresh chain becomes a directory that owns nothing. */
  lemma LinksNewDir(ch: Chains, dirs: Dirs, root: nat, c: nat, es: seq<Entry>)
    requires LinksBut(ch, dirs, root, c) && c !in dirs && OwnsNothing(es)
    ensures LinksBut(ch, dirs[c := es], root, c)
  {
    hide Owns;
    hide FirstCluster;
    hide IsDir;
    var dirs' := dirs[c := es];
    assert forall k: nat, j: nat, x: nat :: Ref(dirs', k, j, x) ==> k != c && Ref(dirs, k, j, x);
    forall x | x in ch && x != root && x != c
      ensures Referenced(dirs', x)
    {
      var a, b :| Ref(dirs, a, b, x);
      assert Ref(dirs', a, b, x);
    }
  }

  function Without(dirs: Dirs, c: nat): Dirs {
    map k | k in dirs && k != c :: dirs[k]
  }

  /** The chain without an owner goes away, with its directory if it was one. */
  lemma LinksDrop(ch: Chains, dirs: Dirs, root: nat, c: nat)
    requires LinksBut(ch, dirs, root, c) && (c in dirs ==> OwnsNothing(dirs[c]))
    ensures LinksOk(Removed(ch, c), Without(dirs, c), root)
  {
    hide Owns;
    hide FirstCluster;
    hide IsDir;
    var ch', dirs' := Removed(ch, c), Without(dirs, c);
    assert forall k: nat, j: nat, x: nat :: Ref(dirs', k, j, x) ==> k != c && Ref(dirs, k, j, x);
    forall x | x in ch' && x != root
      ensures Referenced(dirs', x)
    {
      var a, b :| Ref(dirs, a, b, x);
      assert Ref(dirs', a, b, x);
    }
  }

  // -------------------------------------------------------------- operations

  /** Same keys, so the same links: what the tree asks of a FAT is its partition. */
  lemma TreeSameKeys(fat: seq<nat>, ch: Chains, fat': seq<nat>, ch': Chains, dirs: Dirs, root: nat)
    requires TreeOk(fat, ch, dirs, root) && Partition(fat', ch') && ch'.Keys == ch.Keys
    ensures TreeOk(fat', ch', dirs, root)
  {
    hide Partition;
    hide DirOk;
    hide Ref;
    assert forall c :: c in ch' <==> c in ch;
  }

  lemma DirsSetSlot(ch: Chains, dirs: Dirs, root: nat, k: nat, j: nat, e: Entry)
    requires DirsOk(ch, dirs, root) && k in dirs && j < |dirs[k]| && DirOk(Put(dirs[k], j, e))
    ensures DirsOk(ch, SetSlot(dirs, k, j, e), root)
  {
    hide DirOk;
  }

  /** A free slot owns nothing. */
  lemma FreeOwnsNothing(e: Entry)
    requires !InUse(e)
    ensures !Owns(e)
  {
  }

  lemma DeletedOwnsNothing(e: Entry)
    ensures !InUse(Deleted(e)) && !Owns(Deleted(e))
  {
  }

  lemma OwnsLive(e: Entry)
    requires Owns(e)
    ensures Live(e) && InUse(e) && !IsDot(e) && FirstCluster(e) != 0
  {
  }

  lemma OwnerIsOther(ch: Chains, dirs: Dirs, root: nat, k: nat, j: nat, c: nat)
    requires RefsOk(ch, dirs, root) && Ref(dirs, k, j, c) && (c in dirs ==> OwnsNothing(dirs[c]))
    ensures c in ch && c != root && k != c && InUse(dirs[k][j])
  {
    hide Owns;
    OwnsLive(dirs[k][j]);
  }

  lemma DirsDrop(ch: Chains, dirs: Dirs, root: nat, c: nat)
    requires DirsOk(ch, dirs, root) && c != root
    ensures DirsOk(Removed(ch, c), Without(dirs, c), root)
  {
    hide DirOk;
  }

  /** `CreateHandler` with `O_CREATE`: a new one-cluster file in a free slot. */
  lemma TreeCreate(fat: seq<nat>, ch: Chains, dirs: Dirs, root: nat, k: nat, j: nat, c: nat, e: Entry)
    requires TreeOk(fat, ch, dirs, root) && 2 <= c < |fat| && fat[c] == 0
    requires k in dirs && j < |dirs[k]| && Taken(dirs[k], j) && !InUse(dirs[k][j])
    requires Owns(e) && FirstCluster(e) == c && !IsDir(e) && Absent(dirs[k], NameOf(e))
    ensures TreeOk(fat[c := EOC], ch[c := [c]], SetSlot(dirs, k, j, e), root)
  {
    PartitionAlloc(fat, ch, c);
    DirInsert(dirs[k], j, e);
    FreeOwnsNothing(dirs[k][j]);
    hide Partition;
    hide DirOk;
    hide LinksOk;
    hide LinksBut;
    hide Owns;
    LinksFresh(ch, dirs, root, c, [c]);
    LinksAdd(ch[c := [c]], dirs, root, k, j, e);
    DirsSetSlot(ch[c := [c]], dirs, root, k, j, e);
  }

  /** `MakeDir`: the new cluster is a directory that owns nothing yet. */
  lemma TreeMakeDir(fat: seq<nat>, ch: Chains, dirs: Dirs, root: nat, k: nat, j: nat, c: nat, e: Entry, es: seq<Entry>)
    requires TreeOk(fat, ch, dirs, root) && 2 <= c < |fat| && fat[c] == 0
    requires k in dirs && j < |dirs[k]| && Taken(dirs[k], j) && !InUse(dirs[k][j])
    requires Owns(e) && FirstCluster(e) == c && IsDir(e) && Absent(dirs[k], NameOf(e))
    requires DirOk(es) && OwnsNothing(es)
    ensures c !in dirs
    ensures TreeOk(fat[c := EOC], ch[c := [c]], SetSlot(dirs[c := es], k, j, e), root)
  {
    hide Partition;
    hide DirOk;
    hide LinksOk;
    hide LinksBut;
    hide Owns;
    hide OwnsNothing;
    hide InUse;
    hide Live;
    OwnsLive(e);
    PartitionAlloc(fat, ch, c);
    DirInsert(dirs[k], j, e);
    FreeOwnsNothing(dirs[k][j]);
    LinksFresh(ch, dirs, root, c, [c]);
    LinksNewDir(ch[c := [c]], dirs, root, c, es);
    LinksAdd(ch[c := [c]], dirs[c := es], root, k, j, e);
    DirsSetSlot(ch[c := [c]], dirs[c := es], root, k, j, e);
  }

  /** `find_free_dir_entry` when the directory is full: it grows by a zeroed cluster. */
  lemma TreeGrow(fat: seq<nat>, ch: Chains, dirs: Dirs, root: nat, k: nat, c: nat, n: nat)
    requires k in ch && k in dirs && TreeOk(fat, ch, dirs, root) && 2 <= c < |fat| && fat[c] == 0
    ensures TreeOk(LinkFat(fat, ch[k], c), ch[k := ch[k] + [c]], dirs[k := Grown(dirs[k], n)], root)
  {
    hide Partition;
    hide DirOk;
    hide LinksOk;
    hide Grown;
    LinkFatExtends(fat, ch, k, c);
    DirGrow(dirs[k], n);
    LinksGrow(ch, dirs, root, k, n);
    LinksSameKeys(ch, ch[k := ch[k] + [c]], dirs[k := Grown(dirs[k], n)], root);
  }

  /** The FAT after c was allocated and linked behind the chain cs. */
  lemma LinkFatExtends(fat: seq<nat>, ch: Chains, k: nat, c: nat)
    requires Partition(fat, ch) && k in ch && 2 <= c < |fat| && fat[c] == 0
    ensures Partition(LinkFat(fat, ch[k], c), ch[k := ch[k] + [c]])
  {
    PartitionExtend(fat, ch, k, c);
  }

  lemma LinksSameKeys(ch: Chains, ch': Chains, dirs: Dirs, root: nat)
    requires LinksOk(ch, dirs, root) && ch'.Keys == ch.Keys
    ensures LinksOk(ch', dirs, root)
  {
    hide Ref;
    assert forall c :: c in ch' <==> c in ch;
  }

  lemma LinksGrow(ch: Chains, dirs: Dirs, root: nat, k: nat, n: nat)
    requires LinksOk(ch, dirs, root) && k in dirs
    ensures LinksOk(ch, dirs[k := Grown(dirs[k], n)], root)
  {
    var dirs' := dirs[k := Grown(dirs[k], n)];
    FreeOwnsNothing(ZeroEntry());
    hide Owns;
    hide FirstCluster;
    hide IsDir;
    assert forall x: nat, y: nat, c: nat :: Ref(dirs', x, y, c) <==> Ref(dirs, x, y, c);
    forall x: nat, y: nat, c: nat | Ref(dirs', x, y, c)
      ensures c in ch && c != root && (c in dirs' <==> IsDir(dirs'[x][y]))
    {
      assert Ref(dirs, x, y, c);
    }
    forall x | x in ch && x != root
      ensures Referenced(dirs', x)
    {
      var a, b :| Ref(dirs, a, b, x);
      assert Ref(dirs', a, b, x);
    }
  }

  /** `Unlink` of a record that owns a chain. */
  lemma TreeUnlink(fat: seq<nat>, ch: Chains, dirs: Dirs, root: nat, k: nat, j: nat, c: nat)
    requires TreeOk(fat, ch, dirs, root) && Ref(dirs, k, j, c) && (c in dirs ==> OwnsNothing(dirs[c]))
    ensures c in ch && k != c
    ensures TreeOk(Freed(fat, Elements(ch[c])), Removed(ch, c), Without(SetSlot(dirs, k, j, Deleted(dirs[k][j])), c),
                   root)
  {
    hide Partition;
    hide DirOk;
    hide LinksBut;
    hide Owns;
    hide OwnsNothing;
    hide Ref;
    hide RefsUnique;
    hide RefsCover;
    hide InUse;
    OwnerIsOther(ch, dirs, root, k, j, c);
    RefInside(dirs, k, j, c);
    var e := Deleted(dirs[k][j]);
    var dirs' := SetSlot(dirs, k, j, e);
    PartitionFree(fat, ch, c);
    DirDelete(dirs[k], j);
    DeletedOwnsNothing(dirs[k][j]);
    LinksRemove(ch, dirs, root, k, j, e, c);
    assert c in dirs' ==> dirs'[c] == dirs[c];
    LinksDrop(ch, dirs', root, c);
    DirsSetSlot(ch, dirs, root, k, j, e);
    DirsDrop(ch, dirs', root, c);
  }

  lemma RefInside(dirs: Dirs, k: nat, j: nat, c: nat)
    requires Ref(dirs, k, j, c)
    ensures k in dirs && j < |dirs[k]| && Owns(dirs[k][j]) && FirstCluster(dirs[k][j]) == c
  {
  }

  /** `Unlink` of a record without a chain. */
  lemma TreeUnlinkEmpty(fat: seq<nat>, ch: Chains, dirs: Dirs, root: nat, k: nat, j: nat)
    requires TreeOk(fat, ch, dirs, root) && k in dirs && j < |dirs[k]| && InUse(dirs[k][j]) && !Owns(dirs[k][j])
    ensures TreeOk(fat, ch, SetSlot(dirs, k, j, Deleted(dirs[k][j])), root)
  {
    DirDelete(dirs[k], j);
    DeletedOwnsNothing(dirs[k][j]);
    hide Partition;
    hide DirOk;
    hide LinksOk;
    hide Owns;
    LinksKeep(ch, dirs, root, k, j, Deleted(dirs[k][j]));
    DirsSetSlot(ch, dirs, root, k, j, Deleted(dirs[k][j]));
  }

  /** Renaming a record, or changing its size: the payload that matters stays. */
  /** A record that owns no chain before or after can be any that keeps its directory in order. */
  lemma TreeRelabel(fat: seq<nat>, ch: Chains, dirs: Dirs, root: nat, k: nat, j: nat, e: Entry)
    requires TreeOk(fat, ch, dirs, root) && k in dirs && j < |dirs[k]|
    requires !Owns(dirs[k][j]) && !Owns(e) && DirOk(Put(dirs[k], j, e))
    ensures TreeOk(fat, ch, SetSlot(dirs, k, j, e), root)
  {
    hide Partition;
    hide DirOk;
    hide LinksOk;
    hide Owns;
    LinksKeep(ch, dirs, root, k, j, e);
    DirsSetSlot(ch, dirs, root, k, j, e);
  }

  lemma TreeReplace(fat: seq<nat>, ch: Chains, dirs: Dirs, root: nat, k: nat, j: nat, e: Entry)
    requires TreeOk(fat, ch, dirs, root) && k in dirs && j < |dirs[k]|
    requires Live(dirs[k][j]) && !IsDot(dirs[k][j]) && Live(e) && !IsDot(e)
    requires FirstCluster(e) == FirstCluster(dirs[k][j]) && e[11] == dirs[k][j][11]
    requires NameOf(e) == NameOf(dirs[k][j]) || Absent(dirs[k], NameOf(e))
    ensures TreeOk(fat, ch, SetSlot(dirs, k, j, e), root)
  {
    assert IsDir(e) <==> IsDir(dirs[k][j]);
    DirReplace(dirs[k], j, e);
    assert Owns(e) <==> Owns(dirs[k][j]);
    hide Partition;
    hide DirOk;
    hide LinksOk;
    hide Owns;
    LinksKeep(ch, dirs, root, k, j, e);
    DirsSetSlot(ch, dirs, root, k, j, e);
  }

  /** A file without a chain gets its first cluster. */
  lemma TreeAttach(fat: seq<nat>, ch: Chains, dirs: Dirs, root: nat, k: nat, j: nat, c: nat, e: Entry)
    requires TreeOk(fat, ch, dirs, root) && 2 <= c < |fat| && fat[c] == 0
    requires k in dirs && j < |dirs[k]| && Live(dirs[k][j]) && FirstCluster(dirs[k][j]) == 0 && !IsDir(dirs[k][j])
    requires Owns(e) && FirstCluster(e) == c && NameOf(e) == NameOf(dirs[k][j]) && !IsDir(e)
    ensures TreeOk(fat[c := EOC], ch[c := [c]], SetSlot(dirs, k, j, e), root)
  {
    PartitionAlloc(fat, ch, c);
    DirReplace(dirs[k], j, e);
    assert !Owns(dirs[k][j]);
    hide Partition;
    hide DirOk;
    hide LinksOk;
    hide LinksBut;
    hide Owns;
    LinksFresh(ch, dirs, root, c, [c]);
    LinksAdd(ch[c := [c]], dirs, root, k, j, e);
    DirsSetSlot(ch[c := [c]], dirs, root, k, j, e);
  }

  /** `mv` into a directory: the record is copied to a free slot there, then deleted. */
  lemma TreeMove(fat: seq<nat>, ch: Chains, dirs: Dirs, root: nat, k: nat, j: nat, k': nat, j': nat)
    requires TreeOk(fat, ch, dirs, root) && k in dirs && j < |dirs[k]| && Live(dirs[k][j])
    requires k' in dirs && j' < |dirs[k']| && Taken(dirs[k'], j') && !InUse(dirs[k'][j'])
    requires Absent(dirs[k'], NameOf(dirs[k][j]))
    ensures TreeOk(fat, ch, SetSlot(SetSlot(dirs, k', j', dirs[k][j]), k, j, Deleted(dirs[k][j])), root)
  {
    hide Partition;
    hide DirOk;
    hide LinksOk;
    hide Owns;
    hide IsDot;
    hide SetSlot;
    var e := dirs[k][j];
    var del := Deleted(e);
    assert k != k';
    LiveDirHasCluster(dirs[k], j);
    DirDelete(dirs[k], j);
    DirInsert(dirs[k'], j', e);
    DeletedOwnsNothing(e);
    FreeOwnsNothing(dirs[k'][j']);
    SetSlotOther(dirs, k, j, del, k', j', e);
    DirsSetSlot(ch, dirs, root, k, j, del);
    DirsSetSlot(ch, SetSlot(dirs, k, j, del), root, k', j', e);
    MoveLinks(ch, dirs, root, k, j, k', j');
  }

  lemma LiveDirHasCluster(es: seq<Entry>, j: nat)
    requires DirOk(es) && j < |es| && Live(es[j])
    ensures !IsDot(es[j]) && IsDir(es[j]) ==> FirstCluster(es[j]) != 0
  {
  }

  lemma SetSlotOther(dirs: Dirs, k: nat, j: nat, e: Entry, k': nat, j': nat, e': Entry)
    requires k in dirs && j < |dirs[k]| && k' in dirs && j' < |dirs[k']| && k != k'
    ensures k in SetSlot(dirs, k', j', e') && SetSlot(dirs, k', j', e')[k] == dirs[k]
    ensures k' in SetSlot(dirs, k, j, e) && SetSlot(dirs, k, j, e)[k'] == dirs[k']
    ensures SetSlot(SetSlot(dirs, k', j', e'), k, j, e) == SetSlot(SetSlot(dirs, k, j, e), k', j', e')
  {
  }

  lemma MoveLinks(ch: Chains, dirs: Dirs, root: nat, k: nat, j: nat, k': nat, j': nat)
    requires LinksOk(ch, dirs, root) && k in dirs && j < |dirs[k]| && k' in dirs && j' < |dirs[k']| && k != k'
    requires !Owns(dirs[k'][j']) && !Owns(Deleted(dirs[k][j]))
    ensures LinksOk(ch, SetSlot(SetSlot(dirs, k, j, Deleted(dirs[k][j])), k', j', dirs[k][j]), root)
  {
    hide Owns;
    hide LinksBut;
    var e := dirs[k][j];
    var del := Deleted(e);
    hide Deleted;
    if Owns(e) {
      assert Ref(dirs, k, j, FirstCluster(e));
      LinksRemove(ch, dirs, root, k, j, del, FirstCluster(e));
      LinksAdd(ch, SetSlot(dirs, k, j, del), root, k', j', e);
    } else {
      LinksKeep(ch, dirs, root, k, j, del);
      LinksKeep(ch, SetSlot(dirs, k, j, del), root, k', j', e);
    }
  }
}
