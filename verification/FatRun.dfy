/**
  Whole runs of the file system on the abstract volume: whatever sequence of operations
  is carried out, no cluster is lost or shared and every directory stays searchable.
 */
module FatRun {
  import opened FatDisk
  import opened FatChain
  import opened FatPartition
  import opened FatEntry
  import opened FatTree

  /** The FAT, its chains by first cluster, the records of each directory, and the root. */
  datatype Vol = Vol(fat: seq<nat>, ch: Chains, dirs: Dirs, root: nat)

  /** The operations on record j of directory k; c is a cluster. */
  datatype Op =
    | Create(k: nat, j: nat, c: nat, e: Entry)
    | MakeDir(k: nat, j: nat, c: nat, e: Entry, es: seq<Entry>)
    | GrowDir(k: nat, c: nat, n: nat)
    | GrowFile(k: nat, c: nat)
    | Attach(k: nat, j: nat, c: nat, e: Entry)
    | Truncate(k: nat)
    | Update(k: nat, j: nat, e: Entry)
    | Unlink(k: nat, j: nat, c: nat)
    | UnlinkEmpty(k: nat, j: nat)
    | Relabel(k: nat, j: nat, e: Entry)
    | Move(k: nat, j: nat, k': nat, j': nat)

  ghost predicate FreeCluster(v: Vol, c: nat) {
    2 <= c < |v.fat| && v.fat[c] == 0
  }

  /** Slot j is the first free one of directory k. */
  ghost predicate FreeSlot(v: Vol, k: nat, j: nat) {
    k in v.dirs && j < |v.dirs[k]| && Taken(v.dirs[k], j) && !InUse(v.dirs[k][j])
  }

  ghost predicate LiveRecord(v: Vol, k: nat, j: nat) {
    k in v.dirs && j < |v.dirs[k]| && Live(v.dirs[k][j])
  }

  ghost predicate LiveSlot(v: Vol, k: nat, j: nat) {
    LiveRecord(v, k, j) && !IsDot(v.dirs[k][j])
  }

  /** Operations that allocate a cluster. */
  ghost predicate Allocates(v: Vol, op: Op, v': Vol) {
    match op
    case Create(k, j, c, e) =>
      && FreeCluster(v, c) && FreeSlot(v, k, j)
      && Owns(e) && FirstCluster(e) == c && !IsDir(e) && Absent(v.dirs[k], NameOf(e))
      && v' == v.(fat := v.fat[c := EOC], ch := v.ch[c := [c]], dirs := SetSlot(v.dirs, k, j, e))
    case MakeDir(k, j, c, e, es) =>
      && FreeCluster(v, c) && FreeSlot(v, k, j) && c !in v.dirs
      && Owns(e) && FirstCluster(e) == c && IsDir(e) && Absent(v.dirs[k], NameOf(e)) && DirOk(es) && OwnsNothing(es)
      && v' == v.(fat := v.fat[c := EOC], ch := v.ch[c := [c]], dirs := SetSlot(v.dirs[c := es], k, j, e))
    case GrowDir(k, c, n) =>
      && FreeCluster(v, c) && k in v.ch && k in v.dirs
      && v' == v.(fat := LinkFat(v.fat, v.ch[k], c), ch := v.ch[k := v.ch[k] + [c]],
                  dirs := v.dirs[k := Grown(v.dirs[k], n)])
    case GrowFile(k, c) =>
      && FreeCluster(v, c) && k in v.ch
      && v' == v.(fat := LinkFat(v.fat, v.ch[k], c), ch := v.ch[k := v.ch[k] + [c]])
    case Attach(k, j, c, e) =>
      && FreeCluster(v, c) && LiveSlot(v, k, j) && FirstCluster(v.dirs[k][j]) == 0 && !IsDir(v.dirs[k][j])
      && Owns(e) && FirstCluster(e) == c && NameOf(e) == NameOf(v.dirs[k][j]) && !IsDir(e)
      && v' == v.(fat := v.fat[c := EOC], ch := v.ch[c := [c]], dirs := SetSlot(v.dirs, k, j, e))
    case _ => false
  }

  /** Operations that free clusters, or none. */
  ghost predicate Changes(v: Vol, op: Op, v': Vol) {
    match op
    case Truncate(k) =>
      && k in v.ch && k < |v.fat| && |v.ch[k]| > 0
      && v' == v.(fat := Freed(v.fat[k := EOC], Elements(v.ch[k][1..])), ch := v.ch[k := [k]])
    case Update(k, j, e) =>
      && LiveSlot(v, k, j) && Live(e) && !IsDot(e)
      && FirstCluster(e) == FirstCluster(v.dirs[k][j]) && e[11] == v.dirs[k][j][11]
      && (NameOf(e) == NameOf(v.dirs[k][j]) || Absent(v.dirs[k], NameOf(e)))
      && v' == v.(dirs := SetSlot(v.dirs, k, j, e))
    case Relabel(k, j, e) =>
      && LiveRecord(v, k, j) && !Owns(v.dirs[k][j]) && !Owns(e) && DirOk(Put(v.dirs[k], j, e))
      && v' == v.(dirs := SetSlot(v.dirs, k, j, e))
    case Unlink(k, j, c) =>
      && Ref(v.dirs, k, j, c) && (c in v.dirs ==> OwnsNothing(v.dirs[c])) && c in v.ch
      && v' == v.(fat := Freed(v.fat, Elements(v.ch[c])), ch := Removed(v.ch, c),
                  dirs := Without(SetSlot(v.dirs, k, j, Deleted(v.dirs[k][j])), c))
    case UnlinkEmpty(k, j) =>
      && k in v.dirs && j < |v.dirs[k]| && InUse(v.dirs[k][j]) && !Owns(v.dirs[k][j])
      && v' == v.(dirs := SetSlot(v.dirs, k, j, Deleted(v.dirs[k][j])))
    case Move(k, j, k', j') =>
      && LiveRecord(v, k, j) && FreeSlot(v, k', j') && Absent(v.dirs[k'], NameOf(v.dirs[k][j])) && (k' == k ==> j' != j)
      && v'.fat == v.fat && v'.ch == v.ch && v'.root == v.root
      && v'.dirs == Emptied(SetSlot(v.dirs, k', j', v.dirs[k][j]), k, j, Deleted(v.dirs[k][j]))
    case _ => false
  }

  function Emptied(dirs: Dirs, k: nat, j: nat, e: Entry): Dirs {
    if k in dirs && j < |dirs[k]| then SetSlot(dirs, k, j, e) else dirs
  }

  ghost predicate Step(v: Vol, op: Op, v': Vol) {
    Allocates(v, op, v') || Changes(v, op, v')
  }

  ghost predicate Ok(v: Vol) {
    TreeOk(v.fat, v.ch, v.dirs, v.root)
  }

  lemma AllocatesKeeps(v: Vol, op: Op, v': Vol)
    requires Ok(v) && Allocates(v, op, v')
    ensures Ok(v')
  {
    hide TreeOk;
    match op
    case Create(k, j, c, e) => TreeCreate(v.fat, v.ch, v.dirs, v.root, k, j, c, e);
    case MakeDir(k, j, c, e, es) => TreeMakeDir(v.fat, v.ch, v.dirs, v.root, k, j, c, e, es);
    case GrowDir(k, c, n) => TreeGrow(v.fat, v.ch, v.dirs, v.root, k, c, n);
    case GrowFile(k, c) => FileGrows(v, k, c, v');
    case Attach(k, j, c, e) => TreeAttach(v.fat, v.ch, v.dirs, v.root, k, j, c, e);
  }

  lemma FileGrows(v: Vol, k: nat, c: nat, v': Vol)
    requires Ok(v) && Allocates(v, GrowFile(k, c), v')
    ensures Ok(v')
  {
    hide Partition;
    LinkFatExtends(v.fat, v.ch, k, c);
    TreeSameKeys(v.fat, v.ch, v'.fat, v'.ch, v.dirs, v.root);
  }

  lemma ChangesKeeps(v: Vol, op: Op, v': Vol)
    requires Ok(v) && Changes(v, op, v')
    ensures Ok(v')
  {
    hide TreeOk;
    match op
    case Truncate(k) => FileShrinks(v, k, v');
    case Update(k, j, e) => TreeReplace(v.fat, v.ch, v.dirs, v.root, k, j, e);
    case Relabel(k, j, e) => TreeRelabel(v.fat, v.ch, v.dirs, v.root, k, j, e);
    case Unlink(k, j, c) => TreeUnlink(v.fat, v.ch, v.dirs, v.root, k, j, c);
    case UnlinkEmpty(k, j) => TreeUnlinkEmpty(v.fat, v.ch, v.dirs, v.root, k, j);
    case Move(k, j, k', j') => TreeMove(v.fat, v.ch, v.dirs, v.root, k, j, k', j');
  }

  lemma FileShrinks(v: Vol, k: nat, v': Vol)
    requires Ok(v) && Changes(v, Truncate(k), v')
    ensures Ok(v')
  {
    hide Partition;
    PartitionTruncate(v.fat, v.ch, k);
    TreeSameKeys(v.fat, v.ch, v'.fat, v'.ch, v.dirs, v.root);
  }

  /** Every operation keeps the volume consistent. */
  lemma StepKeeps(v: Vol, op: Op, v': Vol)
    requires Ok(v) && Step(v, op, v')
    ensures Ok(v')
  {
    hide Ok;
    hide Allocates;
    hide Changes;
    if Allocates(v, op, v') {
      AllocatesKeeps(v, op, v');
    } else {
      ChangesKeeps(v, op, v');
    }
  }

  /** A freshly formatted volume, where only the root directory has a cluster, is a start. */
  lemma FormattedOk(v: Vol, n: nat)
    requires 2 <= v.root < |v.fat| <= EOC_MIN && v.fat[v.root] == EOC
    requires forall c :: 2 <= c < |v.fat| && c != v.root ==> v.fat[c] == 0
    requires v.ch == map[v.root := [v.root]] && v.dirs == map[v.root := Grown([], n)]
    ensures Ok(v)
  {
    var es := Grown([], n);
    assert forall i :: 0 <= i < |es| ==> es[i] == ZeroEntry();
    FreeOwnsNothing(ZeroEntry());
    assert !InUse(ZeroEntry());
    assert v.root in v.ch && v.root in v.ch[v.root] && OnSomeChain(v.ch, v.root) by {
      assert v.ch[v.root][0] == v.root;
    }
    hide Grown;
    hide Owns;
    hide IsDot;
    hide IsDir;
    assert DirOk(es);
    assert forall k: nat, j: nat, c: nat :: !Ref(v.dirs, k, j, c);
    hide Ref;
    assert LinksOk(v.ch, v.dirs, v.root);
    assert Partition(v.fat, v.ch);
  }

  /** The operations ops lead through the volumes of r. */
  ghost predicate Trace(r: seq<Vol>, ops: seq<Op>) {
    |r| == |ops| + 1 && forall i :: 0 <= i < |ops| ==> Step(r[i], ops[i], r[i + 1])
  }

  ghost predicate IsRun(r: seq<Vol>, ops: seq<Op>) {
    Trace(r, ops) && Ok(r[0])
  }

  lemma {:induction false} RunOk(r: seq<Vol>, ops: seq<Op>, i: nat)
    requires IsRun(r, ops) && i < |r|
    ensures Ok(r[i])
    decreases i
  {
    hide Ok;
    hide Step;
    if i > 0 {
      RunOk(r, ops, i - 1);
      assert Step(r[i - 1], ops[i - 1], r[i - 1 + 1]);
      StepKeeps(r[i - 1], ops[i - 1], r[i]);
    }
  }

  /** After any sequence of operations a data cluster is in use exactly when it is on the
      chain of the root or of a file or directory with a live record, it is on one chain
      only, that chain has one record only, and in every directory no record in use follows
      an end marker and names are unique. */
  lemma NothingLostOrShared(r: seq<Vol>, ops: seq<Op>, i: nat, c: nat)
    requires IsRun(r, ops) && i < |r| && 2 <= c < |r[i].fat|
    ensures r[i].fat[c] != 0
            <==> exists f :: f in r[i].ch && c in r[i].ch[f] && (f == r[i].root || Referenced(r[i].dirs, f))
    ensures forall f, f' :: f in r[i].ch && f' in r[i].ch && c in r[i].ch[f] && c in r[i].ch[f'] ==> f == f'
    ensures RefsUnique(r[i].dirs) && forall k :: k in r[i].dirs ==> DirOk(r[i].dirs[k])
  {
    RunOk(r, ops, i);
    EveryClusterAccounted(r[i].fat, r[i].ch, r[i].dirs, r[i].root, c);
    hide Partition;
  }

  // -------------------------------------------------------------- calls as operations

  /** Some sequence of operations leads from v to v'. */
  ghost predicate Reaches(v: Vol, v': Vol) {
    exists r: seq<Vol>, ops: seq<Op> :: Trace(r, ops) && r[0] == v && r[|ops|] == v'
  }

  lemma ReachSame(v: Vol)
    ensures Reaches(v, v)
  {
    assert Trace([v], []) && [v][0] == v;
  }

  lemma ReachStep(v0: Vol, v: Vol, op: Op, v': Vol)
    requires Reaches(v0, v) && Step(v, op, v')
    ensures Reaches(v0, v')
  {
    hide Step;
    var r: seq<Vol>, ops: seq<Op> :| Trace(r, ops) && r[0] == v0 && r[|ops|] == v;
    var r', ops' := r + [v'], ops + [op];
    forall i | 0 <= i < |ops'|
      ensures Step(r'[i], ops'[i], r'[i + 1])
    {
      if i < |ops| {
        assert Step(r[i], ops[i], r[i + 1]);
      }
    }
    assert Trace(r', ops') && r'[0] == v0 && r'[|ops'|] == v';
  }

  lemma {:induction false} ReachTrans(v0: Vol, v1: Vol, v2: Vol)
    requires Reaches(v0, v1) && Reaches(v1, v2)
    ensures Reaches(v0, v2)
  {
    hide Step;
    var r: seq<Vol>, ops: seq<Op> :| Trace(r, ops) && r[0] == v1 && r[|ops|] == v2;
    ReachAlong(v0, r, ops, |ops|);
  }

  lemma {:induction false} ReachAlong(v0: Vol, r: seq<Vol>, ops: seq<Op>, i: nat)
    requires Trace(r, ops) && i <= |ops| && Reaches(v0, r[0])
    ensures Reaches(v0, r[i])
    decreases i
  {
    hide Step;
    hide Reaches;
    if i > 0 {
      ReachAlong(v0, r, ops, i - 1);
      assert Step(r[i - 1], ops[i - 1], r[i - 1 + 1]);
      ReachStep(v0, r[i - 1], ops[i - 1], r[i]);
    }
  }

  /** Lengthening a chain is so many single extensions. */
  lemma {:induction false} ReachLonger(v0: Vol, v: Vol, k: nat, fat': seq<nat>, cs': seq<nat>)
    requires Reaches(v0, v) && k in v.ch && Lengthened(v.fat, v.ch[k], fat', cs')
    ensures Reaches(v0, v.(fat := fat', ch := v.ch[k := cs']))
    decreases |cs'|
  {
    hide Reaches;
    hide LinkFat;
    var v' := v.(fat := fat', ch := v.ch[k := cs']);
    if fat' == v.fat && cs' == v.ch[k] {
      assert v' == v;
    } else {
      var mid: seq<nat> :| LinksLast(mid, fat', cs') && Lengthened(v.fat, v.ch[k], mid, cs'[..|cs'| - 1]);
      var v1 := v.(fat := mid, ch := v.ch[k := cs'[..|cs'| - 1]]);
      ReachLonger(v0, v, k, mid, cs'[..|cs'| - 1]);
      var c := cs'[|cs'| - 1];
      assert cs' == cs'[..|cs'| - 1] + [c];
      assert v' == v1.(fat := LinkFat(v1.fat, v1.ch[k], c), ch := v1.ch[k := v1.ch[k] + [c]]);
      assert Allocates(v1, GrowFile(k, c), v');
      ReachStep(v0, v1, GrowFile(k, c), v');
    }
  }
}
