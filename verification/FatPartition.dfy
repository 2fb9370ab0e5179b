/**
  The ownership invariant of the FAT: the clusters in use are partitioned into
  finite chains, one per key.  A chain's key is its first cluster.  Each
  `Partition...` lemma is one thing the engine does to the FAT and says what
  happens to the partition.
 */
module FatPartition {
  import opened FatDisk
  import opened FatChain

  type Chains = map<nat, seq<nat>>

  /** Each key heads its own chain. */
  ghost predicate Heads(fat: seq<nat>, ch: Chains) {
    forall k :: k in ch ==> IsChain(fat, ch[k]) && ch[k][0] == k
  }

  /** No two chains meet. */
  ghost predicate Disjoint(ch: Chains) {
    forall k, j, c :: k in ch && j in ch && c in ch[k] && c in ch[j] ==> k == j
  }

  ghost predicate OnSomeChain(ch: Chains, c: nat) {
    exists k :: k in ch && c in ch[k]
  }

  /** Every entry in use is on some chain. */
  ghost predicate Covered(fat: seq<nat>, ch: Chains) {
    forall c :: 2 <= c < |fat| && fat[c] != 0 ==> OnSomeChain(ch, c)
  }

  /** Nothing shared, nothing lost. */
  ghost predicate Partition(fat: seq<nat>, ch: Chains) {
    2 <= |fat| <= EOC_MIN && Heads(fat, ch) && Disjoint(ch) && Covered(fat, ch)
  }

  lemma PartitionDisjoint(fat: seq<nat>, ch: Chains)
    requires Partition(fat, ch)
    ensures Disjoint(ch)
  {
  }

  lemma OwnedIsUsed(fat: seq<nat>, cs: seq<nat>, c: nat)
    requires IsChain(fat, cs) && c in cs
    ensures 2 <= c < |fat| && fat[c] != 0
  {
    var i :| 0 <= i < |cs| && cs[i] == c;
    if i < |cs| - 1 {
      assert fat[cs[i]] == cs[i + 1];
    }
  }

  /** A cluster is in use exactly when it is on a chain, and then on one chain only. */
  lemma UsedIffOwned(fat: seq<nat>, ch: Chains, c: nat)
    requires Partition(fat, ch) && 2 <= c < |fat|
    ensures fat[c] != 0 <==> OnSomeChain(ch, c)
    ensures forall k, j :: k in ch && j in ch && c in ch[k] && c in ch[j] ==> k == j
  {
    if OnSomeChain(ch, c) {
      var k :| k in ch && c in ch[k];
      OwnedIsUsed(fat, ch[k], c);
    }
  }

  lemma PartitionInRange(fat: seq<nat>, ch: Chains)
    requires Partition(fat, ch)
    ensures InRange(fat)
  {
    forall c | 2 <= c < |fat| && fat[c] != 0
      ensures fat[c] < |fat| || EOC_MIN <= fat[c]
    {
      assert OnSomeChain(ch, c);
      var k :| k in ch && c in ch[k];
      var i :| 0 <= i < |ch[k]| && ch[k][i] == c;
      assert i < |ch[k]| - 1 ==> fat[ch[k][i]] == ch[k][i + 1];
    }
  }

  /** Entries that no chain other than k's uses may change freely for the others. */
  lemma OtherChains(fat: seq<nat>, fat': seq<nat>, ch: Chains, k: nat, j: nat)
    requires Partition(fat, ch) && k in ch && j in ch && j != k && |fat'| == |fat|
    requires forall c :: 0 <= c < |fat| && c !in ch[k] ==> fat'[c] == fat[c]
    ensures IsChain(fat', ch[j])
  {
    forall i | 0 <= i < |ch[j]|
      ensures fat'[ch[j][i]] == fat[ch[j][i]]
    {
      assert ch[j][i] in ch[j];
    }
    ChainFrame(fat, fat', ch[j]);
  }

  // ------------------------------------------------------------- alloc_cluster

  lemma PartitionAlloc(fat: seq<nat>, ch: Chains, c: nat)
    requires Partition(fat, ch) && 2 <= c < |fat| && fat[c] == 0
    ensures c !in ch && !OnSomeChain(ch, c)
    ensures Partition(fat[c := EOC], ch[c := [c]])
  {
    UsedIffOwned(fat, ch, c);
    AllocHeads(fat, ch, c);
    AllocDisjoint(ch, c);
    AllocCovered(fat, ch, c);
  }

  lemma AllocHeads(fat: seq<nat>, ch: Chains, c: nat)
    requires Heads(fat, ch) && 2 <= c < |fat| && !OnSomeChain(ch, c)
    ensures c !in ch && Heads(fat[c := EOC], ch[c := [c]])
  {
    forall k | k in ch
      ensures k != c && IsChain(fat[c := EOC], ch[k])
    {
      assert ch[k][0] in ch[k];
      ChainFrame(fat, fat[c := EOC], ch[k]);
    }
    assert [c][0] == c;
  }

  lemma AllocDisjoint(ch: Chains, c: nat)
    requires Disjoint(ch) && c !in ch && !OnSomeChain(ch, c)
    ensures Disjoint(ch[c := [c]])
  {
    var ch' := ch[c := [c]];
    forall a, b, x | a in ch' && b in ch' && x in ch'[a] && x in ch'[b]
      ensures a == b
    {
      if x != c {
        assert x in ch[a] && x in ch[b];
      }
    }
  }

  lemma AllocCovered(fat: seq<nat>, ch: Chains, c: nat)
    requires Covered(fat, ch) && 2 <= c < |fat| && c !in ch
    ensures Covered(fat[c := EOC], ch[c := [c]])
  {
    var ch' := ch[c := [c]];
    forall x | 2 <= x < |fat| && fat[c := EOC][x] != 0
      ensures OnSomeChain(ch', x)
    {
      if x == c {
        assert c in ch' && x in ch'[c];
      } else {
        var k :| k in ch && x in ch[k];
        assert k in ch' && x in ch'[k];
      }
    }
  }

  // -------------------------------------------------------- alloc, then link

  /** Linking the fresh one-cluster chain c behind chain k. */
  lemma PartitionExtend(fat: seq<nat>, ch: Chains, k: nat, c: nat)
    requires Partition(fat, ch) && k in ch && 2 <= c < |fat| && fat[c] == 0
    ensures !OnSomeChain(ch, c)
    ensures Partition(fat[c := EOC][ch[k][|ch[k]| - 1] := c], ch[k := ch[k] + [c]])
  {
    PartitionAlloc(fat, ch, c);
    ExtendFat(fat, ch[k], c);
    var fat' := fat[c := EOC][ch[k][|ch[k]| - 1] := c];
    ExtendHeads(fat, fat', ch, k, c);
    ExtendDisjoint(ch, k, c);
    ExtendCovered(fat, fat', ch, k, c);
  }

  lemma ExtendFat(fat: seq<nat>, cs: seq<nat>, c: nat)
    requires IsChain(fat, cs) && 2 <= c < |fat| <= EOC_MIN && fat[c] == 0
    ensures IsChain(fat[c := EOC][cs[|cs| - 1] := c], cs + [c])
    ensures forall x :: 0 <= x < |fat| && x != c && x !in cs ==>
              fat[c := EOC][cs[|cs| - 1] := c][x] == fat[x]
  {
    if c in cs {
      OwnedIsUsed(fat, cs, c);
    }
    ChainFrame(fat, fat[c := EOC], cs);
    assert [c][0] == c;
    ChainAppend(fat[c := EOC], cs, c);
  }

  lemma ExtendHeads(fat: seq<nat>, fat': seq<nat>, ch: Chains, k: nat, c: nat)
    requires Heads(fat, ch) && Disjoint(ch) && k in ch && |fat'| == |fat| && !OnSomeChain(ch, c)
    requires IsChain(fat', ch[k] + [c])
    requires forall x :: 0 <= x < |fat| && x != c && x !in ch[k] ==> fat'[x] == fat[x]
    ensures Heads(fat', ch[k := ch[k] + [c]])
  {
    assert (ch[k] + [c])[0] == k;
    forall j | j in ch && j != k
      ensures IsChain(fat', ch[j])
    {
      forall i | 0 <= i < |ch[j]|
        ensures fat'[ch[j][i]] == fat[ch[j][i]]
      {
        assert ch[j][i] in ch[j];
      }
      ChainFrame(fat, fat', ch[j]);
    }
  }

  lemma ExtendDisjoint(ch: Chains, k: nat, c: nat)
    requires Disjoint(ch) && k in ch && !OnSomeChain(ch, c)
    ensures Disjoint(ch[k := ch[k] + [c]])
  {
    var ch' := ch[k := ch[k] + [c]];
    forall a, b, x | a in ch' && b in ch' && x in ch'[a] && x in ch'[b]
      ensures a == b
    {
      if x != c {
        assert x in ch[a] && x in ch[b];
      }
    }
  }

  lemma ExtendCovered(fat: seq<nat>, fat': seq<nat>, ch: Chains, k: nat, c: nat)
    requires Covered(fat, ch) && k in ch && |fat'| == |fat|
    requires forall x :: 0 <= x < |fat| && x != c && x !in ch[k] ==> fat'[x] == fat[x]
    ensures Covered(fat', ch[k := ch[k] + [c]])
  {
    var ch' := ch[k := ch[k] + [c]];
    forall x | 2 <= x < |fat'| && fat'[x] != 0
      ensures OnSomeChain(ch', x)
    {
      if x == c || x in ch[k] {
        assert k in ch' && x in ch'[k];
      } else {
        var j :| j in ch && x in ch[j];
        assert j in ch' && x in ch'[j];
      }
    }
  }

  // ------------------------------------------------------- clear_cluster_chain

  function Removed(ch: Chains, k: nat): Chains {
    map j | j in ch && j != k :: ch[j]
  }

  /** Freeing exactly the clusters of chain k. */
  lemma PartitionFree(fat: seq<nat>, ch: Chains, k: nat)
    requires Partition(fat, ch) && k in ch
    ensures Partition(Freed(fat, Elements(ch[k])), Removed(ch, k))
  {
    var fat', ch' := Freed(fat, Elements(ch[k])), Removed(ch, k);
    forall j | j in ch'
      ensures IsChain(fat', ch'[j])
    {
      OtherChains(fat, fat', ch, k, j);
    }
    forall x | 2 <= x < |fat'| && fat'[x] != 0
      ensures OnSomeChain(ch', x)
    {
      var j :| j in ch && x in ch[j];
      assert j in ch' && x in ch'[j];
    }
  }

  /** `O_TRUNC`: end the chain after its first cluster, then free the rest. */
  lemma PartitionTruncate(fat: seq<nat>, ch: Chains, k: nat)
    requires Partition(fat, ch) && k in ch
    ensures Partition(Freed(fat[k := EOC], Elements(ch[k][1..])), ch[k := [k]])
  {
    TruncateFat(fat, ch[k]);
    TruncateHeads(fat, ch, k);
    TruncateDisjoint(ch, k);
    TruncateCovered(fat, ch, k);
  }

  lemma TruncateHeads(fat: seq<nat>, ch: Chains, k: nat)
    requires Partition(fat, ch) && k in ch
    ensures Heads(Freed(fat[k := EOC], Elements(ch[k][1..])), ch[k := [k]])
  {
    TruncateFat(fat, ch[k]);
    forall j | j in ch && j != k
      ensures IsChain(Freed(fat[k := EOC], Elements(ch[k][1..])), ch[j])
    {
      OtherChains(fat, Freed(fat[k := EOC], Elements(ch[k][1..])), ch, k, j);
    }
  }

  lemma TruncateFat(fat: seq<nat>, cs: seq<nat>)
    requires IsChain(fat, cs) && |fat| <= EOC_MIN
    ensures cs[0] in cs
    ensures IsChain(Freed(fat[cs[0] := EOC], Elements(cs[1..])), [cs[0]])
    ensures forall c :: 0 <= c < |fat| && c !in cs ==>
              Freed(fat[cs[0] := EOC], Elements(cs[1..]))[c] == fat[c]
  {
    ChainDistinct(fat, cs);
    assert [cs[0]][0] == cs[0];
  }

  lemma TruncateCovered(fat: seq<nat>, ch: Chains, k: nat)
    requires Covered(fat, ch) && k in ch && k < |fat| && |ch[k]| > 0 && ch[k][0] == k
    ensures Covered(Freed(fat[k := EOC], Elements(ch[k][1..])), ch[k := [k]])
  {
    var cs := ch[k];
    var fat', ch' := Freed(fat[k := EOC], Elements(cs[1..])), ch[k := [k]];
    assert cs == [k] + cs[1..];
    forall x | 2 <= x < |fat| && fat'[x] != 0
      ensures OnSomeChain(ch', x)
    {
      if x == k {
        assert k in ch' && x in ch'[k];
      } else {
        assert x !in cs[1..];
        var j :| j in ch && x in ch[j];
        assert j in ch' && x in ch'[j];
      }
    }
  }

  lemma TruncateDisjoint(ch: Chains, k: nat)
    requires Disjoint(ch) && k in ch && k in ch[k]
    ensures Disjoint(ch[k := [k]])
  {
    var ch' := ch[k := [k]];
    forall a, b, x | a in ch' && b in ch' && x in ch'[a] && x in ch'[b]
      ensures a == b
    {
      assert x in ch[a] && x in ch[b];
    }
  }

  // ---------------------------------------------------------------- lengthening

  /** `alloc_cluster` followed by `set_next_cluster` on the last cluster of cs. */
  ghost function LinkFat(fat: seq<nat>, cs: seq<nat>, c: nat): seq<nat> {
    if |cs| > 0 && cs[|cs| - 1] < |fat| && c < |fat| then fat[c := EOC][cs[|cs| - 1] := c] else fat
  }

  /** Chain cs became cs' by linking free clusters behind it, one after the other. */
  ghost predicate Lengthened(fat: seq<nat>, cs: seq<nat>, fat': seq<nat>, cs': seq<nat>)
    decreases |cs'|
  {
    || (fat' == fat && cs' == cs)
    || (|cs| < |cs'| && exists mid: seq<nat> :: LinksLast(mid, fat', cs') && Lengthened(fat, cs, mid, cs'[..|cs'| - 1]))
  }

  /** The last cluster of cs was free and is linked behind the others. */
  ghost predicate LinksLast(fat: seq<nat>, fat': seq<nat>, cs: seq<nat>) {
    |cs| > 0 && Vacant(fat, cs[|cs| - 1]) && fat' == LinkFat(fat, cs[..|cs| - 1], cs[|cs| - 1])
  }

  ghost predicate Vacant(fat: seq<nat>, c: nat) {
    2 <= c < |fat| && fat[c] == 0
  }

  lemma LengthenedMore(fat: seq<nat>, cs: seq<nat>, mid: seq<nat>, cs1: seq<nat>, c: nat)
    requires Lengthened(fat, cs, mid, cs1) && |cs| <= |cs1| && Vacant(mid, c)
    ensures Lengthened(fat, cs, LinkFat(mid, cs1, c), cs1 + [c])
  {
    var cs2 := cs1 + [c];
    assert cs2[..|cs2| - 1] == cs1;
    assert LinksLast(mid, LinkFat(mid, cs1, c), cs2);
  }

  // ------------------------------------------------------------------ free clusters

  ghost function FreeClusters(fat: seq<nat>): set<nat> {
    set c: nat | 2 <= c < |fat| && fat[c] == 0
  }

  lemma NoneFree(fat: seq<nat>)
    ensures |FreeClusters(fat)| == 0 <==> forall c :: 2 <= c < |fat| ==> fat[c] != 0
  {
    if |FreeClusters(fat)| == 0 {
      forall c: nat | 2 <= c < |fat|
        ensures fat[c] != 0
      {
        assert c !in FreeClusters(fat);
      }
    } else {
      var c :| c in FreeClusters(fat);
    }
  }

  /** Allocating takes one cluster from the free ones. */
  lemma AllocTakes(fat: seq<nat>, c: nat)
    requires Vacant(fat, c)
    ensures FreeClusters(fat[c := EOC]) == FreeClusters(fat) - {c}
    ensures |FreeClusters(fat[c := EOC])| + 1 == |FreeClusters(fat)|
  {
    var s := FreeClusters(fat);
    assert c in s && FreeClusters(fat[c := EOC]) == s - {c};
  }

  /** So does linking a cluster behind a chain. */
  lemma LinkTakes(fat: seq<nat>, last: nat, c: nat)
    requires Vacant(fat, c) && last < |fat| && fat[last] != 0
    ensures |FreeClusters(fat[c := EOC][last := c])| + 1 == |FreeClusters(fat)|
  {
    AllocTakes(fat, c);
    assert FreeClusters(fat[c := EOC][last := c]) == FreeClusters(fat[c := EOC]);
  }
}
