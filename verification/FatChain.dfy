/**
  Cluster chains.  A FAT is a sequence of numbers; a chain is the finite list of
  clusters that following the entries visits before an end marker.
 */
module FatChain {
  import opened FatDisk

  // ------------------------------------------------------------ following links

  /** cs is the chain of cs[0]: every cluster is in range, each points to the
      next one, and the last entry is an end marker. */
  ghost predicate IsChain(fat: seq<nat>, cs: seq<nat>) {
    && |cs| > 0
    && (forall i :: 0 <= i < |cs| ==> 2 <= cs[i] < |fat|)
    && (forall i {:trigger fat[cs[i]]} :: 0 <= i < |cs| - 1 ==> fat[cs[i]] == cs[i + 1])
    && EOC_MIN <= fat[cs[|cs| - 1]]
  }

  /** The links of all data clusters stay inside the FAT or are end markers. */
  ghost predicate InRange(fat: seq<nat>) {
    forall c :: 2 <= c < |fat| ==> fat[c] < |fat| || EOC_MIN <= fat[c]
  }

  ghost predicate Distinct<T>(s: seq<T>) {
    forall i, j :: 0 <= i < j < |s| ==> s[i] != s[j]
  }

  lemma ChainTail(fat: seq<nat>, cs: seq<nat>, k: nat)
    requires IsChain(fat, cs) && k < |cs|
    ensures IsChain(fat, cs[k..])
  {
    var t := cs[k..];
    forall i | 0 <= i < |t| - 1
      ensures fat[t[i]] == t[i + 1]
    {
      assert t[i] == cs[k + i] && t[i + 1] == cs[k + i + 1];
    }
    assert t[|t| - 1] == cs[|cs| - 1];
  }

  /** The FAT determines the chain of a cluster. */
  lemma {:induction false} ChainUnique(fat: seq<nat>, a: seq<nat>, b: seq<nat>)
    requires IsChain(fat, a) && IsChain(fat, b) && a[0] == b[0]
    requires |fat| <= EOC_MIN
    ensures a == b
    decreases |a|
  {
    assert |a| > 1 ==> fat[a[0]] == a[1] < |fat|;
    assert |b| > 1 ==> fat[b[0]] == b[1] < |fat|;
    if |a| > 1 && |b| > 1 {
      ChainTail(fat, a, 1);
      ChainTail(fat, b, 1);
      assert a[1] == fat[a[0]] == b[1];
      ChainUnique(fat, a[1..], b[1..]);
      assert a == [a[0]] + a[1..] && b == [b[0]] + b[1..];
    }
  }

  /** A chain that ends is acyclic. */
  lemma ChainDistinct(fat: seq<nat>, cs: seq<nat>)
    requires IsChain(fat, cs) && |fat| <= EOC_MIN
    ensures Distinct(cs)
  {
    forall i, j | 0 <= i < j < |cs|
      ensures cs[i] != cs[j]
    {
      if cs[i] == cs[j] {
        ChainTail(fat, cs, i);
        ChainTail(fat, cs, j);
        ChainUnique(fat, cs[i..], cs[j..]);
      }
    }
  }

  /** A chain depends only on the entries of its own clusters. */
  lemma ChainFrame(fat: seq<nat>, fat': seq<nat>, cs: seq<nat>)
    requires IsChain(fat, cs) && |fat'| == |fat|
    requires forall i :: 0 <= i < |cs| ==> fat'[cs[i]] == fat[cs[i]]
    ensures IsChain(fat', cs)
  {
  }

  /** Linking a one-cluster chain behind a chain. */
  lemma ChainAppend(fat: seq<nat>, cs: seq<nat>, c: nat)
    requires IsChain(fat, cs) && IsChain(fat, [c]) && c !in cs && |fat| <= EOC_MIN
    ensures IsChain(fat[cs[|cs| - 1] := c], cs + [c])
  {
    ChainDistinct(fat, cs);
    var fat' := fat[cs[|cs| - 1] := c];
    var t := cs + [c];
    forall i | 0 <= i < |t| - 1
      ensures fat'[t[i]] == t[i + 1]
    {
      assert t[i] == cs[i];
    }
    assert [c][0] == c;
  }

  // ------------------------------------------------------------ freeing a chain

  /** The FAT with the entries of all clusters in cs set to free. */
  function Freed(fat: seq<nat>, cs: set<nat>): (r: seq<nat>)
    ensures |r| == |fat|
    ensures forall c :: 0 <= c < |fat| ==> r[c] == if c in cs then 0 else fat[c]
  {
    seq(|fat|, c requires 0 <= c < |fat| => if c in cs then 0 else fat[c])
  }

  /** How many entries are in use. */
  function UsedCount(fat: seq<nat>): nat {
    if |fat| == 0 then 0 else UsedCount(fat[..|fat| - 1]) + (if fat[|fat| - 1] != 0 then 1 else 0)
  }

  lemma {:induction false} UsedCountUpdate(fat: seq<nat>, c: nat, v: nat)
    requires c < |fat|
    ensures UsedCount(fat[c := v]) == UsedCount(fat) - (if fat[c] != 0 then 1 else 0) + (if v != 0 then 1 else 0)
    decreases |fat|
  {
    var n := |fat| - 1;
    if c == n {
      assert fat[c := v][..n] == fat[..n];
    } else {
      assert fat[c := v][..n] == fat[..n][c := v];
      UsedCountUpdate(fat[..n], c, v);
    }
  }

  ghost function Elements(cs: seq<nat>): set<nat> {
    set c | c in cs
  }

  /** All clusters of the list are data clusters of the volume. */
  ghost predicate Clusters(g: Geometry, cs: seq<nat>) {
    forall i :: 0 <= i < |cs| ==> 2 <= cs[i] < g.Clusters()
  }
}
