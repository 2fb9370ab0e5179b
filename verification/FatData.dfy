/**
  The byte string that a chain denotes, and how writes to single clusters show
  up in it and in the strings of other chains.
 */
module FatData {
  import opened FatDisk
  import opened FatChain
  import opened FatBytes

  /** Bytes in a cluster. */
  function ClusterSize(g: Geometry): nat {
    g.spc * SECTOR_SIZE
  }

  /** Where the i-th cluster of a chain begins in its string. */
  function Start(g: Geometry, i: nat): nat {
    Times(i, ClusterSize(g))
  }

  lemma ClusterInside(g: Geometry, d: Disk, c: nat)
    requires Fits(g, d) && 2 <= c < g.Clusters()
    ensures g.firstData <= g.ClusterToSector(c) && g.ClusterToSector(c) + g.spc <= |d|
  {
    ClusterOnDisk(g, d, c, g.spc - 1);
  }

  /** The sectors of one cluster. */
  function ClusterData(g: Geometry, d: Disk, c: nat): (ss: seq<Sector>)
    requires Fits(g, d) && 2 <= c < g.Clusters()
    ensures |ss| == g.spc
  {
    ClusterInside(g, d, c);
    d[g.ClusterToSector(c)..g.ClusterToSector(c) + g.spc]
  }

  /** The string of one cluster. */
  function ClusterText(g: Geometry, d: Disk, c: nat): (b: seq<Byte>)
    requires Fits(g, d) && 2 <= c < g.Clusters()
    ensures |b| == ClusterSize(g)
  {
    FlattenLength(ClusterData(g, d, c), SECTOR_SIZE);
    TimesIsProduct(g.spc, SECTOR_SIZE);
    Flatten(ClusterData(g, d, c))
  }

  /** The string a chain denotes: its clusters one after the other. */
  function Text(g: Geometry, d: Disk, cs: seq<nat>): (b: seq<Byte>)
    requires Fits(g, d) && Clusters(g, cs)
    ensures |b| == Start(g, |cs|)
  {
    if |cs| == 0 then [] else Text(g, d, cs[..|cs| - 1]) + ClusterText(g, d, cs[|cs| - 1])
  }

  lemma TextOne(g: Geometry, d: Disk, c: nat)
    requires Fits(g, d) && 2 <= c < g.Clusters()
    ensures Text(g, d, [c]) == ClusterText(g, d, c)
  {
    assert [c][..0] == [];
  }

  /** The strings of the clusters of a chain. */
  function Pieces(g: Geometry, d: Disk, cs: seq<nat>): (ps: seq<seq<Byte>>)
    requires Fits(g, d) && Clusters(g, cs)
    ensures |ps| == |cs| && Uniform(ps, ClusterSize(g))
    ensures forall i {:trigger ps[i]} :: 0 <= i < |cs| ==> ps[i] == ClusterText(g, d, cs[i])
  {
    seq(|cs|, i requires 0 <= i < |cs| => ClusterText(g, d, cs[i]))
  }

  lemma {:induction false} TextIsFlatten(g: Geometry, d: Disk, cs: seq<nat>)
    requires Fits(g, d) && Clusters(g, cs)
    ensures Text(g, d, cs) == Flatten(Pieces(g, d, cs))
  {
    if |cs| > 0 {
      var n := |cs| - 1;
      TextIsFlatten(g, d, cs[..n]);
      assert Pieces(g, d, cs)[..n] == Pieces(g, d, cs[..n]);
    }
  }

  // ------------------------------------------------------------------ framing

  /** Of the data area, only the sectors of cluster c may differ. */
  ghost predicate TouchesOnly(g: Geometry, d: Disk, d': Disk, c: nat)
    requires 2 <= c
  {
    && |d'| == |d|
    && forall k :: g.firstData <= k < |d| && !(g.ClusterToSector(c) <= k < g.ClusterToSector(c) + g.spc) ==>
          d'[k] == d[k]
  }

  lemma ClusterTextFrame(g: Geometry, d: Disk, d': Disk, c: nat, c': nat)
    requires Fits(g, d) && 2 <= c < g.Clusters() && 2 <= c' < g.Clusters() && c != c'
    requires TouchesOnly(g, d, d', c)
    ensures ClusterText(g, d', c') == ClusterText(g, d, c')
  {
    ClusterInside(g, d, c');
    if c < c' {
      ClusterBefore(g, c, g.spc - 1, c');
    } else {
      ClusterBefore(g, c', g.spc - 1, c);
    }
    assert ClusterData(g, d', c') == ClusterData(g, d, c');
  }

  /** Changing cluster c does not show in the string of a chain without c. */
  lemma {:induction false} TextFrame(g: Geometry, d: Disk, d': Disk, c: nat, cs: seq<nat>)
    requires Fits(g, d) && Clusters(g, cs) && 2 <= c < g.Clusters() && c !in cs
    requires TouchesOnly(g, d, d', c)
    ensures Text(g, d', cs) == Text(g, d, cs)
  {
    if |cs| > 0 {
      ClusterTextFrame(g, d, d', c, cs[|cs| - 1]);
      TextFrame(g, d, d', c, cs[..|cs| - 1]);
    }
  }

  /** Writes to the FAT do not show in any string. */
  lemma {:induction false} TextSameData(g: Geometry, d: Disk, d': Disk, cs: seq<nat>)
    requires Fits(g, d) && Clusters(g, cs) && SameData(g, d, d')
    ensures Text(g, d', cs) == Text(g, d, cs)
  {
    if |cs| > 0 {
      ClusterInside(g, d, cs[|cs| - 1]);
      assert ClusterData(g, d', cs[|cs| - 1]) == ClusterData(g, d, cs[|cs| - 1]);
      TextSameData(g, d, d', cs[..|cs| - 1]);
    }
  }

  lemma SplicedPieces(g: Geometry, d: Disk, d': Disk, cs: seq<nat>, i: nat, a: nat, t: seq<Byte>)
    returns (ps: seq<seq<Byte>>, ps': seq<seq<Byte>>)
    requires Fits(g, d) && Fits(g, d') && Clusters(g, cs) && Distinct(cs) && i < |cs|
    requires TouchesOnly(g, d, d', cs[i])
    requires a + |t| <= ClusterSize(g)
    requires ClusterText(g, d', cs[i]) == Splice(ClusterText(g, d, cs[i]), a, t)
    ensures Text(g, d, cs) == Flatten(ps) && Text(g, d', cs) == Flatten(ps')
    ensures |ps| == |cs| && Uniform(ps, ClusterSize(g)) && ps' == ps[i := Splice(ps[i], a, t)]
  {
    ps, ps' := Pieces(g, d, cs), Pieces(g, d', cs);
    TextIsFlatten(g, d, cs);
    TextIsFlatten(g, d', cs);
    forall j | 0 <= j < |cs| && j != i
      ensures ps'[j] == ps[j]
    {
      ClusterTextFrame(g, d, d', cs[i], cs[j]);
    }
  }

  /** A splice of one cluster is a splice of every chain through it. */
  lemma ClusterSplice(g: Geometry, d: Disk, d': Disk, cs: seq<nat>, i: nat, a: nat, t: seq<Byte>)
    requires Fits(g, d) && Fits(g, d') && Clusters(g, cs) && Distinct(cs) && i < |cs|
    requires TouchesOnly(g, d, d', cs[i])
    requires a + |t| <= ClusterSize(g)
    requires ClusterText(g, d', cs[i]) == Splice(ClusterText(g, d, cs[i]), a, t)
    ensures Start(g, i) + a + |t| <= |Text(g, d, cs)|
    ensures Text(g, d', cs) == Splice(Text(g, d, cs), Start(g, i) + a, t)
  {
    var ps, ps' := SplicedPieces(g, d, d', cs, i, a, t);
    FlattenSplice(ps, ps', i, ClusterSize(g), a, t);
  }

  /** A piece of the i-th cluster is a piece of the chain's string. */
  lemma ClusterSlice(g: Geometry, d: Disk, cs: seq<nat>, i: nat, a: nat, b: nat)
    requires Fits(g, d) && Clusters(g, cs) && i < |cs| && a <= b <= ClusterSize(g)
    ensures Start(g, i) + b <= |Text(g, d, cs)|
    ensures Text(g, d, cs)[Start(g, i) + a..Start(g, i) + b] == ClusterText(g, d, cs[i])[a..b]
  {
    TextIsFlatten(g, d, cs);
    FlattenSlice(Pieces(g, d, cs), i, ClusterSize(g), a, b);
  }

  /** A longer chain, a longer string. */
  lemma TextAppend(g: Geometry, d: Disk, cs: seq<nat>, c: nat)
    requires Fits(g, d) && Clusters(g, cs) && 2 <= c < g.Clusters() && Clusters(g, cs + [c])
    ensures Text(g, d, cs + [c]) == Text(g, d, cs) + ClusterText(g, d, c)
  {
    assert (cs + [c])[..|cs|] == cs;
  }

  /** Part of a sector is part of its cluster's string. */
  lemma SectorSlice(g: Geometry, d: Disk, c: nat, s: nat, a: nat, b: nat)
    requires Fits(g, d) && 2 <= c < g.Clusters() && s < g.spc && a <= b <= SECTOR_SIZE
    ensures g.ClusterToSector(c) + s < |d|
    ensures s * SECTOR_SIZE + b <= ClusterSize(g)
    ensures ClusterText(g, d, c)[s * SECTOR_SIZE + a..s * SECTOR_SIZE + b] == d[g.ClusterToSector(c) + s][a..b]
  {
    ClusterInside(g, d, c);
    TimesIsProduct(s, SECTOR_SIZE);
    FlattenSlice(ClusterData(g, d, c), s, SECTOR_SIZE, a, b);
  }

  /** Rewriting part of a sector is a splice of its cluster's string. */
  lemma SectorSplice(g: Geometry, d: Disk, c: nat, s: nat, skip: nat, t: seq<Byte>)
    requires Fits(g, d) && 2 <= c < g.Clusters() && s < g.spc && skip + |t| <= SECTOR_SIZE
    ensures g.firstData <= g.ClusterToSector(c) + s < |d|
    ensures var x := g.ClusterToSector(c) + s;
            var d' := d[x := Splice(d[x], skip, t)];
            && Fits(g, d') && TouchesOnly(g, d, d', c)
            && s * SECTOR_SIZE + skip + |t| <= ClusterSize(g)
            && ClusterText(g, d', c) == Splice(ClusterText(g, d, c), s * SECTOR_SIZE + skip, t)
  {
    ClusterInside(g, d, c);
    TimesIsProduct(s, SECTOR_SIZE);
    var x := g.ClusterToSector(c) + s;
    var d' := d[x := Splice(d[x], skip, t)];
    assert ClusterData(g, d', c) == ClusterData(g, d, c)[s := Splice(d[x], skip, t)];
    FlattenSplice(ClusterData(g, d, c), ClusterData(g, d', c), s, SECTOR_SIZE, skip, t);
  }

  lemma ZeroedText(g: Geometry, d: Disk, c: nat)
    requires Fits(g, d) && 2 <= c < g.Clusters()
    requires forall k :: g.ClusterToSector(c) <= k < g.ClusterToSector(c) + g.spc && k < |d| ==> d[k] == ZERO_SECTOR
    ensures ClusterText(g, d, c) == Zeros(ClusterSize(g))
  {
    ClusterInside(g, d, c);
    FlattenZeros(ClusterData(g, d, c), SECTOR_SIZE);
    TimesIsProduct(g.spc, SECTOR_SIZE);
  }
}
