/**
  What writing to a file means for the whole volume: the file's chain grows by
  zeroed clusters, its string is overlaid with the bytes written, and every other
  chain keeps its clusters and its string.
 */
module FatWrite {
  import opened FatDisk
  import opened FatChain
  import opened FatPartition
  import opened FatBytes
  import opened FatData

  /** The strings of the chains other than k's are the same. */
  ghost predicate OthersSame(g: Geometry, d: Disk, d': Disk, ch: Chains, k: nat)
    requires Fits(g, d) && Fits(g, d')
  {
    forall j :: j in ch && j != k && Clusters(g, ch[j]) ==> Text(g, d', ch[j]) == Text(g, d, ch[j])
  }

  /** From (d, ch) to (d', ch'), s was written to chain k from position o on. */
  ghost predicate Wrote(g: Geometry, d: Disk, ch: Chains, d': Disk, ch': Chains, k: nat, o: nat, s: seq<Byte>) {
    && Fits(g, d) && Fits(g, d')
    && k in ch && k in ch' && ch' == ch[k := ch'[k]] && ch[k] <= ch'[k]
    && Clusters(g, ch[k]) && Clusters(g, ch'[k])
    && Overlaid(Text(g, d, ch[k]), Text(g, d', ch'[k]), o, s)
    && OthersSame(g, d, d', ch, k)
  }

  /** b' is b, lengthened by zeros and overlaid with s at o. */
  ghost predicate Overlaid(b: seq<Byte>, b': seq<Byte>, o: nat, s: seq<Byte>) {
    && |b| <= |b'|
    && (s == [] || o + |s| <= |b'|)
    && b' == Overlay(b + Zeros(|b'| - |b|), o, s)
  }

  lemma WroteNothing(g: Geometry, d: Disk, ch: Chains, k: nat, o: nat)
    requires Fits(g, d) && k in ch && Clusters(g, ch[k])
    ensures Wrote(g, d, ch, d, ch, k, o, [])
  {
    var b := Text(g, d, ch[k]);
    assert b + Zeros(0) == b;
  }

  // ---------------------------------------------------------------- lengthening

  /** c was allocated and linked behind `last`. */
  ghost predicate Linked(g: Geometry, d: Disk, d': Disk, last: nat, c: nat) {
    && Fits(g, d) && Fits(g, d') && 2 <= c < g.Clusters() && last < g.Clusters()
    && Fat(g, d)[c] == 0 && Fat(g, d') == Fat(g, d)[c := EOC][last := c]
    && TouchesOnly(g, d, d', c) && ClusterText(g, d', c) == Zeros(ClusterSize(g))
  }

  lemma LinkedText(g: Geometry, d: Disk, d': Disk, cs: seq<nat>, last: nat, c: nat)
    requires Linked(g, d, d', last, c) && Clusters(g, cs) && c !in cs
    ensures Clusters(g, cs + [c])
    ensures Text(g, d', cs) == Text(g, d, cs)
    ensures Text(g, d', cs + [c]) == Text(g, d, cs) + Zeros(ClusterSize(g))
  {
    TextFrame(g, d, d', c, cs);
    TextAppend(g, d', cs, c);
  }

  lemma LinkedOthers(g: Geometry, d: Disk, d': Disk, ch: Chains, k: nat, last: nat, c: nat)
    requires Linked(g, d, d', last, c) && !OnSomeChain(ch, c)
    ensures OthersSame(g, d, d', ch, k)
  {
    forall j | j in ch && j != k && Clusters(g, ch[j])
      ensures Text(g, d', ch[j]) == Text(g, d, ch[j])
    {
      LinkedText(g, d, d', ch[j], last, c);
    }
  }

  lemma OverlaidGrow(b: seq<Byte>, b': seq<Byte>, o: nat, s: seq<Byte>, n: nat)
    requires Overlaid(b, b', o, s)
    ensures Overlaid(b, b' + Zeros(n), o, s)
  {
    var m := |b'| - |b|;
    OverlayGrow(b + Zeros(m), o, s, Zeros(n));
    ZerosAdd(m, n);
    assert b + Zeros(m) + Zeros(n) == b + Zeros(m + n);
  }

  lemma OthersTransitive(g: Geometry, d: Disk, d1: Disk, d2: Disk, ch: Chains, ch1: Chains, k: nat)
    requires Fits(g, d) && Fits(g, d1) && Fits(g, d2)
    requires k in ch && k in ch1 && ch1 == ch[k := ch1[k]]
    requires OthersSame(g, d, d1, ch, k) && OthersSame(g, d1, d2, ch1, k)
    ensures OthersSame(g, d, d2, ch, k)
  {
    forall j | j in ch && j != k && Clusters(g, ch[j])
      ensures Text(g, d2, ch[j]) == Text(g, d, ch[j])
    {
      assert j in ch1 && ch1[j] == ch[j];
    }
  }

  /** Lengthening the chain by a zeroed cluster keeps what was written. */
  lemma WroteExtend(g: Geometry, d: Disk, ch: Chains, d1: Disk, ch1: Chains, d2: Disk, k: nat, last: nat, c: nat,
                    o: nat, s: seq<Byte>)
    requires Wrote(g, d, ch, d1, ch1, k, o, s)
    requires Linked(g, d1, d2, last, c) && !OnSomeChain(ch1, c)
    ensures Wrote(g, d, ch, d2, ch1[k := ch1[k] + [c]], k, o, s)
  {
    var cs := ch1[k];
    assert c !in cs;
    LinkedText(g, d1, d2, cs, last, c);
    LinkedOthers(g, d1, d2, ch1, k, last, c);
    OthersTransitive(g, d, d1, d2, ch, ch1, k);
    OverlaidGrow(Text(g, d, ch[k]), Text(g, d1, cs), o, s, ClusterSize(g));
  }

  // ------------------------------------------------------------------- writing

  lemma OverlaidMore(b: seq<Byte>, b': seq<Byte>, o: nat, s: seq<Byte>, i: nat, j: nat)
    requires i < j <= |s| && o + j <= |b'| && Overlaid(b, b', o, s[..i])
    ensures Overlaid(b, Splice(b', o + i, s[i..j]), o, s[..j])
  {
    var z := b + Zeros(|b'| - |b|);
    if i == 0 {
      assert s[..0] == [] && s[0..j] == s[..j];
    } else {
      SpliceThen(z, o, s, i, j);
    }
  }

  lemma WriteOthers(g: Geometry, d: Disk, d': Disk, ch: Chains, k: nat, c: nat)
    requires Fits(g, d) && Fits(g, d') && Disjoint(ch) && k in ch && c in ch[k] && 2 <= c < g.Clusters()
    requires TouchesOnly(g, d, d', c)
    ensures OthersSame(g, d, d', ch, k)
  {
    forall j | j in ch && j != k && Clusters(g, ch[j])
      ensures Text(g, d', ch[j]) == Text(g, d, ch[j])
    {
      TextFrame(g, d, d', c, ch[j]);
    }
  }

  /** Writing the next bytes into the i-th cluster. */
  lemma WroteMore(g: Geometry, d: Disk, ch: Chains, d1: Disk, ch1: Chains, d2: Disk, k: nat, i: nat,
                  o: nat, buf: seq<Byte>, n: nat, m: nat, a: nat)
    requires n < m <= |buf| && Wrote(g, d, ch, d1, ch1, k, o, buf[..n])
    requires i < |ch1[k]| && Fits(g, d2) && TouchesOnly(g, d1, d2, ch1[k][i])
    requires Distinct(ch1[k]) && Disjoint(ch1)
    requires o + n == Start(g, i) + a && a + (m - n) <= ClusterSize(g)
    requires ClusterText(g, d2, ch1[k][i]) == Splice(ClusterText(g, d1, ch1[k][i]), a, buf[n..m])
    ensures Wrote(g, d, ch, d2, ch1, k, o, buf[..m])
  {
    hide Overlaid;
    hide OthersSame;
    hide Splice;
    hide Text;
    hide ClusterText;
    hide TouchesOnly;
    hide Distinct;
    hide Disjoint;
    hide Start;
    var cs := ch1[k];
    assert cs[i] in cs;
    ClusterSplice(g, d1, d2, cs, i, a, buf[n..m]);
    WriteOthers(g, d1, d2, ch1, k, cs[i]);
    OthersTransitive(g, d, d1, d2, ch, ch1, k);
    OverlaidMore(Text(g, d, ch[k]), Text(g, d1, cs), o, buf, n, m);
  }
}
