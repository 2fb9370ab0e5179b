/**
  Byte strings in pieces: a string stored as a list of equal pieces (the sectors
  of a cluster, the clusters of a chain), what rewriting part of one piece does to
  the whole, and how neighbouring writes compose.
 */
module FatBytes {
  import opened FatDisk

  function Zeros(n: nat): (z: seq<Byte>)
    ensures |z| == n && forall i :: 0 <= i < n ==> z[i] == 0
  {
    seq(n, _ => 0)
  }

  // ---------------------------------------------------------------- overwriting

  /** b with s copied over it from position o on, byte after byte. */
  function Splice(b: seq<Byte>, o: nat, s: seq<Byte>): (r: seq<Byte>)
    requires o + |s| <= |b|
    ensures |r| == |b|
    decreases |s|
  {
    if |s| == 0 then b else Splice(b, o, s[..|s| - 1])[o + |s| - 1 := s[|s| - 1]]
  }

  lemma {:induction false} SpliceAt(b: seq<Byte>, o: nat, s: seq<Byte>, p: nat)
    requires o + |s| <= |b| && p < |b|
    ensures Splice(b, o, s)[p] == if o <= p < o + |s| then s[p - o] else b[p]
    decreases |s|
  {
    if |s| > 0 {
      SpliceAt(b, o, s[..|s| - 1], p);
    }
  }

  /** The copy in three parts. */
  lemma SpliceParts(b: seq<Byte>, o: nat, s: seq<Byte>)
    requires o + |s| <= |b|
    ensures Splice(b, o, s) == b[..o] + s + b[o + |s|..]
  {
    var r := b[..o] + s + b[o + |s|..];
    forall p | 0 <= p < |b|
      ensures Splice(b, o, s)[p] == r[p]
    {
      SpliceAt(b, o, s, p);
    }
  }

  lemma SpliceAll(b: seq<Byte>, s: seq<Byte>)
    requires |s| == |b|
    ensures Splice(b, 0, s) == s
  {
    SpliceParts(b, 0, s);
  }

  /** As `Splice`, but writing nothing is allowed anywhere. */
  function Overlay(b: seq<Byte>, o: nat, s: seq<Byte>): (r: seq<Byte>)
    requires s == [] || o + |s| <= |b|
    ensures |r| == |b|
  {
    if s == [] then b else Splice(b, o, s)
  }

  /** Two neighbouring writes are one write. */
  lemma SpliceThen(b: seq<Byte>, o: nat, s: seq<Byte>, i: nat, j: nat)
    requires i <= j <= |s| && o + j <= |b|
    ensures Splice(Splice(b, o, s[..i]), o + i, s[i..j]) == Splice(b, o, s[..j])
  {
    var l, r := Splice(Splice(b, o, s[..i]), o + i, s[i..j]), Splice(b, o, s[..j]);
    forall p | 0 <= p < |b|
      ensures l[p] == r[p]
    {
      SpliceAt(Splice(b, o, s[..i]), o + i, s[i..j], p);
      SpliceAt(b, o, s[..i], p);
      SpliceAt(b, o, s[..j], p);
    }
  }

  lemma OverlayGrow(b: seq<Byte>, o: nat, s: seq<Byte>, z: seq<Byte>)
    requires s == [] || o + |s| <= |b|
    ensures Overlay(b, o, s) + z == Overlay(b + z, o, s)
  {
    if s != [] {
      SpliceParts(b, o, s);
      SpliceParts(b + z, o, s);
      assert (b + z)[o + |s|..] == b[o + |s|..] + z && (b + z)[..o] == b[..o];
    }
  }

  /** Reading back what was written. */
  lemma OverlayRead(b: seq<Byte>, o: nat, s: seq<Byte>)
    requires o + |s| <= |b|
    ensures Overlay(b, o, s)[o..o + |s|] == s
  {
    SpliceParts(b, o, s);
  }

  lemma ZerosAdd(m: nat, n: nat)
    ensures Zeros(m) + Zeros(n) == Zeros(m + n)
  {
  }

  // --------------------------------------------------------------------- pieces

  /** The pieces, one after the other. */
  function Flatten(ps: seq<seq<Byte>>): (b: seq<Byte>) {
    if |ps| == 0 then [] else Flatten(ps[..|ps| - 1]) + ps[|ps| - 1]
  }

  /** All pieces have length m. */
  ghost predicate Uniform(ps: seq<seq<Byte>>, m: nat) {
    forall i :: 0 <= i < |ps| ==> |ps[i]| == m
  }

  lemma {:induction false} FlattenLength(ps: seq<seq<Byte>>, m: nat)
    requires Uniform(ps, m)
    ensures |Flatten(ps)| == Times(|ps|, m)
  {
    if |ps| > 0 {
      FlattenLength(ps[..|ps| - 1], m);
    }
  }

  lemma {:induction false} FlattenConcat(a: seq<seq<Byte>>, b: seq<seq<Byte>>)
    ensures Flatten(a + b) == Flatten(a) + Flatten(b)
    decreases |b|
  {
    if |b| == 0 {
      assert a + b == a;
    } else {
      var n := |b| - 1;
      assert (a + b)[..|a| + n] == a + b[..n];
      FlattenConcat(a, b[..n]);
    }
  }

  lemma FlattenOne(p: seq<Byte>)
    ensures Flatten([p]) == p
  {
    assert [p][..0] == [];
  }

  lemma AroundIndex<T>(ss: seq<T>, k: nat)
    requires k < |ss|
    ensures ss == ss[..k] + [ss[k]] + ss[k + 1..]
  {
  }

  /** The string around piece i. */
  lemma FlattenAround(ps: seq<seq<Byte>>, i: nat, m: nat) returns (l: seq<Byte>, r: seq<Byte>)
    requires i < |ps| && Uniform(ps, m)
    ensures |l| == Times(i, m)
    ensures l == Flatten(ps[..i]) && r == Flatten(ps[i + 1..])
    ensures Flatten(ps) == l + ps[i] + r
  {
    l, r := Flatten(ps[..i]), Flatten(ps[i + 1..]);
    FlattenLength(ps[..i], m);
    AroundIndex(ps, i);
    FlattenConcat(ps[..i], [ps[i]]);
    FlattenConcat(ps[..i] + [ps[i]], ps[i + 1..]);
    FlattenOne(ps[i]);
  }

  /** Replacing piece i keeps what is around it. */
  lemma FlattenUpdate(ps: seq<seq<Byte>>, i: nat, p: seq<Byte>, m: nat) returns (l: seq<Byte>, r: seq<Byte>)
    requires i < |ps| && Uniform(ps, m) && |p| == m
    ensures |l| == Times(i, m)
    ensures Flatten(ps) == l + ps[i] + r
    ensures Flatten(ps[i := p]) == l + p + r
  {
    l, r := FlattenAround(ps, i, m);
    var l', r' := FlattenAround(ps[i := p], i, m);
    assert ps[i := p][..i] == ps[..i] && ps[i := p][i + 1..] == ps[i + 1..];
  }

  lemma SpliceMiddle(l: seq<Byte>, m: seq<Byte>, p: seq<Byte>, r: seq<Byte>, a: nat, t: seq<Byte>, b: seq<Byte>,
                     b': seq<Byte>)
    requires a + |t| <= |m| && p == Splice(m, a, t) && b == l + m + r && b' == l + p + r
    ensures |l| + a + |t| <= |b| && b' == Splice(b, |l| + a, t)
  {
    forall q | 0 <= q < |b|
      ensures b'[q] == Splice(b, |l| + a, t)[q]
    {
      SpliceAt(b, |l| + a, t, q);
      if |l| <= q < |l| + |m| {
        SpliceAt(m, a, t, q - |l|);
      }
    }
  }

  lemma SliceMiddle(l: seq<Byte>, m: seq<Byte>, r: seq<Byte>, a: nat, b: nat)
    requires a <= b <= |m|
    ensures (l + m + r)[|l| + a..|l| + b] == m[a..b]
  {
  }

  /** Rewriting part of piece i is a splice of the whole string. */
  lemma FlattenSplice(ps: seq<seq<Byte>>, ps': seq<seq<Byte>>, i: nat, m: nat, a: nat, t: seq<Byte>)
    requires i < |ps| && Uniform(ps, m) && a + |t| <= m
    requires ps' == ps[i := Splice(ps[i], a, t)]
    ensures Times(i, m) + a + |t| <= |Flatten(ps)|
    ensures Flatten(ps') == Splice(Flatten(ps), Times(i, m) + a, t)
  {
    var l, r := FlattenUpdate(ps, i, ps'[i], m);
    SpliceMiddle(l, ps[i], ps'[i], r, a, t, Flatten(ps), Flatten(ps'));
  }

  /** Part of piece i is part of the whole string. */
  lemma FlattenSlice(ps: seq<seq<Byte>>, i: nat, m: nat, a: nat, b: nat)
    requires i < |ps| && Uniform(ps, m) && a <= b <= m
    ensures Times(i, m) + b <= |Flatten(ps)|
    ensures Flatten(ps)[Times(i, m) + a..Times(i, m) + b] == ps[i][a..b]
  {
    var l, r := FlattenAround(ps, i, m);
    SliceMiddle(l, ps[i], r, a, b);
  }

  lemma {:induction false} FlattenZeros(ps: seq<seq<Byte>>, m: nat)
    requires forall i :: 0 <= i < |ps| ==> ps[i] == Zeros(m)
    ensures Flatten(ps) == Zeros(Times(|ps|, m))
  {
    if |ps| > 0 {
      FlattenZeros(ps[..|ps| - 1], m);
      ZerosAdd(Times(|ps| - 1, m), m);
    }
  }
}
