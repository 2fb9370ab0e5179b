/**
  The circular free list of userspace/include/stdlib.c as a value: headers at unit
  addresses, each with the address of the next free block and a size in units.
 */
module HeapList {

  type Cells = map<nat, nat>

  function Succ(cyc: seq<nat>, i: nat): nat
    requires i < |cyc|
  {
    if i + 1 < |cyc| then cyc[i + 1] else cyc[0]
  }

  /** The `ptr` fields lead once around the blocks of cyc. */
  ghost predicate Linked(ptr: Cells, cyc: seq<nat>) {
    |cyc| > 0 && forall i: nat {:trigger Succ(cyc, i)} :: i < |cyc| ==> cyc[i] in ptr && ptr[cyc[i]] == Succ(cyc, i)
  }

  lemma LinkAt(ptr: Cells, cyc: seq<nat>, i: nat)
    requires Linked(ptr, cyc) && i < |cyc|
    ensures cyc[i] in ptr && ptr[cyc[i]] == Succ(cyc, i)
  {
    var s := Succ(cyc, i);
  }

  function End(size: Cells, a: nat): nat
    requires a in size
  {
    a + size[a]
  }

  /** Every block has a size, and only the first, `base`, is empty. */
  ghost predicate Sized(size: Cells, cyc: seq<nat>) {
    |cyc| > 0 && forall i: nat :: i < |cyc| ==> cyc[i] in size && (size[cyc[i]] == 0 <==> i == 0)
  }

  /** In address order, with a gap after every block, except perhaps after block m. */
  ghost predicate Apart(size: Cells, cyc: seq<nat>, m: nat)
    requires Sized(size, cyc)
  {
    forall i: nat, j: nat :: i < j < |cyc| ==> End(size, cyc[i]) <= cyc[j] && (i == m || End(size, cyc[i]) < cyc[j])
  }

  /** One address-ordered cycle through base; blocks are disjoint and never adjacent. */
  ghost predicate Ring(ptr: Cells, size: Cells, cyc: seq<nat>) {
    Linked(ptr, cyc) && Sized(size, cyc) && Apart(size, cyc, |cyc|)
  }

  predicate Within(a: nat, n: nat, u: nat) { a <= u < a + n }

  /** Unit u belongs to a free block. */
  ghost predicate Free(size: Cells, cyc: seq<nat>, u: nat) {
    exists i: nat :: i < |cyc| && cyc[i] in size && Within(cyc[i], size[cyc[i]], u)
  }

  // ------------------------------------------------------------------- insertion

  /** Where bp goes: after block j and before the next one. */
  ghost predicate Place(size: Cells, cyc: seq<nat>, j: nat, bp: nat)
    requires Sized(size, cyc)
  {
    && j < |cyc| && bp in size && size[bp] > 0
    && End(size, cyc[j]) <= bp && cyc[j] < bp
    && (j + 1 < |cyc| ==> End(size, bp) <= cyc[j + 1])
  }

  function Inserted(cyc: seq<nat>, j: nat, bp: nat, k: nat): seq<nat>
    requires j < k <= |cyc|
  {
    cyc[..j + 1] + [bp] + cyc[k..]
  }

  /** bp sits strictly between its neighbours. */
  lemma PlaceBetween(size: Cells, cyc: seq<nat>, j: nat, bp: nat)
    requires Sized(size, cyc) && Apart(size, cyc, |cyc|) && Place(size, cyc, j, bp)
    ensures forall i: nat :: i <= j ==> End(size, cyc[i]) <= bp && (i < j ==> End(size, cyc[i]) < bp)
    ensures forall i: nat :: j < i < |cyc| ==> End(size, bp) <= cyc[i] && (j + 1 < i ==> End(size, bp) < cyc[i])
    ensures bp !in cyc
  {
    forall i: nat | j + 1 < i < |cyc|
      ensures End(size, bp) < cyc[i]
    {
      assert End(size, cyc[j + 1]) < cyc[i];
    }
    forall i: nat | i < j
      ensures End(size, cyc[i]) < bp
    {
      assert End(size, cyc[i]) < cyc[j];
    }
  }

  ghost predicate NoRepeat(cyc: seq<nat>) {
    forall i: nat, j: nat :: i < j < |cyc| ==> cyc[i] != cyc[j]
  }

  lemma RingDistinct(size: Cells, cyc: seq<nat>, m: nat)
    requires Sized(size, cyc) && Apart(size, cyc, m) && m > 0
    ensures NoRepeat(cyc)
  {
    forall i: nat, j: nat | i < j < |cyc|
      ensures cyc[i] < cyc[j]
    {
      assert End(size, cyc[i]) <= cyc[j];
    }
  }

  /** Linking bp in after block j, in place of the blocks j + 1 .. k - 1. */
  lemma LinkInserted(ptr: Cells, cyc: seq<nat>, j: nat, bp: nat, k: nat)
    requires Linked(ptr, cyc) && NoRepeat(cyc) && bp !in cyc && j < k <= |cyc|
    ensures Linked(ptr[bp := if k < |cyc| then cyc[k] else cyc[0]][cyc[j] := bp], Inserted(cyc, j, bp, k))
  {
    var cyc' := Inserted(cyc, j, bp, k);
    var ptr' := ptr[bp := if k < |cyc| then cyc[k] else cyc[0]][cyc[j] := bp];
    forall i: nat | i < |cyc'|
      ensures cyc'[i] in ptr' && ptr'[cyc'[i]] == Succ(cyc', i)
    {
      if i < j {
        LinkAt(ptr, cyc, i);
      } else if i > j + 1 {
        var i' := i - (j + 2) + k;
        LinkAt(ptr, cyc, i');
        assert cyc'[i] == cyc[i'];
      }
    }
  }

  /** Taking the blocks between j and k out of the cycle. */
  lemma LinkRemoved(ptr: Cells, cyc: seq<nat>, j: nat, k: nat)
    requires Linked(ptr, cyc) && NoRepeat(cyc) && j < k <= |cyc|
    ensures Linked(ptr[cyc[j] := if k < |cyc| then cyc[k] else cyc[0]], cyc[..j + 1] + cyc[k..])
  {
    var cyc' := cyc[..j + 1] + cyc[k..];
    var ptr' := ptr[cyc[j] := if k < |cyc| then cyc[k] else cyc[0]];
    forall i: nat | i < |cyc'|
      ensures cyc'[i] in ptr' && ptr'[cyc'[i]] == Succ(cyc', i)
    {
      if i < j {
        LinkAt(ptr, cyc, i);
      } else if i > j {
        var i' := i - (j + 1) + k;
        LinkAt(ptr, cyc, i');
        assert cyc'[i] == cyc[i'];
      }
    }
  }

  lemma SpacedApart(ptr: Cells, size: Cells, cyc: seq<nat>, j: nat, bp: nat)
    requires Ring(ptr, size, cyc) && Place(size, cyc, j, bp) && (j + 1 < |cyc| ==> End(size, bp) != cyc[j + 1])
    ensures var cyc' := Inserted(cyc, j, bp, j + 1);
            Sized(size, cyc') && Apart(size, cyc', j)
  {
    hide Linked;
    PlaceBetween(size, cyc, j, bp);
    RingDistinct(size, cyc, |cyc|);
    var cyc' := Inserted(cyc, j, bp, j + 1);
    assert forall i: nat :: i < |cyc'| ==> cyc'[i] == if i <= j then cyc[i] else if i == j + 1 then bp else cyc[i - 1];
  }

  /** The block after bp stays a block of its own. */
  lemma InsertApart(ptr: Cells, size: Cells, cyc: seq<nat>, j: nat, bp: nat)
    requires Ring(ptr, size, cyc) && Place(size, cyc, j, bp) && (j + 1 < |cyc| ==> End(size, bp) != cyc[j + 1])
    ensures var cyc' := Inserted(cyc, j, bp, j + 1);
            && Linked(ptr[bp := Succ(cyc, j)][cyc[j] := bp], cyc')
            && Sized(size, cyc') && Apart(size, cyc', j)
  {
    PlaceBetween(size, cyc, j, bp);
    RingDistinct(size, cyc, |cyc|);
    LinkInserted(ptr, cyc, j, bp, j + 1);
    hide Linked;
    hide Sized;
    hide Apart;
    SpacedApart(ptr, size, cyc, j, bp);
  }

  lemma SpacedJoined(ptr: Cells, size: Cells, cyc: seq<nat>, j: nat, bp: nat)
    requires Ring(ptr, size, cyc) && Place(size, cyc, j, bp) && j + 1 < |cyc| && End(size, bp) == cyc[j + 1]
    ensures var cyc' := Inserted(cyc, j, bp, j + 2);
            var size' := size[bp := size[bp] + size[cyc[j + 1]]];
            Sized(size', cyc') && Apart(size', cyc', j)
  {
    hide Linked;
    PlaceBetween(size, cyc, j, bp);
    RingDistinct(size, cyc, |cyc|);
    var cyc' := Inserted(cyc, j, bp, j + 2);
    assert forall i: nat :: i < |cyc'| ==> cyc'[i] == if i <= j then cyc[i] else if i == j + 1 then bp else cyc[i];
  }

  /** The block after bp is adjacent and becomes part of it. */
  lemma InsertJoined(ptr: Cells, size: Cells, cyc: seq<nat>, j: nat, bp: nat)
    requires Ring(ptr, size, cyc) && Place(size, cyc, j, bp) && j + 1 < |cyc| && End(size, bp) == cyc[j + 1]
    ensures var cyc' := Inserted(cyc, j, bp, j + 2);
            var size' := size[bp := size[bp] + size[cyc[j + 1]]];
            && Linked(ptr[bp := Succ(cyc, j + 1)][cyc[j] := bp], cyc')
            && Sized(size', cyc') && Apart(size', cyc', j)
  {
    PlaceBetween(size, cyc, j, bp);
    RingDistinct(size, cyc, |cyc|);
    LinkInserted(ptr, cyc, j, bp, j + 2);
    hide Linked;
    hide Sized;
    hide Apart;
    SpacedJoined(ptr, size, cyc, j, bp);
  }

  /** Joining block m + 1 into the adjacent block m. */
  lemma JoinPrevious(ptr: Cells, size: Cells, cyc: seq<nat>, m: nat)
    requires Linked(ptr, cyc) && Sized(size, cyc) && Apart(size, cyc, m) && m + 1 < |cyc|
    requires End(size, cyc[m]) == cyc[m + 1] && m > 0
    ensures var cyc' := cyc[..m + 1] + cyc[m + 2..];
            Ring(ptr[cyc[m] := Succ(cyc, m + 1)], size[cyc[m] := size[cyc[m]] + size[cyc[m + 1]]], cyc')
  {
    RingDistinct(size, cyc, m);
    LinkRemoved(ptr, cyc, m, m + 2);
    hide Linked;
    var cyc' := cyc[..m + 1] + cyc[m + 2..];
    assert forall i: nat :: i < |cyc'| ==> cyc'[i] == if i <= m then cyc[i] else cyc[i + 1];
  }

  lemma NotJoined(ptr: Cells, size: Cells, cyc: seq<nat>, m: nat)
    requires Linked(ptr, cyc) && Sized(size, cyc) && Apart(size, cyc, m) && m + 1 < |cyc|
    requires End(size, cyc[m]) != cyc[m + 1]
    ensures Ring(ptr, size, cyc)
  {
    forall i: nat, j: nat | i < j < |cyc|
      ensures End(size, cyc[i]) < cyc[j]
    {
      if i == m && j > m + 1 {
        assert End(size, cyc[m]) <= cyc[m + 1];
        assert End(size, cyc[m + 1]) < cyc[j];
      }
    }
  }

  // ---------------------------------------------------------------- units and sums

  /** The free units, with those of bp added. */
  ghost predicate FreePlus(size: Cells, cyc: seq<nat>, size': Cells, cyc': seq<nat>, bp: nat, n: nat) {
    forall u: nat :: Free(size', cyc', u) <==> Free(size, cyc, u) || Within(bp, n, u)
  }

  lemma InsertedUnits(size: Cells, cyc: seq<nat>, j: nat, bp: nat, u: nat)
    requires Sized(size, cyc) && j < |cyc| && bp in size
    ensures Free(size, Inserted(cyc, j, bp, j + 1), u) <==> Free(size, cyc, u) || Within(bp, size[bp], u)
  {
    var cyc' := Inserted(cyc, j, bp, j + 1);
    if Free(size, cyc, u) {
      var i: nat :| i < |cyc| && cyc[i] in size && Within(cyc[i], size[cyc[i]], u);
      assert cyc'[if i <= j then i else i + 1] == cyc[i];
    }
    if Within(bp, size[bp], u) {
      assert cyc'[j + 1] == bp;
    }
    if Free(size, cyc', u) {
      var i: nat :| i < |cyc'| && cyc'[i] in size && Within(cyc'[i], size[cyc'[i]], u);
      assert i != j + 1 ==> cyc'[i] == cyc[if i <= j then i else i - 1];
    }
  }

  /** Joining two adjacent neighbours covers the same units. */
  lemma JoinedUnits(size: Cells, cyc: seq<nat>, m: nat, u: nat)
    requires Sized(size, cyc) && NoRepeat(cyc) && m + 1 < |cyc| && End(size, cyc[m]) == cyc[m + 1]
    ensures Free(size[cyc[m] := size[cyc[m]] + size[cyc[m + 1]]], cyc[..m + 1] + cyc[m + 2..], u)
            <==> Free(size, cyc, u)
  {
    var cyc' := cyc[..m + 1] + cyc[m + 2..];
    var size' := size[cyc[m] := size[cyc[m]] + size[cyc[m + 1]]];
    assert forall i: nat :: i < |cyc'| ==> cyc'[i] == if i <= m then cyc[i] else cyc[i + 1];
    assert cyc'[m] == cyc[m];
    if Free(size, cyc, u) {
      var i: nat :| i < |cyc| && cyc[i] in size && Within(cyc[i], size[cyc[i]], u);
      var i' := if i <= m then i else i - 1;
      assert Within(cyc'[i'], size'[cyc'[i']], u);
    }
    if Free(size', cyc', u) {
      var i: nat :| i < |cyc'| && cyc'[i] in size' && Within(cyc'[i], size'[cyc'[i]], u);
      if i != m {
        assert Within(cyc'[i], size[cyc'[i]], u);
      } else {
        assert Within(cyc[m], size[cyc[m]], u) || Within(cyc[m + 1], size[cyc[m + 1]], u);
      }
    }
  }

  function Get(size: Cells, a: nat): nat {
    if a in size then size[a] else 0
  }

  /** All free units. */
  function Sum(size: Cells, cyc: seq<nat>): nat {
    if cyc == [] then 0 else Get(size, cyc[0]) + Sum(size, cyc[1..])
  }

  lemma {:induction false} SumConcat(size: Cells, a: seq<nat>, b: seq<nat>)
    ensures Sum(size, a + b) == Sum(size, a) + Sum(size, b)
  {
    if a == [] {
      assert a + b == b;
    } else {
      assert (a + b)[1..] == a[1..] + b;
      SumConcat(size, a[1..], b);
    }
  }

  lemma {:induction false} SumSame(size: Cells, size': Cells, a: seq<nat>)
    requires forall i: nat :: i < |a| ==> Get(size', a[i]) == Get(size, a[i])
    ensures Sum(size', a) == Sum(size, a)
  {
    if a != [] {
      SumSame(size, size', a[1..]);
    }
  }

  /** The sum seen around position j. */
  lemma SumAt(size: Cells, cyc: seq<nat>, j: nat)
    requires j < |cyc|
    ensures Sum(size, cyc) == Sum(size, cyc[..j]) + Get(size, cyc[j]) + Sum(size, cyc[j + 1..])
  {
    assert cyc == cyc[..j] + cyc[j..];
    SumConcat(size, cyc[..j], cyc[j..]);
    assert cyc[j..][1..] == cyc[j + 1..];
  }

  lemma InsertedSum(size: Cells, cyc: seq<nat>, j: nat, bp: nat)
    requires j < |cyc|
    ensures Sum(size, Inserted(cyc, j, bp, j + 1)) == Sum(size, cyc) + Get(size, bp)
  {
    var cyc' := Inserted(cyc, j, bp, j + 1);
    SumAt(size, cyc', j + 1);
    assert cyc'[..j + 1] == cyc[..j + 1] && cyc'[j + 2..] == cyc[j + 1..];
    SumConcat(size, cyc[..j + 1], cyc[j + 1..]);
    assert cyc[..j + 1] + cyc[j + 1..] == cyc;
  }

  lemma JoinedSum(size: Cells, cyc: seq<nat>, m: nat)
    requires Sized(size, cyc) && NoRepeat(cyc) && m + 1 < |cyc|
    ensures Sum(size[cyc[m] := size[cyc[m]] + size[cyc[m + 1]]], cyc[..m + 1] + cyc[m + 2..]) == Sum(size, cyc)
  {
    var cyc' := cyc[..m + 1] + cyc[m + 2..];
    var size' := size[cyc[m] := size[cyc[m]] + size[cyc[m + 1]]];
    SumAt(size', cyc', m);
    assert cyc'[..m] == cyc[..m] && cyc'[m + 1..] == cyc[m + 2..] && cyc'[m] == cyc[m];
    SumSame(size, size', cyc[..m]);
    SumSame(size, size', cyc[m + 2..]);
    SumAt(size, cyc, m);
    SumAt(size, cyc[m + 1..], 0);
    assert cyc[m + 1..][1..] == cyc[m + 2..] && cyc[m + 1..][..0] == [];
  }
}
