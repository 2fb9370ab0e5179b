/**
  Free and live blocks together: they partition the units obtained from sbrk, and the
  steps of malloc and free move units between the two sides.
 */
module HeapBlocks {
  import opened HeapList

  /** Unit u belongs to live block b. */
  predicate LiveIn(live: Cells, b: nat, u: nat) {
    b in live && Within(b, live[b], u)
  }

  ghost predicate Live(live: Cells, u: nat) {
    exists b: nat :: LiveIn(live, b, u)
  }

  /** Free and live blocks partition the units `held`. */
  ghost predicate Parted(size: Cells, cyc: seq<nat>, live: Cells, held: set<nat>) {
    && (forall b: nat :: b in live ==> b in size && size[b] == live[b] > 0)
    && (forall u: nat :: u in held <==> Free(size, cyc, u) || Live(live, u))
    && (forall u: nat :: !(Free(size, cyc, u) && Live(live, u)))
    && (forall u: nat, b: nat, c: nat :: LiveIn(live, b, u) && LiveIn(live, c, u) ==> b == c)
  }

  /** All live units. */
  ghost function LiveSum(live: Cells): nat {
    if live == map[] then 0 else
      var b :| b in live;
      live[b] + LiveSum(live - {b})
  }

  lemma {:induction false} LiveSumWithout(live: Cells, b: nat)
    requires b in live
    ensures LiveSum(live) == live[b] + LiveSum(live - {b})
    decreases live
  {
    var c :| c in live && LiveSum(live) == live[c] + LiveSum(live - {c});
    if c != b {
      LiveSumWithout(live - {c}, b);
      LiveSumWithout(live - {b}, c);
      assert live - {c} - {b} == live - {b} - {c};
    }
  }

  // ------------------------------------------------------------------------- free

  /** What free does after it has found block j: first the upper neighbour ... */
  ghost predicate JoinedUp(ptr: Cells, size: Cells, cyc: seq<nat>, j: nat, bp: nat, ptr1: Cells, size1: Cells,
                           cyc1: seq<nat>)
    requires j < |cyc| && bp in size && (forall i: nat :: i < |cyc| ==> cyc[i] in size)
  {
    if j + 1 < |cyc| && End(size, bp) == cyc[j + 1]
    then ptr1 == ptr[bp := Succ(cyc, j + 1)] && size1 == size[bp := size[bp] + size[cyc[j + 1]]]
         && cyc1 == Inserted(cyc, j, bp, j + 2)
    else ptr1 == ptr[bp := Succ(cyc, j)] && size1 == size && cyc1 == Inserted(cyc, j, bp, j + 1)
  }

  /** ... after which all but the lower neighbour is in order. */
  ghost predicate HalfDone(ptr1: Cells, size1: Cells, cyc1: seq<nat>, j: nat, bp: nat) {
    && j + 1 < |cyc1| && cyc1[j + 1] == bp
    && Linked(ptr1[cyc1[j] := bp], cyc1) && Sized(size1, cyc1) && Apart(size1, cyc1, j)
    && bp in ptr1 && ptr1[bp] == Succ(cyc1, j + 1)
  }

  lemma UpperDone(ptr: Cells, size: Cells, cyc: seq<nat>, j: nat, bp: nat, ptr1: Cells, size1: Cells, cyc1: seq<nat>)
    requires Ring(ptr, size, cyc) && Place(size, cyc, j, bp) && JoinedUp(ptr, size, cyc, j, bp, ptr1, size1, cyc1)
    ensures HalfDone(ptr1, size1, cyc1, j, bp) && cyc1[j] == cyc[j] && cyc1[0] == cyc[0]
    ensures size1[bp] >= size[bp]
  {
    if j + 1 < |cyc| && End(size, bp) == cyc[j + 1] {
      InsertJoined(ptr, size, cyc, j, bp);
    } else {
      InsertApart(ptr, size, cyc, j, bp);
    }
    hide Linked;
    hide Sized;
    hide Apart;
    hide Ring;
  }

  lemma UpperUnits(ptr: Cells, size: Cells, cyc: seq<nat>, j: nat, bp: nat, ptr1: Cells, size1: Cells, cyc1: seq<nat>)
    requires Ring(ptr, size, cyc) && Place(size, cyc, j, bp) && JoinedUp(ptr, size, cyc, j, bp, ptr1, size1, cyc1)
    ensures FreePlus(size, cyc, size1, cyc1, bp, size[bp])
    ensures Sum(size1, cyc1) == Sum(size, cyc) + size[bp]
  {
    PlaceBetween(size, cyc, j, bp);
    RingDistinct(size, cyc, |cyc|);
    hide Ring;
    hide Linked;
    hide Apart;
    hide Place;
    InsertedSum(size, cyc, j, bp);
    forall u: nat
      ensures Free(size, Inserted(cyc, j, bp, j + 1), u) <==> Free(size, cyc, u) || Within(bp, size[bp], u)
    {
      InsertedUnits(size, cyc, j, bp, u);
    }
    hide Free;
    if j + 1 < |cyc| && End(size, bp) == cyc[j + 1] {
      JoinedUpper(size, cyc, j, bp, size1, cyc1);
    }
  }

  lemma JoinedUpper(size: Cells, cyc: seq<nat>, j: nat, bp: nat, size1: Cells, cyc1: seq<nat>)
    requires Sized(size, cyc) && NoRepeat(cyc) && bp !in cyc && bp in size && size[bp] > 0 && j + 1 < |cyc|
    requires End(size, bp) == cyc[j + 1]
    requires size1 == size[bp := size[bp] + size[cyc[j + 1]]] && cyc1 == Inserted(cyc, j, bp, j + 2)
    ensures Sum(size1, cyc1) == Sum(size, Inserted(cyc, j, bp, j + 1))
    ensures forall u: nat :: Free(size1, cyc1, u) <==> Free(size, Inserted(cyc, j, bp, j + 1), u)
  {
    var mid := Inserted(cyc, j, bp, j + 1);
    SizedInserted(size, cyc, j, bp);
    NoRepeatInserted(cyc, j, bp);
    assert mid[j + 1] == bp && mid[j + 2] == cyc[j + 1];
    assert cyc1 == mid[..j + 2] + mid[j + 3..];
    JoinedSum(size, mid, j + 1);
    forall u: nat
      ensures Free(size1, cyc1, u) <==> Free(size, mid, u)
    {
      JoinedUnits(size, mid, j + 1, u);
    }
  }

  lemma NoRepeatInserted(cyc: seq<nat>, j: nat, bp: nat)
    requires NoRepeat(cyc) && bp !in cyc && j < |cyc|
    ensures NoRepeat(Inserted(cyc, j, bp, j + 1))
  {
    var mid := Inserted(cyc, j, bp, j + 1);
    assert forall i: nat :: i < |mid| ==> mid[i] == if i <= j then cyc[i] else if i == j + 1 then bp else cyc[i - 1];
  }

  lemma SizedInserted(size: Cells, cyc: seq<nat>, j: nat, bp: nat)
    requires Sized(size, cyc) && j < |cyc| && bp in size && size[bp] > 0
    ensures Sized(size, Inserted(cyc, j, bp, j + 1))
  {
  }

  /** The lower neighbour. */
  ghost predicate JoinedDown(ptr1: Cells, size1: Cells, cyc1: seq<nat>, j: nat, bp: nat, ptr2: Cells, size2: Cells,
                             cyc2: seq<nat>)
    requires HalfDone(ptr1, size1, cyc1, j, bp)
  {
    if End(size1, cyc1[j]) == bp
    then ptr2 == ptr1[cyc1[j] := ptr1[bp]] && size2 == size1[cyc1[j] := size1[cyc1[j]] + size1[bp]]
         && cyc2 == cyc1[..j + 1] + cyc1[j + 2..]
    else ptr2 == ptr1[cyc1[j] := bp] && size2 == size1 && cyc2 == cyc1
  }

  lemma LowerDone(ptr1: Cells, size1: Cells, cyc1: seq<nat>, j: nat, bp: nat, ptr2: Cells, size2: Cells, cyc2: seq<nat>)
    requires HalfDone(ptr1, size1, cyc1, j, bp) && JoinedDown(ptr1, size1, cyc1, j, bp, ptr2, size2, cyc2)
    requires cyc1[j] < bp
    ensures Ring(ptr2, size2, cyc2) && j < |cyc2| && cyc2[j] == cyc1[j] && cyc2[0] == cyc1[0]
    ensures exists i: nat :: i < |cyc2| && size2[cyc2[i]] >= size1[bp]
  {
    var p := cyc1[j];
    if End(size1, p) == bp {
      JoinPrevious(ptr1[p := bp], size1, cyc1, j);
      assert ptr1[p := bp][p := Succ(cyc1, j + 1)] == ptr2;
      assert size2[cyc2[j]] >= size1[bp];
    } else {
      NotJoined(ptr1[p := bp], size1, cyc1, j);
      assert size2[cyc2[j + 1]] >= size1[bp];
    }
  }

  lemma LowerUnits(ptr1: Cells, size1: Cells, cyc1: seq<nat>, j: nat, bp: nat, ptr2: Cells, size2: Cells,
                   cyc2: seq<nat>)
    requires HalfDone(ptr1, size1, cyc1, j, bp) && JoinedDown(ptr1, size1, cyc1, j, bp, ptr2, size2, cyc2)
    requires cyc1[j] < bp
    ensures forall u: nat :: Free(size2, cyc2, u) <==> Free(size1, cyc1, u)
    ensures Sum(size2, cyc2) == Sum(size1, cyc1)
  {
    if End(size1, cyc1[j]) == bp {
      JoinedLower(size1, cyc1, j, size2, cyc2);
    }
  }

  lemma JoinedLower(size: Cells, cyc: seq<nat>, j: nat, size': Cells, cyc': seq<nat>)
    requires Sized(size, cyc) && Apart(size, cyc, j) && 0 < j && j + 1 < |cyc| && End(size, cyc[j]) == cyc[j + 1]
    requires size' == size[cyc[j] := size[cyc[j]] + size[cyc[j + 1]]] && cyc' == cyc[..j + 1] + cyc[j + 2..]
    ensures forall u: nat :: Free(size', cyc', u) <==> Free(size, cyc, u)
    ensures Sum(size', cyc') == Sum(size, cyc)
  {
    hide Free;
    RingDistinct(size, cyc, j);
    JoinedSum(size, cyc, j);
    hide Apart;
    forall u: nat
      ensures Free(size', cyc', u) <==> Free(size, cyc, u)
    {
      JoinedUnits(size, cyc, j, u);
    }
  }

  /** Putting a live block on the free list keeps the partition. */
  lemma FreeKeepsParted(size: Cells, cyc: seq<nat>, live: Cells, held: set<nat>, size': Cells, cyc': seq<nat>, bp: nat)
    requires Parted(size, cyc, live, held) && bp in live && FreePlus(size, cyc, size', cyc', bp, live[bp])
    requires forall b: nat :: b in live && b != bp ==> b in size' && size'[b] == size[b]
    ensures Parted(size', cyc', live - {bp}, held)
  {
    var live' := live - {bp};
    hide Free;
    assert forall b: nat, u: nat :: LiveIn(live', b, u) <==> LiveIn(live, b, u) && b != bp;
    forall u: nat
      ensures Live(live, u) <==> Live(live', u) || Within(bp, live[bp], u)
      ensures !(Live(live', u) && Within(bp, live[bp], u))
    {
      assert LiveIn(live, bp, u) <==> Within(bp, live[bp], u);
    }
    hide Live;
    hide LiveIn;
  }

  /** A live block lies between two free ones. */
  lemma LivePlace(size: Cells, cyc: seq<nat>, live: Cells, held: set<nat>, bp: nat) returns (j: nat)
    requires Sized(size, cyc) && Apart(size, cyc, |cyc|) && Parted(size, cyc, live, held) && bp in live && cyc[0] < bp
    ensures Place(size, cyc, j, bp)
    ensures j + 1 < |cyc| ==> bp < cyc[j + 1]
  {
    j := LastBelow(cyc, bp);
    assert LiveIn(live, bp, bp);
    assert Live(live, bp) && !Free(size, cyc, bp);
    assert !Within(cyc[j], size[cyc[j]], bp);
    if j + 1 < |cyc| {
      var c := cyc[j + 1];
      assert Within(cyc[j + 1], size[cyc[j + 1]], c);
      assert Free(size, cyc, c) && !Live(live, c);
      assert !LiveIn(live, bp, c);
    }
  }

  lemma {:induction false} LastBelow(cyc: seq<nat>, bp: nat) returns (j: nat)
    requires |cyc| > 0 && cyc[0] < bp
    ensures j < |cyc| && cyc[j] < bp && (j + 1 < |cyc| ==> bp <= cyc[j + 1])
    decreases |cyc|
  {
    if |cyc| == 1 || bp <= cyc[1] {
      j := 0;
    } else {
      j := LastBelow(cyc[1..], bp);
      j := j + 1;
    }
  }

  // ----------------------------------------------------------------------- malloc

  /** The free units, without the n units from q, all of which were free. */
  ghost predicate FreeMinus(size: Cells, cyc: seq<nat>, size': Cells, cyc': seq<nat>, q: nat, n: nat) {
    && (forall u: nat :: Free(size', cyc', u) <==> Free(size, cyc, u) && !Within(q, n, u))
    && (forall u: nat :: Within(q, n, u) ==> Free(size, cyc, u))
  }

  /** Only one free block holds a unit. */
  lemma OneFree(size: Cells, cyc: seq<nat>, i: nat, j: nat, u: nat)
    requires Sized(size, cyc) && Apart(size, cyc, |cyc|) && i < |cyc| && j < |cyc|
    ensures Within(cyc[i], size[cyc[i]], u) && Within(cyc[j], size[cyc[j]], u) ==> i == j
  {
  }

  /** Block i leaves the cycle. */
  lemma TakeWhole(ptr: Cells, size: Cells, cyc: seq<nat>, i: nat)
    requires Ring(ptr, size, cyc) && 0 < i < |cyc|
    ensures Ring(ptr[cyc[i - 1] := Succ(cyc, i)], size, cyc[..i] + cyc[i + 1..])
  {
    RingDistinct(size, cyc, |cyc|);
    LinkRemoved(ptr, cyc, i - 1, i + 1);
    hide Linked;
    var cyc' := cyc[..i] + cyc[i + 1..];
    assert forall k: nat :: k < |cyc'| ==> cyc'[k] == if k < i then cyc[k] else cyc[k + 1];
  }

  lemma WholeSum(size: Cells, cyc: seq<nat>, i: nat)
    requires 0 < i < |cyc|
    ensures Sum(size, cyc[..i] + cyc[i + 1..]) + Get(size, cyc[i]) == Sum(size, cyc)
  {
    SumAt(size, cyc, i);
    SumConcat(size, cyc[..i], cyc[i + 1..]);
  }

  lemma WholeUnits(ptr: Cells, size: Cells, cyc: seq<nat>, i: nat)
    requires Ring(ptr, size, cyc) && 0 < i < |cyc|
    ensures FreeMinus(size, cyc, size, cyc[..i] + cyc[i + 1..], cyc[i], size[cyc[i]])
  {
    hide Linked;
    hide Apart;
    var cyc' := cyc[..i] + cyc[i + 1..];
    forall u: nat
      ensures Free(size, cyc', u) <==> Free(size, cyc, u) && !Within(cyc[i], size[cyc[i]], u)
    {
      WholeUnit(ptr, size, cyc, i, cyc', u);
    }
  }

  lemma WholeUnit(ptr: Cells, size: Cells, cyc: seq<nat>, i: nat, cyc': seq<nat>, u: nat)
    requires Ring(ptr, size, cyc) && 0 < i < |cyc| && cyc' == cyc[..i] + cyc[i + 1..]
    ensures Free(size, cyc', u) <==> Free(size, cyc, u) && !Within(cyc[i], size[cyc[i]], u)
  {
    hide Linked;
    if Free(size, cyc', u) {
      StillFree(ptr, size, cyc, i, cyc', u);
    }
    hide Apart;
    if Free(size, cyc, u) && !Within(cyc[i], size[cyc[i]], u) {
      var k: nat :| k < |cyc| && cyc[k] in size && Within(cyc[k], size[cyc[k]], u);
      var k' := if k < i then k else k - 1;
      assert cyc'[k'] == cyc[k];
    }
  }

  lemma StillFree(ptr: Cells, size: Cells, cyc: seq<nat>, i: nat, cyc': seq<nat>, u: nat)
    requires Ring(ptr, size, cyc) && 0 < i < |cyc| && cyc' == cyc[..i] + cyc[i + 1..] && Free(size, cyc', u)
    ensures Free(size, cyc, u) && !Within(cyc[i], size[cyc[i]], u)
  {
    hide Linked;
    var k: nat :| k < |cyc'| && cyc'[k] in size && Within(cyc'[k], size[cyc'[k]], u);
    var k': nat := if k < i then k else k + 1;
    assert cyc'[k] == cyc[k'];
    OneFree(size, cyc, k', i, u);
    hide Apart;
  }

  /** The last n units of block i are split off under a header of their own. */
  lemma TakeTail(ptr: Cells, size: Cells, cyc: seq<nat>, i: nat, n: nat)
    requires Ring(ptr, size, cyc) && i < |cyc| && 0 < n < size[cyc[i]]
    ensures var q := cyc[i] + (size[cyc[i]] - n);
            q !in cyc && Ring(ptr, size[cyc[i] := size[cyc[i]] - n][q := n], cyc)
  {
    hide Linked;
    TailFresh(size, cyc, i, n);
    RingDistinct(size, cyc, |cyc|);
    var q := cyc[i] + (size[cyc[i]] - n);
    var size' := size[cyc[i] := size[cyc[i]] - n][q := n];
    assert forall k: nat :: k < |cyc| ==> size'[cyc[k]] == if k == i then size[cyc[k]] - n else size[cyc[k]];
  }

  lemma TailFresh(size: Cells, cyc: seq<nat>, i: nat, n: nat)
    requires Sized(size, cyc) && Apart(size, cyc, |cyc|) && i < |cyc| && 0 < n < size[cyc[i]]
    ensures cyc[i] + (size[cyc[i]] - n) !in cyc
  {
    var q := cyc[i] + (size[cyc[i]] - n);
    forall k: nat | k < |cyc|
      ensures cyc[k] != q
    {
      assert k < i ==> End(size, cyc[k]) < cyc[i];
      assert i < k ==> End(size, cyc[i]) < cyc[k];
    }
  }

  lemma TailSum(size: Cells, cyc: seq<nat>, i: nat, n: nat)
    requires Sized(size, cyc) && NoRepeat(cyc) && i < |cyc| && 0 < n < size[cyc[i]]
    requires cyc[i] + (size[cyc[i]] - n) !in cyc
    ensures var q := cyc[i] + (size[cyc[i]] - n);
            Sum(size[cyc[i] := size[cyc[i]] - n][q := n], cyc) + n == Sum(size, cyc)
  {
    var q := cyc[i] + (size[cyc[i]] - n);
    var size' := size[cyc[i] := size[cyc[i]] - n][q := n];
    SumAt(size, cyc, i);
    SumAt(size', cyc, i);
    SumSame(size, size', cyc[..i]);
    SumSame(size, size', cyc[i + 1..]);
  }

  lemma TailUnits(ptr: Cells, size: Cells, cyc: seq<nat>, i: nat, n: nat)
    requires Ring(ptr, size, cyc) && i < |cyc| && 0 < n < size[cyc[i]]
    ensures var q := cyc[i] + (size[cyc[i]] - n);
            FreeMinus(size, cyc, size[cyc[i] := size[cyc[i]] - n][q := n], cyc, q, n)
  {
    TakeTail(ptr, size, cyc, i, n);
    RingDistinct(size, cyc, |cyc|);
    hide Linked;
    var q := cyc[i] + (size[cyc[i]] - n);
    var size' := size[cyc[i] := size[cyc[i]] - n][q := n];
    assert forall k: nat :: k < |cyc| ==> size'[cyc[k]] == if k == i then size[cyc[k]] - n else size[cyc[k]];
    forall u: nat
      ensures Free(size', cyc, u) <==> Free(size, cyc, u) && !Within(q, n, u)
      ensures Within(q, n, u) ==> Within(cyc[i], size[cyc[i]], u)
    {
      TailUnit(ptr, size, cyc, i, n, size', u);
    }
  }

  lemma TailUnit(ptr: Cells, size: Cells, cyc: seq<nat>, i: nat, n: nat, size': Cells, u: nat)
    requires Ring(ptr, size, cyc) && i < |cyc| && 0 < n < size[cyc[i]]
    requires forall k: nat :: k < |cyc| ==>
                cyc[k] in size' && size'[cyc[k]] == if k == i then size[cyc[k]] - n else size[cyc[k]]
    ensures var q := cyc[i] + (size[cyc[i]] - n);
            Free(size', cyc, u) <==> Free(size, cyc, u) && !Within(q, n, u)
  {
    hide Linked;
    var q := cyc[i] + (size[cyc[i]] - n);
    if Free(size', cyc, u) {
      var k: nat :| k < |cyc| && cyc[k] in size' && Within(cyc[k], size'[cyc[k]], u);
      OneFree(size, cyc, k, i, u);
    }
    if Free(size, cyc, u) && !Within(q, n, u) {
      var k: nat :| k < |cyc| && cyc[k] in size && Within(cyc[k], size[cyc[k]], u);
      assert Within(cyc[k], size'[cyc[k]], u);
    }
  }

  /** Handing out free units keeps the partition. */
  lemma AllocKeepsParted(size: Cells, cyc: seq<nat>, live: Cells, held: set<nat>, size': Cells, cyc': seq<nat>, q: nat,
                         n: nat)
    requires Parted(size, cyc, live, held) && FreeMinus(size, cyc, size', cyc', q, n) && n > 0
    requires q in size' && size'[q] == n && forall b: nat :: b in live ==> b in size' && size'[b] == size[b]
    ensures q !in live && Parted(size', cyc', live[q := n], held)
  {
    hide Free;
    assert Within(q, n, q);
    assert q in live ==> LiveIn(live, q, q);
    assert !Live(live, q);
    assert q !in live;
    var live' := live[q := n];
    assert forall b: nat, u: nat :: LiveIn(live', b, u) <==> (if b == q then Within(q, n, u) else LiveIn(live, b, u));
    forall u: nat
      ensures Live(live', u) <==> Live(live, u) || Within(q, n, u)
      ensures !(Live(live, u) && Within(q, n, u))
    {
      assert LiveIn(live', q, u) <==> Within(q, n, u);
    }
    forall u: nat, b: nat, c: nat | LiveIn(live', b, u) && LiveIn(live', c, u)
      ensures b == c
    {
      assert b != q ==> Live(live, u);
      assert c != q ==> Live(live, u);
    }
    hide Live;
    hide LiveIn;
  }

  /** A free block's header is no live block. */
  lemma FreeNotLive(size: Cells, cyc: seq<nat>, live: Cells, held: set<nat>, i: nat)
    requires Sized(size, cyc) && Parted(size, cyc, live, held) && 0 < i < |cyc|
    ensures cyc[i] !in live
  {
    assert Within(cyc[i], size[cyc[i]], cyc[i]);
    assert Free(size, cyc, cyc[i]) && !Live(live, cyc[i]);
    assert !LiveIn(live, cyc[i], cyc[i]);
  }

  /** New units, beyond all others, as a live block. */
  lemma ClaimKeepsParted(size: Cells, cyc: seq<nat>, live: Cells, held: set<nat>, a: nat, n: nat, held': set<nat>)
    requires Parted(size, cyc, live, held) && n > 0 && a !in cyc && (forall u: nat :: u in held ==> u < a)
    requires forall u: nat :: u in held' <==> u in held || Within(a, n, u)
    ensures a !in live && Parted(size[a := n], cyc, live[a := n], held')
  {
    assert a in live ==> LiveIn(live, a, a);
    assert !Live(live, a);
    assert a !in live;
    var live', size' := live[a := n], size[a := n];
    assert forall b: nat, u: nat :: LiveIn(live', b, u) <==> (if b == a then Within(a, n, u) else LiveIn(live, b, u));
    forall u: nat
      ensures Live(live', u) <==> Live(live, u) || Within(a, n, u)
      ensures !(Live(live, u) && Within(a, n, u))
      ensures Free(size', cyc, u) <==> Free(size, cyc, u)
    {
      assert LiveIn(live', a, u) <==> Within(a, n, u);
      assert forall i: nat :: i < |cyc| ==> cyc[i] != a;
    }
    hide Free;
    forall u: nat, b: nat, c: nat | LiveIn(live', b, u) && LiveIn(live', c, u)
      ensures b == c
    {
      assert b != a ==> Live(live, u);
      assert c != a ==> Live(live, u);
    }
    hide Live;
    hide LiveIn;
  }

  // ------------------------------------------------------------ the steps of free

  /** What free reads at block j. */
  lemma NextFacts(ptr: Cells, size: Cells, cyc: seq<nat>, j: nat, bp: nat)
    requires Ring(ptr, size, cyc) && Place(size, cyc, j, bp)
    ensures cyc[j] in ptr && cyc[j] in size && ptr[cyc[j]] == Succ(cyc, j)
    ensures bp + size[bp] == ptr[cyc[j]] <==> j + 1 < |cyc| && End(size, bp) == cyc[j + 1]
    ensures j + 1 < |cyc| ==> cyc[j + 1] in ptr && cyc[j + 1] in size && ptr[cyc[j + 1]] == Succ(cyc, j + 1)
  {
    LinkAt(ptr, cyc, j);
    if j + 1 < |cyc| {
      LinkAt(ptr, cyc, j + 1);
    }
    assert 0 < j ==> End(size, cyc[0]) < cyc[j];
  }

  /** Blocks end where the managed units end, so 32-bit sizes do not wrap. */
  lemma EndsBelow(size: Cells, cyc: seq<nat>, live: Cells, held: set<nat>, limit: nat)
    requires Sized(size, cyc) && Parted(size, cyc, live, held) && (forall u: nat :: u in held ==> u < limit)
    ensures forall i: nat :: 0 < i < |cyc| ==> End(size, cyc[i]) <= limit
    ensures forall b: nat :: b in live ==> b + live[b] <= limit
  {
    forall i: nat | 0 < i < |cyc|
      ensures End(size, cyc[i]) <= limit
    {
      var u := End(size, cyc[i]) - 1;
      assert Within(cyc[i], size[cyc[i]], u);
      assert Free(size, cyc, u);
    }
    forall b: nat | b in live
      ensures b + live[b] <= limit
    {
      var u := b + live[b] - 1;
      assert LiveIn(live, b, u);
      assert Live(live, u);
    }
  }

  /** All of free's effect, once both neighbours are done. */
  lemma FreeDone(ptr: Cells, size: Cells, cyc: seq<nat>, live: Cells, held: set<nat>, j: nat, bp: nat,
                 ptr1: Cells, size1: Cells, cyc1: seq<nat>, ptr2: Cells, size2: Cells, cyc2: seq<nat>)
    requires Ring(ptr, size, cyc) && Place(size, cyc, j, bp) && Parted(size, cyc, live, held) && bp in live
    requires JoinedUp(ptr, size, cyc, j, bp, ptr1, size1, cyc1)
    requires HalfDone(ptr1, size1, cyc1, j, bp) && JoinedDown(ptr1, size1, cyc1, j, bp, ptr2, size2, cyc2)
    ensures Ring(ptr2, size2, cyc2) && j < |cyc2| && cyc2[j] == cyc[j] && cyc2[0] == cyc[0]
    ensures Parted(size2, cyc2, live - {bp}, held)
    ensures Sum(size2, cyc2) + LiveSum(live - {bp}) == Sum(size, cyc) + LiveSum(live)
    ensures exists i: nat :: i < |cyc2| && cyc2[i] in size2 && size2[cyc2[i]] >= live[bp]
  {
    assert size[bp] == live[bp] && bp in size;
    UpperDone(ptr, size, cyc, j, bp, ptr1, size1, cyc1);
    UpperUnits(ptr, size, cyc, j, bp, ptr1, size1, cyc1);
    LowerDone(ptr1, size1, cyc1, j, bp, ptr2, size2, cyc2);
    LowerUnits(ptr1, size1, cyc1, j, bp, ptr2, size2, cyc2);
    LiveSumWithout(live, bp);
    OtherSizes(ptr, size, cyc, live, held, j, bp, ptr1, size1, cyc1, ptr2, size2, cyc2);
    RingSized(ptr2, size2, cyc2);
    hide *;
    SameFreePlus(size, cyc, size1, cyc1, size2, cyc2, bp, size[bp]);
    FreeKeepsParted(size, cyc, live, held, size2, cyc2, bp);
  }

  lemma RingSized(ptr: Cells, size: Cells, cyc: seq<nat>)
    requires Ring(ptr, size, cyc)
    ensures forall i: nat :: i < |cyc| ==> cyc[i] in size
  {
  }

  lemma SameFreePlus(size: Cells, cyc: seq<nat>, size1: Cells, cyc1: seq<nat>, size2: Cells, cyc2: seq<nat>, bp: nat,
                     n: nat)
    requires FreePlus(size, cyc, size1, cyc1, bp, n)
    requires forall u: nat :: Free(size2, cyc2, u) <==> Free(size1, cyc1, u)
    ensures FreePlus(size, cyc, size2, cyc2, bp, n)
  {
    hide Free;
  }

  lemma OtherSizes(ptr: Cells, size: Cells, cyc: seq<nat>, live: Cells, held: set<nat>, j: nat, bp: nat,
                   ptr1: Cells, size1: Cells, cyc1: seq<nat>, ptr2: Cells, size2: Cells, cyc2: seq<nat>)
    requires Sized(size, cyc) && Place(size, cyc, j, bp) && Parted(size, cyc, live, held) && bp in live
    requires JoinedUp(ptr, size, cyc, j, bp, ptr1, size1, cyc1)
    requires HalfDone(ptr1, size1, cyc1, j, bp) && JoinedDown(ptr1, size1, cyc1, j, bp, ptr2, size2, cyc2)
    ensures forall b: nat :: b in live && b != bp ==> b in size2 && size2[b] == size[b]
  {
    assert cyc1[j] == cyc[j];
    if j > 0 {
      FreeNotLive(size, cyc, live, held, j);
    }
  }
}
