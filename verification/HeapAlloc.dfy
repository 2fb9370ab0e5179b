/**
  malloc, free and morecore of userspace/include/stdlib.c.  Addresses are counted in
  headers of 16 bytes; `base` is the static header below the heap.
 */
module HeapAlloc {
  import opened Wrappers
  import opened HeapList
  import opened HeapBlocks

  /** 2^32: sizes are 32-bit. */
  const TWO_32: nat := 0x1_0000_0000

  /** The units a request needs, header included. */
  function Units(nbytes: nat): (n: nat)
    ensures n > 0 && (n - 1) * 16 >= nbytes
  {
    (nbytes + 15) / 16 + 1
  }

  /** One unit less would not do. */
  lemma UnitsLeast(nbytes: nat, n: nat)
    ensures n >= Units(nbytes) <==> n > 0 && 16 * (n - 1) >= nbytes
  {
  }

  /** How many steps from position i to position j around a cycle of n. */
  function Dist(n: nat, i: nat, j: nat): nat
    requires i < n && j < n
  {
    if i <= j then j - i else j + n - i
  }

  /** The position t + 1 steps after f. */
  function Rot(n: nat, f: nat, t: nat): (r: nat)
    requires f < n && t < n
    ensures r < n
  {
    if f + 1 + t < n then f + 1 + t else f + 1 + t - n
  }

  ghost predicate Stops(ptr: Cells, p: nat, bp: nat)
    requires p in ptr
  {
    (bp > p && bp < ptr[p]) || (p >= ptr[p] && (bp > p || bp < ptr[p]))
  }

  /** The search of free stops exactly at bp's place. */
  lemma StopsAt(ptr: Cells, size: Cells, cyc: seq<nat>, j: nat, bp: nat, i: nat)
    requires Ring(ptr, size, cyc) && j < |cyc| && cyc[j] < bp && (j + 1 < |cyc| ==> bp < cyc[j + 1]) && i < |cyc|
    ensures cyc[i] in ptr && ptr[cyc[i]] == Succ(cyc, i)
    ensures Stops(ptr, cyc[i], bp) <==> i == j
  {
    LinkAt(ptr, cyc, i);
    hide Linked;
    assert forall k: nat, l: nat :: k < l < |cyc| ==> cyc[k] < cyc[l] by {
      forall k: nat, l: nat | k < l < |cyc|
        ensures cyc[k] < cyc[l]
      {
        assert End(size, cyc[k]) < cyc[l];
      }
    }
    hide Apart;
  }

  /** The free list is one ordered cycle through base, free and live blocks partition the
      managed units, and their sizes add up to what was obtained. */
  ghost predicate InOrder(ptr: Cells, size: Cells, freep: nat, base: nat, cyc: seq<nat>, live: Cells, held: set<nat>,
                          obtained: nat) {
    && Ring(ptr, size, cyc) && cyc[0] == base && freep in cyc && base > 0
    && Parted(size, cyc, live, held)
    && (forall u: nat :: u in held ==> base < u < TWO_32)
    && Sum(size, cyc) + LiveSum(live) == obtained
  }

  /** The free list: from base once around in address order, a gap behind every block, so that
      no two free blocks are left unmerged; only base is empty. */
  lemma ListShape(ptr: Cells, size: Cells, freep: nat, base: nat, cyc: seq<nat>, live: Cells, held: set<nat>,
                  obtained: nat, i: nat)
    requires InOrder(ptr, size, freep, base, cyc, live, held, obtained) && i < |cyc|
    ensures cyc[0] == base && cyc[i] in ptr && cyc[i] in size
    ensures ptr[cyc[i]] == cyc[if i + 1 < |cyc| then i + 1 else 0]
    ensures i + 1 < |cyc| ==> cyc[i] + size[cyc[i]] < cyc[i + 1]
    ensures size[cyc[i]] == 0 <==> i == 0
  {
    hide Parted;
    hide Sum;
    hide LiveSum;
    LinkAt(ptr, cyc, i);
    assert i + 1 < |cyc| ==> End(size, cyc[i]) < cyc[i + 1];
  }

  /** Live blocks lie within the managed units and do not overlap each other ... */
  lemma LiveApart(ptr: Cells, size: Cells, freep: nat, base: nat, cyc: seq<nat>, live: Cells, held: set<nat>,
                  obtained: nat, b: nat, c: nat)
    requires InOrder(ptr, size, freep, base, cyc, live, held, obtained) && b in live && c in live && b < c
    ensures b + live[b] <= c
    ensures forall u: nat :: b <= u < b + live[b] ==> u in held
  {
    hide Ring;
    hide Sum;
    hide LiveSum;
    assert LiveIn(live, c, c);
    assert c < b + live[b] ==> LiveIn(live, b, c);
    forall u: nat | b <= u < b + live[b]
      ensures u in held
    {
      assert LiveIn(live, b, u);
    }
  }

  /** ... or a free one. */
  lemma FreeApart(ptr: Cells, size: Cells, freep: nat, base: nat, cyc: seq<nat>, live: Cells, held: set<nat>,
                  obtained: nat, b: nat, i: nat)
    requires InOrder(ptr, size, freep, base, cyc, live, held, obtained) && b in live && 0 < i < |cyc|
    ensures cyc[i] in size && (b + live[b] <= cyc[i] || cyc[i] + size[cyc[i]] <= b)
  {
    hide Linked;
    hide Apart;
    hide Sum;
    hide LiveSum;
    var c := cyc[i];
    assert c in size && Within(c, size[c], c) && Free(size, cyc, c);
    assert LiveIn(live, b, b) && Live(live, b);
    assert b <= c < b + live[b] ==> LiveIn(live, b, c) && Live(live, c);
    assert c <= b < c + size[c] ==> Within(c, size[c], b) && Free(size, cyc, b);
  }

  ghost predicate HasFit(size: Cells, cyc: seq<nat>, n: nat) {
    exists i: nat :: i < |cyc| && cyc[i] in size && size[cyc[i]] >= n
  }

  function Block(a: nat, n: nat): set<nat> {
    set u: nat | u < a + n && Within(a, n, u)
  }

  /** morecore asks for at least 4096 units. */
  function Core(nunits: nat): nat { if nunits < 4096 then 4096 else nunits }

  lemma CoreLeast(n: nat, nunits: nat)
    ensures n >= Core(nunits) <==> n >= nunits && n >= 4096
  {
  }

  /** The units of a block. */
  lemma BlockUnits(a: nat, n: nat, u: nat)
    ensures u in Block(a, n) <==> a <= u < a + n
  {
  }

  /** The units sbrk adds when asked for nu: its argument is nu * 16 as a 32-bit int. */
  function Provided(nu: nat): nat {
    var x := nu * 16 % TWO_32;
    if x < 0x8000_0000 then x / 16 else 0
  }

  /** sbrk hands out addresses beyond everything before, in the part of the address space
      that 32-bit sizes can count. */
  ghost predicate GrantOk(grant: Option<nat>, nunits: nat, base: nat, held: set<nat>) {
    grant.Some? ==>
      && base < grant.value && (forall u: nat :: u in held ==> u < grant.value)
      && grant.value + Core(nunits) <= TWO_32
  }

  /** The search has passed t blocks after freep, all too small, and looks at p. */
  ghost predicate ScanAt(size: Cells, cyc: seq<nat>, freep: nat, f: nat, t: nat, prevp: nat, p: nat, n: nat) {
    && f < |cyc| && cyc[f] == freep && t < |cyc|
    && p == cyc[Rot(|cyc|, f, t)] && prevp == (if t == 0 then cyc[f] else cyc[Rot(|cyc|, f, t - 1)])
    && forall s: nat :: s < t ==> Get(size, cyc[Rot(|cyc|, f, s)]) < n
  }

  lemma FreepIndex(ptr: Cells, size: Cells, freep: nat, base: nat, cyc: seq<nat>, live: Cells, held: set<nat>,
                   obtained: nat) returns (f: nat)
    requires InOrder(ptr, size, freep, base, cyc, live, held, obtained)
    ensures f < |cyc| && cyc[f] == freep
  {
    f :| f < |cyc| && cyc[f] == freep;
  }

  lemma FreepPositive(ptr: Cells, size: Cells, freep: nat, base: nat, cyc: seq<nat>, live: Cells, held: set<nat>,
                      obtained: nat)
    requires InOrder(ptr, size, freep, base, cyc, live, held, obtained)
    ensures freep > 0
  {
    var f := FreepIndex(ptr, size, freep, base, cyc, live, held, obtained);
    assert f > 0 ==> End(size, cyc[0]) < cyc[f];
  }

  lemma ScanStart(ptr: Cells, size: Cells, freep: nat, base: nat, cyc: seq<nat>, live: Cells, held: set<nat>,
                  obtained: nat, f: nat, n: nat)
    requires InOrder(ptr, size, freep, base, cyc, live, held, obtained) && f < |cyc| && cyc[f] == freep
    ensures freep in ptr && ScanAt(size, cyc, freep, f, 0, freep, ptr[freep], n)
  {
    LinkAt(ptr, cyc, f);
  }

  /** One look of the search: what it reads, what a fit means, and that a whole turn
      without a fit shows there is none. */
  lemma ScanFacts(ptr: Cells, size: Cells, freep: nat, base: nat, cyc: seq<nat>, live: Cells, held: set<nat>,
                  obtained: nat, f: nat, t: nat, prevp: nat, p: nat, n: nat)
    requires InOrder(ptr, size, freep, base, cyc, live, held, obtained) && ScanAt(size, cyc, freep, f, t, prevp, p, n)
    requires n > 0
    ensures p in ptr && p in size && f < |cyc| && t < |cyc| && p == cyc[Rot(|cyc|, f, t)]
    ensures p == freep <==> t + 1 == |cyc|
    ensures size[p] >= n ==> HasFit(size, cyc, n) && 0 < Rot(|cyc|, f, t) && prevp == cyc[Rot(|cyc|, f, t) - 1]
    ensures size[p] < n && p == freep ==> !HasFit(size, cyc, n)
    ensures size[p] < n && p != freep ==> ScanAt(size, cyc, freep, f, t + 1, p, ptr[p], n)
  {
    var c := Rot(|cyc|, f, t);
    LinkAt(ptr, cyc, c);
    RingDistinct(size, cyc, |cyc|);
    hide Linked;
    hide Apart;
    hide Parted;
    hide Sum;
    hide LiveSum;
    ScanEnd(size, cyc, freep, f, t, prevp, p, n);
    hide NoRepeat;
    if size[p] < n && p == freep {
      FullTurn(size, cyc, freep, f, t, prevp, p, n);
    }
  }

  lemma ScanEnd(size: Cells, cyc: seq<nat>, freep: nat, f: nat, t: nat, prevp: nat, p: nat, n: nat)
    requires ScanAt(size, cyc, freep, f, t, prevp, p, n) && NoRepeat(cyc)
    ensures f < |cyc| && t < |cyc| && p == cyc[Rot(|cyc|, f, t)] && (p == freep <==> t + 1 == |cyc|)
  {
  }

  /** A whole turn without a fit. */
  lemma FullTurn(size: Cells, cyc: seq<nat>, freep: nat, f: nat, t: nat, prevp: nat, p: nat, n: nat)
    requires ScanAt(size, cyc, freep, f, t, prevp, p, n) && t + 1 == |cyc| && p in size && size[p] < n && f < |cyc|
    requires p == cyc[Rot(|cyc|, f, t)]
    ensures !HasFit(size, cyc, n)
  {
    forall i: nat | i < |cyc|
      ensures cyc[i] in size ==> size[cyc[i]] < n
    {
      var s := if i > f then i - f - 1 else i + |cyc| - f - 1;
      assert Rot(|cyc|, f, s) == i;
    }
  }

  class Heap {
    var ptr: Cells
    var size: Cells
    var freep: nat
    const base: nat
    /** The free list from base on, the live blocks, and the units the allocator manages. */
    ghost var cyc: seq<nat>
    ghost var live: Cells
    ghost var held: set<nat>
    /** The units sbrk really provided, and how many units were asked of it. */
    ghost var granted: set<nat>
    ghost var obtained: nat

    /** malloc has been called before. */
    ghost predicate Ready()
      reads this
    {
      InOrder(ptr, size, freep, base, cyc, live, held, obtained)
    }

    method FindPlace(bp: nat) returns (p: nat, ghost j: nat, ghost steps: nat)
      requires Ready() && bp in live && base < bp
      ensures j < |cyc| && p == cyc[j] && Place(size, cyc, j, bp)
      ensures p in ptr && p < bp && (bp < ptr[p] || ptr[p] <= p)
      ensures steps < |cyc|
    {
      hide Parted;
      hide LiveSum;
      hide Sum;
      j := LivePlace(size, cyc, live, held, bp);
      p := freep;
      ghost var i: nat :| i < |cyc| && cyc[i] == freep;
      steps := 0;
      StopsAt(ptr, size, cyc, j, bp, i);
      hide Ring;
      while !(bp > p && bp < ptr[p])
        invariant i < |cyc| && p == cyc[i] && steps + Dist(|cyc|, i, j) < |cyc|
        invariant p in ptr && ptr[p] == Succ(cyc, i) && (Stops(ptr, p, bp) <==> i == j)
        decreases Dist(|cyc|, i, j)
      {
        if p >= ptr[p] && (bp > p || bp < ptr[p]) {
          break;
        }
        p := ptr[p];
        i := if i + 1 < |cyc| then i + 1 else 0;
        steps := steps + 1;
        StopsAt(ptr, size, cyc, j, bp, i);
      }
    }

    /** free(ap): bp = ap - 1 goes back on the list, joined with its neighbours.  The list
        stays one ordered cycle without adjacent blocks, every unit stays accounted for,
        and the search takes less than one turn. */
    method Free(bp: nat) returns (ghost steps: nat)
      requires Ready() && bp in live
      modifies this`ptr, this`size, this`freep, this`cyc, this`live
      ensures Ready() && live == old(live) - {bp} && steps < |old(cyc)|
      ensures exists i: nat :: i < |cyc| && cyc[i] in size && size[cyc[i]] >= old(live[bp])
    {
      LiveAbove(size, cyc, live, held, bp);
      hide *;
      var p;
      ghost var j;
      p, j, steps := FindPlace(bp);
      FreeAt(p, bp, j);
    }

    /** free once the place is found. */
    method FreeAt(p: nat, bp: nat, ghost j: nat)
      requires Ready() && bp in live && base < bp && j < |cyc| && p == cyc[j] && Place(size, cyc, j, bp)
      modifies this`ptr, this`size, this`freep, this`cyc, this`live
      ensures Ready() && live == old(live) - {bp}
      ensures exists i: nat :: i < |cyc| && cyc[i] in size && size[cyc[i]] >= old(live[bp])
    {
      hide Linked;
      hide Apart;
      hide Parted;
      hide LiveSum;
      hide Sum;
      FreeFacts(ptr, size, cyc, live, held, j, bp);
      RingSized(ptr, size, cyc);
      hide Ring;
      hide Sized;
      hide Place;
      ghost var ptr0, size0, cyc0 := ptr, size, cyc;
      var next := ptr[p];
      if bp + size[bp] == next {
        size := size[bp := (size[bp] + size[next]) % TWO_32];
        ptr := ptr[bp := ptr[next]];
        cyc := Inserted(cyc, j, bp, j + 2);
      } else {
        ptr := ptr[bp := next];
        cyc := Inserted(cyc, j, bp, j + 1);
      }
      assert JoinedUp(ptr0, size0, cyc0, j, bp, ptr, size, cyc);
      UpperFacts(ptr0, size0, cyc0, j, bp, ptr, size, cyc);
      hide JoinedUp;
      hide HalfDone;
      ghost var ptr1, size1, cyc1 := ptr, size, cyc;
      FreeLower(p, bp, j);
      live := live - {bp};
      FreeDone(ptr0, size0, cyc0, old(live), held, j, bp, ptr1, size1, cyc1, ptr, size, cyc);
    }

    /** Nothing allocated yet: freep is null. */
    ghost predicate Fresh()
      reads this
    {
      freep == 0 && cyc == [] && live == map[] && held == {} && obtained == 0 && base > 0
    }

    /** malloc's promise rests on sbrk having provided what was asked of it. */
    ghost predicate Valid()
      reads this
    {
      (Fresh() || Ready()) && held == granted
    }

    constructor (base: nat)
      requires base > 0
      ensures Valid() && Fresh() && this.base == base
    {
      this.base := base;
      ptr, size, freep := map[], map[], 0;
      cyc, live, held, granted, obtained := [], map[], {}, {}, 0;
    }

    /** morecore(nunits); `grant` is what sbrk returns.  The new space goes through free, so
        afterwards some block is large enough. */
    method Morecore(nunits: nat, grant: Option<nat>) returns (ok: bool)
      requires Ready() && GrantOk(grant, nunits, base, held)
      modifies this
      ensures Ready() && live == old(live) && ok == grant.Some?
      ensures !ok ==> ptr == old(ptr) && size == old(size) && cyc == old(cyc) && freep == old(freep)
      ensures !ok ==> held == old(held) && granted == old(granted) && obtained == old(obtained)
      ensures ok ==> HasFit(size, cyc, nunits) && obtained == old(obtained) + Core(nunits)
      ensures ok ==> held == old(held) + Block(grant.value, Core(nunits))
      ensures ok ==> granted == old(granted) + Block(grant.value, Provided(Core(nunits)))
    {
      if grant.None? {
        return false;
      }
      hide InOrder;
      var a := grant.value;
      var nu := Core(nunits);
      ClaimInOrder(ptr, size, freep, base, cyc, live, held, obtained, a, nu);
      size := size[a := nu];
      live := live[a := nu];
      held := held + Block(a, nu);
      obtained := obtained + nu;
      granted := granted + Block(a, Provided(nu));
      assert Ready() && live[a] == nu;
      ghost var steps := Free(a);
      assert live == old(live);
      return true;
    }

    /** malloc(nbytes).  It hands out a block of its own with room for the request, keeps
        every unit accounted for, asks sbrk at most once, and fails only if sbrk does.  The
        allocator manages exactly what sbrk provided unless a request too large for sbrk's
        int argument reached it. */
    method Malloc(nbytes: nat, grant: Option<nat>) returns (r: Option<nat>, ghost calls: nat)
      requires Valid() && nbytes < TWO_32 && GrantOk(grant, Units(nbytes), base, held)
      modifies this
      ensures Ready()
      ensures r.Some? ==> r.value > 0 && r.value - 1 !in old(live) && live == old(live)[r.value - 1 := Units(nbytes)]
      ensures r.None? ==> live == old(live) && calls == 1 && grant.None?
      ensures calls == if HasFit(old(size), old(cyc), Units(nbytes)) then 0 else 1
      ensures calls == 0 || grant.None? ==> held == old(held) && granted == old(granted) && obtained == old(obtained)
      ensures calls == 1 && grant.Some? ==> held == old(held) + Block(grant.value, Core(Units(nbytes)))
      ensures calls == 1 && grant.Some? ==> obtained == old(obtained) + Core(Units(nbytes))
      ensures held == granted <==> calls == 0 || grant.None? || Units(nbytes) < 0x800_0000
    {
      var nunits := Units(nbytes);
      hide InOrder;
      if !Fresh() {
        FreepPositive(ptr, size, freep, base, cyc, live, held, obtained);
      }
      if freep == 0 {
        ptr := ptr[base := base];
        size := size[base := 0];
        freep := base;
        cyc := [base];
        FirstInOrder(ptr, size, base);
      }
      ghost var looks;
      r, calls, looks := Search(nunits, grant);
      GrantedIff(old(held), grant, nunits);
    }

    /** malloc's search around the cycle; the first fit is cut.  It looks at each block once,
        and if it had to ask for more, once more. */
    method Search(nunits: nat, grant: Option<nat>) returns (r: Option<nat>, ghost calls: nat, ghost looks: nat)
      requires Ready() && nunits > 0 && GrantOk(grant, nunits, base, held)
      modifies this
      ensures Ready()
      ensures r.Some? ==> r.value > 0 && r.value - 1 !in old(live) && live == old(live)[r.value - 1 := nunits]
      ensures r.None? ==> live == old(live) && calls == 1 && grant.None?
      ensures calls == if HasFit(old(size), old(cyc), nunits) then 0 else 1
      ensures calls == 0 || grant.None? ==> held == old(held) && granted == old(granted) && obtained == old(obtained)
      ensures calls == 1 && grant.Some? ==>
                held == old(held) + Block(grant.value, Core(nunits)) && obtained == old(obtained) + Core(nunits)
      ensures calls == 1 && grant.Some? ==> granted == old(granted) + Block(grant.value, Provided(Core(nunits)))
      ensures looks <= |old(cyc)| + if calls == 1 && r.Some? then |cyc| + 1 else 0
    {
      hide InOrder;
      hide HasFit;
      hide ScanAt;
      calls, looks := 0, 0;
      ghost var f := FreepIndex(ptr, size, freep, base, cyc, live, held, obtained);
      ghost var t := 0;
      var prevp := freep;
      ScanStart(ptr, size, freep, base, cyc, live, held, obtained, f, nunits);
      var p := ptr[prevp];
      while true
        invariant Ready() && live == old(live) && calls <= 1
        invariant ScanAt(size, cyc, freep, f, t, prevp, p, nunits)
        invariant calls == 0 ==>
                  size == old(size) && cyc == old(cyc) && held == old(held) && granted == old(granted)
                  && obtained == old(obtained)
        invariant calls == 1 ==> grant.Some? && HasFit(size, cyc, nunits) && !HasFit(old(size), old(cyc), nunits)
        invariant calls == 1 ==>
                  held == old(held) + Block(grant.value, Core(nunits)) && obtained == old(obtained) + Core(nunits)
        invariant calls == 1 ==> granted == old(granted) + Block(grant.value, Provided(Core(nunits)))
        invariant looks == t + if calls == 0 then 0 else |old(cyc)|
        decreases 1 - calls, |cyc| - t
      {
        looks := looks + 1;
        ScanFacts(ptr, size, freep, base, cyc, live, held, obtained, f, t, prevp, p, nunits);
        if size[p] >= nunits {
          ghost var i := Rot(|cyc|, f, t);
          var q := Take(prevp, p, nunits, i);
          return Some(q + 1), calls, looks;
        }
        if p == freep {
          var ok := Morecore(nunits, grant);
          calls := calls + 1;
          if !ok {
            return None, calls, looks;
          }
          p := freep;
          f := FreepIndex(ptr, size, freep, base, cyc, live, held, obtained);
          ScanStart(ptr, size, freep, base, cyc, live, held, obtained, f, nunits);
          t := 0;
        } else {
          t := t + 1;
        }
        prevp := p;
        p := ptr[p];
      }
    }

    /** Malloc's cut: block i is handed out whole, or its last units are. */
    method Take(prevp: nat, p: nat, nunits: nat, ghost i: nat) returns (q: nat)
      requires InOrder(ptr, size, freep, base, cyc, live, held, obtained)
      requires 0 < i < |cyc| && p == cyc[i] && prevp == cyc[i - 1] && nunits > 0 && p in size && size[p] >= nunits
      modifies this`ptr, this`size, this`freep, this`cyc, this`live
      ensures InOrder(ptr, size, freep, base, cyc, live, held, obtained) && freep == prevp
      ensures q !in old(live) && live == old(live)[q := nunits] && |cyc| + 1 >= |old(cyc)|
    {
      hide *;
      TakeFacts(ptr, size, freep, base, cyc, live, held, obtained, i);
      if size[p] == nunits {
        WholeTaken(ptr, size, freep, base, cyc, live, held, obtained, i);
        ptr := ptr[prevp := ptr[p]];
        cyc := cyc[..i] + cyc[i + 1..];
        q := p;
      } else {
        TailTaken(ptr, size, freep, base, cyc, live, held, obtained, i, nunits);
        size := size[p := size[p] - nunits];
        q := p + size[p];
        size := size[q := nunits];
      }
      live := live[q := nunits];
      freep := prevp;
    }

    /** The second half of free: the lower neighbour. */
    method FreeLower(p: nat, bp: nat, ghost j: nat)
      requires HalfDone(ptr, size, cyc, j, bp) && p == cyc[j] && p in size && bp in size && bp in ptr
      requires 0 < p < bp && bp + size[bp] <= TWO_32
      modifies this`ptr, this`size, this`freep, this`cyc
      ensures JoinedDown(old(ptr), old(size), old(cyc), j, bp, ptr, size, cyc) && freep == p
    {
      hide Linked;
      hide Apart;
      hide Sized;
      if p + size[p] == bp {
        size := size[p := (size[p] + size[bp]) % TWO_32];
        ptr := ptr[p := ptr[bp]];
        cyc := cyc[..j + 1] + cyc[j + 2..];
      } else {
        ptr := ptr[p := bp];
      }
      freep := p;
    }
  }

  lemma ClaimInOrder(ptr: Cells, size: Cells, freep: nat, base: nat, cyc: seq<nat>, live: Cells, held: set<nat>,
                     obtained: nat, a: nat, n: nat)
    requires InOrder(ptr, size, freep, base, cyc, live, held, obtained) && n > 0 && base < a && a + n <= TWO_32
    requires forall u: nat :: u in held ==> u < a
    ensures a !in live
    ensures InOrder(ptr, size[a := n], freep, base, cyc, live[a := n], held + Block(a, n), obtained + n)
  {
    CycBelow(size, cyc, live, held, a);
    ClaimKeepsParted(size, cyc, live, held, a, n, held + Block(a, n));
    NewLiveSum(live, a, n);
    SumSame(size, size[a := n], cyc);
    hide Parted;
    hide Linked;
    hide LiveSum;
  }

  lemma CycBelow(size: Cells, cyc: seq<nat>, live: Cells, held: set<nat>, a: nat)
    requires Sized(size, cyc) && Parted(size, cyc, live, held) && cyc[0] < a && (forall u: nat :: u in held ==> u < a)
    ensures forall i: nat :: i < |cyc| ==> cyc[i] < a
  {
    forall i: nat | i < |cyc|
      ensures cyc[i] < a
    {
      if i > 0 {
        assert Within(cyc[i], size[cyc[i]], cyc[i]);
        assert Free(size, cyc, cyc[i]);
      }
    }
  }

  /** An empty cycle of base alone. */
  lemma FirstInOrder(ptr: Cells, size: Cells, base: nat)
    requires base > 0 && base in ptr && ptr[base] == base && base in size && size[base] == 0
    ensures InOrder(ptr, size, base, base, [base], map[], {}, 0)
    ensures forall n: nat :: n > 0 ==> !HasFit(size, [base], n)
  {
    assert Sum(size, [base]) == 0 + Sum(size, []);
  }

  lemma GrantedIff(held: set<nat>, grant: Option<nat>, nunits: nat)
    requires grant.Some? ==> forall u: nat :: u in held ==> u < grant.value
    requires nunits <= 0x1000_0001
    ensures grant.Some? ==>
              var given := Block(grant.value, Provided(Core(nunits)));
              held + Block(grant.value, Core(nunits)) == held + given <==> nunits < 0x800_0000
  {
    if grant.Some? {
      var a, nu := grant.value, Core(nunits);
      if nunits < 0x800_0000 {
        assert Provided(nu) == nu;
      } else {
        assert Provided(nu) < nu;
        assert a + nu - 1 in Block(a, nu) && a + nu - 1 !in Block(a, Provided(nu)) && a + nu - 1 !in held;
      }
    }
  }

  lemma LiveAbove(size: Cells, cyc: seq<nat>, live: Cells, held: set<nat>, bp: nat)
    requires Parted(size, cyc, live, held) && bp in live
    ensures bp in held
  {
    assert LiveIn(live, bp, bp);
    assert Live(live, bp);
  }

  lemma NewLiveSum(live: Cells, q: nat, n: nat)
    requires q !in live
    ensures LiveSum(live[q := n]) == LiveSum(live) + n
  {
    LiveSumWithout(live[q := n], q);
    assert live[q := n] - {q} == live;
  }

  lemma TakeFacts(ptr: Cells, size: Cells, freep: nat, base: nat, cyc: seq<nat>, live: Cells, held: set<nat>,
                  obtained: nat, i: nat)
    requires InOrder(ptr, size, freep, base, cyc, live, held, obtained) && 0 < i < |cyc|
    ensures cyc[i] in ptr && cyc[i] in size && ptr[cyc[i]] == Succ(cyc, i)
  {
    LinkAt(ptr, cyc, i);
  }

  lemma WholeTaken(ptr: Cells, size: Cells, freep: nat, base: nat, cyc: seq<nat>, live: Cells, held: set<nat>,
                   obtained: nat, i: nat)
    requires InOrder(ptr, size, freep, base, cyc, live, held, obtained) && 0 < i < |cyc|
    ensures cyc[i] in size && cyc[i] !in live
    ensures InOrder(ptr[cyc[i - 1] := Succ(cyc, i)], size, cyc[i - 1], base, cyc[..i] + cyc[i + 1..],
                    live[cyc[i] := size[cyc[i]]], held, obtained)
  {
    var cyc' := cyc[..i] + cyc[i + 1..];
    TakeWhole(ptr, size, cyc, i);
    WholeSum(size, cyc, i);
    WholeUnits(ptr, size, cyc, i);
    assert cyc'[i - 1] == cyc[i - 1];
    assert forall b: nat :: b in live ==> b in size;
    assert size[cyc[i]] > 0;
    hide FreeMinus;
    hide Parted;
    hide Linked;
    hide Apart;
    hide Sized;
    hide LiveSum;
    hide Sum;
    AllocKeepsParted(size, cyc, live, held, size, cyc', cyc[i], size[cyc[i]]);
    NewLiveSum(live, cyc[i], size[cyc[i]]);
  }

  lemma TailTaken(ptr: Cells, size: Cells, freep: nat, base: nat, cyc: seq<nat>, live: Cells, held: set<nat>,
                  obtained: nat, i: nat, n: nat)
    requires InOrder(ptr, size, freep, base, cyc, live, held, obtained) && 0 < i < |cyc| && 0 < n < size[cyc[i]]
    ensures var q := cyc[i] + (size[cyc[i]] - n);
            q !in live && InOrder(ptr, size[cyc[i] := size[cyc[i]] - n][q := n], cyc[i - 1], base, cyc, live[q := n],
                                  held, obtained)
  {
    var q := cyc[i] + (size[cyc[i]] - n);
    var size' := size[cyc[i] := size[cyc[i]] - n][q := n];
    hide Linked;
    RingDistinct(size, cyc, |cyc|);
    TakeTail(ptr, size, cyc, i, n);
    TailUnits(ptr, size, cyc, i, n);
    hide Apart;
    hide Free;
    hide FreeMinus;
    TailSum(size, cyc, i, n);
    TailSizes(size, cyc, live, held, i, n, size');
    hide Sized;
    hide LiveSum;
    hide Sum;
    hide Parted;
    AllocKeepsParted(size, cyc, live, held, size', cyc, q, n);
    NewLiveSum(live, q, n);
  }

  lemma TailSizes(size: Cells, cyc: seq<nat>, live: Cells, held: set<nat>, i: nat, n: nat, size': Cells)
    requires Sized(size, cyc) && Parted(size, cyc, live, held) && 0 < i < |cyc| && 0 < n < size[cyc[i]]
    requires size' == size[cyc[i] := size[cyc[i]] - n][cyc[i] + (size[cyc[i]] - n) := n]
    ensures forall b: nat :: b in live ==> b in size' && size'[b] == size[b]
  {
    FreeNotLive(size, cyc, live, held, i);
    QNotLive(size, cyc, live, held, i, n);
  }

  /** A unit inside a free block is no live header. */
  lemma QNotLive(size: Cells, cyc: seq<nat>, live: Cells, held: set<nat>, i: nat, n: nat)
    requires Sized(size, cyc) && Parted(size, cyc, live, held) && 0 < i < |cyc| && 0 < n < size[cyc[i]]
    ensures cyc[i] + (size[cyc[i]] - n) !in live
  {
    var q := cyc[i] + (size[cyc[i]] - n);
    assert Within(cyc[i], size[cyc[i]], q);
    assert Free(size, cyc, q) && !Live(live, q);
    assert !LiveIn(live, q, q);
  }

  lemma UpperFacts(ptr: Cells, size: Cells, cyc: seq<nat>, j: nat, bp: nat, ptr1: Cells, size1: Cells, cyc1: seq<nat>)
    requires Ring(ptr, size, cyc) && Place(size, cyc, j, bp) && JoinedUp(ptr, size, cyc, j, bp, ptr1, size1, cyc1)
    ensures HalfDone(ptr1, size1, cyc1, j, bp) && cyc1[j] == cyc[j] && cyc[j] in size1 && bp in size1 && bp in ptr1
    ensures cyc[j] < bp
    ensures size1[bp] == if j + 1 < |cyc| && End(size, bp) == cyc[j + 1] then size[bp] + size[cyc[j + 1]] else size[bp]
  {
    UpperDone(ptr, size, cyc, j, bp, ptr1, size1, cyc1);
  }

  lemma FreeFacts(ptr: Cells, size: Cells, cyc: seq<nat>, live: Cells, held: set<nat>, j: nat, bp: nat)
    requires Ring(ptr, size, cyc) && Place(size, cyc, j, bp) && Parted(size, cyc, live, held) && bp in live
    requires forall u: nat :: u in held ==> u < TWO_32
    ensures cyc[j] in ptr && cyc[j] in size && ptr[cyc[j]] == Succ(cyc, j)
    ensures bp + size[bp] == ptr[cyc[j]] <==> j + 1 < |cyc| && End(size, bp) == cyc[j + 1]
    ensures j + 1 < |cyc| ==> cyc[j + 1] in ptr && cyc[j + 1] in size && ptr[cyc[j + 1]] == Succ(cyc, j + 1)
    ensures j + 1 < |cyc| && End(size, bp) == cyc[j + 1] ==> bp + size[bp] + size[cyc[j + 1]] <= TWO_32
    ensures bp + size[bp] <= TWO_32 && cyc[0] <= cyc[j]
  {
    assert 0 < j ==> End(size, cyc[0]) < cyc[j];
    NextFacts(ptr, size, cyc, j, bp);
    EndsBelow(size, cyc, live, held, TWO_32);
  }
}
