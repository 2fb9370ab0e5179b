/**
  The page allocator of kernelspace/mm/kalloc.c: one bit per page, in a bitmap that
  occupies the first managed page, refines a set of free page numbers.
 */
module PageBitmap {
  import opened Wrappers

  const PHYS_TOP: nat := 0x8800_0000
  const KERN_BASE: nat := 0x8000_0000
  const PAGE_SIZE: nat := 4096

  /** The mask 1 << i. */
  function Bit(i: nat): bv8
    requires i < 8
  {
    if i == 0 then 1 else if i == 1 then 2 else if i == 2 then 4 else if i == 3 then 8
    else if i == 4 then 16 else if i == 5 then 32 else if i == 6 then 64 else 128
  }

  lemma BitPowers(i: nat)
    requires i < 8
    ensures Bit(0) == 1 && (i < 7 ==> Bit(i + 1) as int == 2 * Bit(i) as int)
  {
  }

  predicate Test(b: bv8, i: nat)
    requires i < 8
  {
    b & Bit(i) != 0
  }

  function SetBit(b: bv8, i: nat): bv8
    requires i < 8
  {
    b | Bit(i)
  }

  function ClearBit(b: bv8, i: nat): bv8
    requires i < 8
  {
    b & !Bit(i)
  }

  /** Setting and clearing a bit leaves the other bits alone. */
  lemma BitLaws(b: bv8, i: nat, j: nat)
    requires i < 8 && j < 8
    ensures Test(SetBit(b, i), j) <==> i == j || Test(b, j)
    ensures Test(ClearBit(b, i), j) <==> i != j && Test(b, j)
    ensures Test(0xff, j)
  {
  }

  /** Page p is marked free.  A one-page bitmap has a bit for every page. */
  ghost predicate IsFree(b: seq<bv8>, p: nat)
    requires |b| == PAGE_SIZE && p < 8 * PAGE_SIZE
  {
    !Test(b[p / 8], p % 8)
  }

  ghost function FreePages(b: seq<bv8>, npage: nat): set<nat>
    requires |b| == PAGE_SIZE && npage <= 8 * PAGE_SIZE
  {
    set p: nat | p < npage && IsFree(b, p)
  }

  lemma SameBit(p: nat, q: nat)
    ensures p / 8 == q / 8 && p % 8 == q % 8 ==> p == q
  {
  }

  lemma Cleared(b: seq<bv8>, npage: nat, q: nat)
    requires |b| == PAGE_SIZE && npage <= 8 * PAGE_SIZE && q < npage
    ensures FreePages(b[q / 8 := ClearBit(b[q / 8], q % 8)], npage) == FreePages(b, npage) + {q}
  {
    hide Test;
    hide SetBit;
    hide ClearBit;
    var b' := b[q / 8 := ClearBit(b[q / 8], q % 8)];
    forall p: nat | p < npage
      ensures IsFree(b', p) <==> p == q || IsFree(b, p)
    {
      BitLaws(b[q / 8], q % 8, p % 8);
      SameBit(p, q);
    }
    hide IsFree;
  }

  lemma Marked(b: seq<bv8>, npage: nat, q: nat)
    requires |b| == PAGE_SIZE && npage <= 8 * PAGE_SIZE && q < npage
    ensures FreePages(b[q / 8 := SetBit(b[q / 8], q % 8)], npage) == FreePages(b, npage) - {q}
  {
    hide Test;
    hide SetBit;
    hide ClearBit;
    var b' := b[q / 8 := SetBit(b[q / 8], q % 8)];
    forall p: nat | p < npage
      ensures IsFree(b', p) <==> p != q && IsFree(b, p)
    {
      BitLaws(b[q / 8], q % 8, p % 8);
      SameBit(p, q);
    }
    hide IsFree;
  }

  lemma AllTaken(b: seq<bv8>, npage: nat)
    requires |b| == PAGE_SIZE && npage <= 8 * PAGE_SIZE && forall i :: 0 <= i < |b| ==> b[i] == 0xff
    ensures FreePages(b, npage) == {}
  {
    hide Test;
    forall p: nat | p < npage
      ensures !IsFree(b, p)
    {
      BitLaws(0xff, 0, p % 8);
    }
  }

  class Kmem {
    const bitmap: array<bv8>
    const start: nat
    const npage: nat

    ghost predicate Valid()
      reads this
    {
      && start % PAGE_SIZE == 0 && KERN_BASE <= start < PHYS_TOP
      && npage == (PHYS_TOP - start) / PAGE_SIZE && npage <= 8 * PAGE_SIZE
      && bitmap.Length == PAGE_SIZE
    }

    ghost function Free(): set<nat>
      requires Valid()
      reads this, bitmap
    {
      FreePages(bitmap[..], npage)
    }

    constructor (end: nat)
      requires KERN_BASE <= end && end + PAGE_SIZE < PHYS_TOP
      ensures Valid() && fresh(bitmap) && start == (end + PAGE_SIZE - 1) / PAGE_SIZE * PAGE_SIZE
      ensures end <= start < end + 4096 && start + 4096 * npage == 0x8800_0000
    {
      bitmap := new bv8[PAGE_SIZE];
      start := (end + PAGE_SIZE - 1) / PAGE_SIZE * PAGE_SIZE;
      npage := (PHYS_TOP - (end + PAGE_SIZE - 1) / PAGE_SIZE * PAGE_SIZE) / PAGE_SIZE;
    }

    /** kfree clears the page's bit; addresses that are no page of the pool are ignored. */
    method Kfree(addr: nat)
      requires Valid()
      modifies bitmap
      ensures Free() == if addr % PAGE_SIZE == 0 && start <= addr < PHYS_TOP
                        then old(Free()) + {(addr - start) / PAGE_SIZE} else old(Free())
    {
      if addr % PAGE_SIZE != 0 || addr < start || addr >= PHYS_TOP {
        return;
      }
      var pageno := (addr - start) / PAGE_SIZE;
      var byteIdx := pageno / 8;
      var bitIdx := pageno % 8;
      hide Test;
      hide ClearBit;
      ghost var b := bitmap[..];
      Cleared(b, npage, pageno);
      bitmap[byteIdx] := ClearBit(bitmap[byteIdx], bitIdx);
      assert bitmap[..] == b[pageno / 8 := ClearBit(b[pageno / 8], pageno % 8)];
    }

    /** kalloc takes the lowest free page, and fails iff there is none. */
    method Kalloc() returns (pa: Option<nat>)
      requires Valid()
      modifies bitmap
      ensures pa.None? <==> old(Free()) == {}
      ensures pa.None? ==> Free() == old(Free())
      ensures pa.Some? ==>
                pa.value % PAGE_SIZE == 0 && start <= pa.value < PHYS_TOP
                && Lowest(old(Free()), (pa.value - start) / PAGE_SIZE)
      ensures pa.Some? ==> Free() == old(Free()) - {(pa.value - start) / PAGE_SIZE}
    {
      hide Test;
      hide SetBit;
      ghost var b := bitmap[..];
      var i := 0;
      while i < npage
        invariant i <= npage && bitmap[..] == b
        invariant forall q: nat :: q < i ==> !IsFree(b, q)
      {
        var byteIdx := i / 8;
        var bitIdx := i % 8;
        if !Test(bitmap[byteIdx], bitIdx) {
          assert IsFree(b, i) && i in FreePages(b, npage);
          Marked(b, npage, i);
          bitmap[byteIdx] := SetBit(bitmap[byteIdx], bitIdx);
          assert bitmap[..] == b[i / 8 := SetBit(b[i / 8], i % 8)];
          hide IsFree;
          return Some(start + i * PAGE_SIZE);
        }
        i := i + 1;
      }
      return None;
    }

    /** kinit: every page but the bitmap's own is free. */
    method Kinit()
      requires Valid()
      modifies bitmap
      ensures forall p: nat :: p in Free() <==> 0 < p < npage
    {
      var k := 0;
      while k < bitmap.Length
        invariant k <= bitmap.Length && forall i :: 0 <= i < k ==> bitmap[i] == 0xff
      {
        bitmap[k] := 0xff;
        k := k + 1;
      }
      AllTaken(bitmap[..], npage);
      hide FreePages;
      var p := start + PAGE_SIZE;
      ghost var n := 1;
      while p + PAGE_SIZE <= PHYS_TOP
        invariant 1 <= n && p == start + n * PAGE_SIZE
        invariant forall q: nat :: q in Free() <==> 0 < q < n && q < npage
        decreases PHYS_TOP - p
      {
        Kfree(p);
        p := p + PAGE_SIZE;
        n := n + 1;
      }
    }
  }

  ghost predicate Lowest(s: set<nat>, p: nat) {
    p in s && forall q: nat :: q in s ==> p <= q
  }

  // ------------------------------------------------------------------ whole runs

  /** The pool and the pages handed out. */
  datatype Pool = Pool(free: set<nat>, out: set<nat>)

  /** A kalloc that succeeds, or a kfree of a page that was handed out. */
  ghost predicate PoolStep(s: Pool, s': Pool) {
    || (exists p: nat :: Lowest(s.free, p) && s' == Pool(s.free - {p}, s.out + {p}))
    || (exists p: nat :: p in s.out && s' == Pool(s.free + {p}, s.out - {p}))
  }

  ghost predicate PoolRun(r: seq<Pool>) {
    |r| > 0 && r[0].out == {} && forall i :: 0 <= i < |r| - 1 ==> PoolStep(r[i], r[i + 1])
  }

  /** As long as only pages handed out are given back, the pages of the pool are
      conserved: none is handed out twice, and a page that was not free at first, such as
      the bitmap's own, never is. */
  lemma {:induction false} PoolConserved(r: seq<Pool>, i: nat)
    requires PoolRun(r) && i < |r|
    ensures r[i].free !! r[i].out && r[i].free + r[i].out == r[0].free
    decreases i
  {
    if i > 0 {
      PoolConserved(r, i - 1);
      assert PoolStep(r[i - 1], r[i - 1 + 1]);
    }
  }
}
