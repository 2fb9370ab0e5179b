/**
  Ranges of pages: what mapping and unmapping a range does to the partial map that a
  page table denotes, and which frames a range holds.
 */
module PageRange {
  import opened Wrappers
  import opened PageTable

  /** 2^64, the size of the machine's word. */
  const WORD: nat := 0x1_0000_0000_0000_0000
  const MAX_VA: nat := 0x40_0000_0000
  const MAX_PAGE: nat := 0x400_0000

  /** PX(level, va). */
  function PX(level: nat, va: nat): (i: nat)
    requires level <= 2
    ensures i < 512
  {
    if level == 2 then va / 0x4000_0000 % 512 else if level == 1 then va / 0x20_0000 % 512 else va / 0x1000 % 512
  }

  /** The shifts of PX select the three index fields of the page number. */
  lemma PXIndices(va: nat)
    ensures PX(2, va) == I2(va / 4096) && PX(1, va) == I1(va / 4096) && PX(0, va) == I0(va / 4096)
  {
    assert va / 0x20_0000 == va / 4096 / 512;
    assert va / 0x4000_0000 == va / 4096 / 0x40000;
  }

  /** The slot walk returns is the one the translation reads. */
  lemma LeafSlot(mem: Memory, root: nat, own: Owners, f: nat, va: nat)
    requires Tree(mem, root, own) && f in own && va <= MAX_VA && own[f] == LowOf(va / 4096)
    ensures f in mem && Pages(mem) && PX(0, va) == I0(va / 4096) && va / 4096 < PAGE_COUNT
    ensures Xlate(mem, root, va / 4096) == if Valid(mem[f][PX(0, va)]) then mem[f][PX(0, va)] else 0
    ensures Valid(mem[f][PX(0, va)]) <==> Xlate(mem, root, va / 4096) != 0
  {
    PXIndices(va);
    assert At(mem, root, own[f]) == Some(f);
  }

  // -------------------------------------------------------------------- map ranges

  /** PGROUNDDOWN(va + size - 1) as a page number, on 64-bit words. */
  function LastPage(va: nat, size: nat): nat {
    (va + size + WORD - 1) % WORD / 4096
  }

  /** The pages from va's to the last one are those that the bytes va..va + size - 1 touch. */
  lemma TouchedPages(va: nat, size: nat, p: nat)
    requires size > 0 && va + size <= 0x1_0000_0000_0000_0000
    ensures va / 4096 <= p <= LastPage(va, size) <==> 4096 * p < va + size && va < 4096 * p + 4096
  {
    assert (va + size + WORD - 1) % WORD == va + size - 1;
  }

  /** The frame t pages after a frame; physical addresses wrap at 64 bits. */
  function FrameAt(ppn: nat, t: nat): nat {
    (ppn + t) % 0x10_0000_0000_0000
  }

  lemma FirstFrame(p: nat)
    requires p < WORD
    ensures FrameAt(p / 4096, 0) == p / 4096
  {
  }

  lemma NextFrame(ppn: nat, k: nat, p: nat)
    requires p < WORD && p / 4096 == FrameAt(ppn, k)
    ensures (p + 4096) % WORD / 4096 == FrameAt(ppn, k + 1)
  {
    assert (p + 4096) % WORD / 4096 == (p / 4096 + 1) % 0x10_0000_0000_0000;
    var q := ppn + k;
    assert (q % 0x10_0000_0000_0000 + 1) % 0x10_0000_0000_0000 == (q + 1) % 0x10_0000_0000_0000;
  }

  /** The map changed by exactly k pages from `first`, mapped to frames from ppn on. */
  ghost predicate Mapped(mem0: Memory, mem: Memory, root: nat, first: nat, k: nat, ppn: nat, perm: nat)
    requires perm < 1024
  {
    forall n: nat :: n < PAGE_COUNT ==>
      Xlate(mem, root, n)
      == if first <= n < first + k then Entry(FrameAt(ppn, n - first), perm) else Xlate(mem0, root, n)
  }

  /** The k pages from `first` are within reach of walk and not mapped. */
  ghost predicate Vacant(mem: Memory, root: nat, first: nat, k: nat)
  {
    forall n: nat :: first <= n < first + k ==> n <= MAX_PAGE && Xlate(mem, root, n) == 0
  }

  lemma LeafFacts(mem: Memory, root: nat, own: Owners, f: nat, n: nat, ppn: nat, perm: nat)
    requires Tree(mem, root, own) && Pointers(mem, own) && f in own && n < PAGE_COUNT && own[f] == LowOf(n)
    requires perm < 1024
    ensures var mem' := WithEntry(mem, f, I0(n), Entry(ppn, perm));
            && Tree(mem', root, own) && Pointers(mem', own)
            && (forall m: nat :: m < PAGE_COUNT ==>
                  Xlate(mem', root, m) == if m == n then Entry(ppn, perm) else Xlate(mem, root, m))
    ensures At(mem, root, LowOf(n)) == Some(f)
  {
    EntryFields(ppn, perm);
    LeafWrite(mem, root, own, f, n, Entry(ppn, perm));
    LeafKeepsTree(mem, root, own, f, I0(n), Entry(ppn, perm));
  }

  lemma MappedAfter(mem0: Memory, mem1: Memory, mem: Memory, root: nat, n: nat, ppn: nat, perm: nat)
    requires perm < 1024 && SameMap(mem0, mem1, root) && ppn < 0x10_0000_0000_0000
    requires forall m: nat :: m < PAGE_COUNT ==>
                Xlate(mem, root, m) == if m == n then Entry(ppn, perm) else Xlate(mem1, root, m)
    ensures Mapped(mem0, mem, root, n, 1, ppn, perm)
  {
    hide Xlate;
    hide Entry;
  }

  lemma MappedSame(mem0: Memory, mem1: Memory, mem: Memory, root: nat, first: nat, k: nat, ppn: nat, perm: nat)
    requires perm < 1024
    requires Mapped(mem0, mem1, root, first, k, ppn, perm) && SameMap(mem1, mem, root)
    ensures Mapped(mem0, mem, root, first, k, ppn, perm)
    ensures first + k < PAGE_COUNT ==> Xlate(mem1, root, first + k) == Xlate(mem0, root, first + k)
  {
    hide Xlate;
    hide Entry;
  }

  lemma MappedMore(mem0: Memory, mem1: Memory, mem: Memory, root: nat, first: nat, k: nat, ppn: nat, perm: nat)
    requires perm < 1024
    requires Mapped(mem0, mem1, root, first, k, ppn, perm)
    requires Mapped(mem1, mem, root, first + k, 1, FrameAt(ppn, k), perm)
    requires Vacant(mem0, root, first, k) && first + k <= MAX_PAGE && Xlate(mem1, root, first + k) == 0
    ensures Mapped(mem0, mem, root, first, k + 1, ppn, perm) && Vacant(mem0, root, first, k + 1)
  {
    assert FrameAt(FrameAt(ppn, k), 0) == FrameAt(ppn, k);
    hide Xlate;
    hide Entry;
    hide FrameAt;
  }

  // ------------------------------------------------------------------ unmapped ranges

  /** The pages uvmunmap looks at: k pages from `first`, as far as walk reaches. */
  predicate InRange(first: nat, k: nat, n: nat) {
    first <= n < first + k && n <= MAX_PAGE
  }

  /** The map lost exactly the k pages from `first`. */
  ghost predicate Unmapped(mem0: Memory, mem: Memory, root: nat, first: nat, k: nat)
  {
    forall n: nat :: n < PAGE_COUNT ==> Xlate(mem, root, n) == if InRange(first, k, n) then 0 else Xlate(mem0, root, n)
  }

  /** Frame f backs a mapped page of the range. */
  ghost predicate Backs(mem: Memory, root: nat, first: nat, k: nat, n: nat, f: nat)
  {
    InRange(first, k, n) && Xlate(mem, root, n) != 0 && Ppn(Xlate(mem, root, n)) == f
  }

  ghost predicate IsFrame(mem: Memory, root: nat, first: nat, k: nat, f: nat)
  {
    exists n: nat :: Backs(mem, root, first, k, n, f)
  }

  /** The frames of the range are distinct and none of them is free. */
  ghost predicate Distinct(mem: Memory, root: nat, free: set<nat>, first: nat, k: nat)
  {
    && (forall n: nat, f: nat :: Backs(mem, root, first, k, n, f) ==> f !in free)
    && (forall n: nat, m: nat, f: nat :: Backs(mem, root, first, k, n, f) && Backs(mem, root, first, k, m, f) ==>
          n == m)
  }

  /** What freeing the range does to the pool of pages lo..hi. */
  ghost predicate Released(mem: Memory, root: nat, first: nat, k: nat, free: set<nat>, free': set<nat>, lo: nat,
                           hi: nat)
  {
    forall f: nat :: f in free' <==> f in free || (lo <= f < hi && IsFrame(mem, root, first, k, f))
  }

  lemma FrameMore(mem: Memory, root: nat, first: nat, k: nat, f: nat)
    ensures IsFrame(mem, root, first, k + 1, f)
            <==> IsFrame(mem, root, first, k, f) || Backs(mem, root, first, k + 1, first + k, f)
  {
    hide Xlate;
    var k' := k + 1;
    if IsFrame(mem, root, first, k', f) {
      var n: nat :| Backs(mem, root, first, k', n, f);
      assert n != first + k ==> Backs(mem, root, first, k, n, f);
    }
    if IsFrame(mem, root, first, k, f) {
      var n: nat :| Backs(mem, root, first, k, n, f);
      assert Backs(mem, root, first, k', n, f);
    }
  }

  /** A page that is not mapped adds nothing. */
  lemma ReleaseSkip(mem: Memory, root: nat, first: nat, k: nat, free: set<nat>, free': set<nat>, lo: nat, hi: nat)
    requires Released(mem, root, first, k, free, free', lo, hi)
    requires first + k <= MAX_PAGE ==> Xlate(mem, root, first + k) == 0
    ensures Released(mem, root, first, k + 1, free, free', lo, hi)
  {
    hide IsFrame;
    hide Xlate;
    forall f: nat
      ensures IsFrame(mem, root, first, k + 1, f) <==> IsFrame(mem, root, first, k, f)
    {
      FrameMore(mem, root, first, k, f);
    }
  }

  lemma ReleaseOne(mem: Memory, root: nat, first: nat, k: nat, free: set<nat>, free1: set<nat>, free': set<nat>,
                   lo: nat, hi: nat)
    requires Released(mem, root, first, k, free, free1, lo, hi)
    requires first + k <= MAX_PAGE && Xlate(mem, root, first + k) != 0
    requires var f := Ppn(Xlate(mem, root, first + k)); free' == if lo <= f < hi then free1 + {f} else free1
    ensures Released(mem, root, first, k + 1, free, free', lo, hi)
  {
    hide IsFrame;
    hide Xlate;
    forall f: nat
      ensures IsFrame(mem, root, first, k + 1, f)
              <==> IsFrame(mem, root, first, k, f) || f == Ppn(Xlate(mem, root, first + k))
    {
      FrameMore(mem, root, first, k, f);
    }
  }

  /** While the frames of a range are distinct and in use, each is freed once. */
  lemma NotYetFreed(mem: Memory, root: nat, free: set<nat>, free1: set<nat>, first: nat, k: nat, count: nat, lo: nat,
                    hi: nat)
    requires Distinct(mem, root, free, first, count) && k < count && first + k <= MAX_PAGE
    requires Released(mem, root, first, k, free, free1, lo, hi) && Xlate(mem, root, first + k) != 0
    ensures Ppn(Xlate(mem, root, first + k)) !in free1
  {
    hide Xlate;
    var f := Ppn(Xlate(mem, root, first + k));
    assert Backs(mem, root, first, count, first + k, f);
    assert forall n: nat :: Backs(mem, root, first, k, n, f) ==> Backs(mem, root, first, count, n, f);
  }

  lemma UnmapSkip(mem0: Memory, mem: Memory, root: nat, first: nat, k: nat)
    requires Unmapped(mem0, mem, root, first, k)
    requires first + k <= MAX_PAGE ==> Xlate(mem, root, first + k) == 0
    ensures Unmapped(mem0, mem, root, first, k + 1)
    ensures first + k <= MAX_PAGE ==> Xlate(mem0, root, first + k) == 0
  {
    hide Xlate;
  }

  lemma UnmapOne(mem0: Memory, mem1: Memory, mem: Memory, root: nat, first: nat, k: nat)
    requires Unmapped(mem0, mem1, root, first, k) && first + k <= MAX_PAGE
    requires forall n: nat :: n < PAGE_COUNT ==>
                Xlate(mem, root, n) == if n == first + k then 0 else Xlate(mem1, root, n)
    ensures Unmapped(mem0, mem, root, first, k + 1)
    ensures Xlate(mem1, root, first + k) == Xlate(mem0, root, first + k)
  {
    hide Xlate;
  }

  // ------------------------------------------------------------------- one page less

  /** How many pages uvmunmap goes through, on 64-bit words. */
  function UnmapCount(va: nat, npages: nat): nat {
    var end := (va + npages * 4096) % WORD;
    if end > va then (end - va) / 4096 else 0
  }

  /** Below the end of the address space uvmunmap goes through all the pages it is told to. */
  lemma UnmapsAll(va: nat, npages: nat)
    requires va + npages * 4096 < 0x1_0000_0000_0000_0000
    ensures UnmapCount(va, npages) == npages
  {
    assert (va + npages * 4096) % WORD == va + npages * 4096;
  }

  /** Nothing outside the tables was written. */
  ghost predicate OnlyTables(mem: Memory, mem': Memory, own: Owners) {
    mem'.Keys == mem.Keys && forall f: nat :: f in mem && f !in own ==> mem'[f] == mem[f]
  }

  /** Page n is gone from the map. */
  ghost predicate LostPage(mem: Memory, mem': Memory, root: nat, n: nat)
  {
    forall m: nat :: m < PAGE_COUNT ==> Xlate(mem', root, m) == if m == n then 0 else Xlate(mem, root, m)
  }

  lemma NoTableNoPage(mem: Memory, root: nat, n: nat)
    requires At(mem, root, LowOf(n)) == None
    ensures Xlate(mem, root, n) == 0
  {
  }

  lemma ClearLeaf(mem: Memory, root: nat, own: Owners, f: nat, va: nat)
    requires Tree(mem, root, own) && Pointers(mem, own) && f in own && va <= MAX_VA && own[f] == LowOf(va / 4096)
    ensures f in mem
    ensures var mem' := WithEntry(mem, f, PX(0, va), 0);
            && Pages(mem') && Tree(mem', root, own) && Pointers(mem', own) && OnlyTables(mem, mem', own)
            && LostPage(mem, mem', root, va / 4096)
  {
    LeafSlot(mem, root, own, f, va);
    LeafWrite(mem, root, own, f, va / 4096, 0);
    LeafKeepsTree(mem, root, own, f, PX(0, va), 0);
  }

  lemma OnlyTablesTrans(mem: Memory, mem1: Memory, mem2: Memory, own: Owners)
    requires OnlyTables(mem, mem1, own) && OnlyTables(mem1, mem2, own)
    ensures OnlyTables(mem, mem2, own)
  {
  }

  /** A page that is no leaf, by uvmunmap's own test. */
  ghost predicate NotALeaf(mem: Memory, root: nat, n: nat)
  {
    n <= MAX_PAGE && Xlate(mem, root, n) != 0 && Flags(Xlate(mem, root, n)) == 1
  }

  ghost predicate AllLeaves(mem: Memory, root: nat, first: nat, k: nat)
  {
    forall n: nat :: first <= n < first + k ==> !NotALeaf(mem, root, n)
  }

  // ------------------------------------------------------------- the loop of uvmunmap

  /** The state after k rounds of uvmunmap. */
  ghost predicate Removed(root: nat, mem0: Memory, free0: set<nat>, own: Owners, mem: Memory, free: set<nat>,
                          first: nat, k: nat, doFree: bool, lo: nat, hi: nat) {
    && OnlyTables(mem0, mem, own) && Unmapped(mem0, mem, root, first, k)
    && if doFree then Released(mem0, root, first, k, free0, free, lo, hi) else free == free0
  }

  /** No frame of the range is a table page. */
  ghost predicate NoTables(mem: Memory, root: nat, first: nat, k: nat, own: Owners) {
    forall f: nat :: IsFrame(mem, root, first, k, f) ==> f !in own
  }

  lemma UnmapStart(mem: Memory, root: nat, own: Owners, first: nat, free: set<nat>, doFree: bool, lo: nat, hi: nat)
    ensures Removed(root, mem, free, own, mem, free, first, 0, doFree, lo, hi) && AllLeaves(mem, root, first, 0)
  {
  }

  /** The addresses from page `first` up to end are those of `count` pages. */
  predicate UnmapSpan(first: nat, end: nat, count: nat) {
    if first * 4096 < end then end == (first + count) * 4096 else count == 0
  }

  lemma InSpan(first: nat, end: nat, count: nat, k: nat)
    requires UnmapSpan(first, end, count) && k <= count
    ensures (first + k) * 4096 < end <==> k < count
  {
  }

  lemma UnmapEnd(va: nat, npages: nat, count: nat)
    requires va % 4096 == 0 && count == UnmapCount(va, npages)
    ensures va == va / 4096 * 4096 && UnmapSpan(va / 4096, (va + npages * 4096) % WORD, count)
  {
    assert (va + npages * 4096) % WORD % 4096 == 0;
  }

  /** Before the round of page first + k: its entry is still the original one. */
  lemma UnmapRound(mem0: Memory, root: nat, own: Owners, free0: set<nat>, mem: Memory, free: set<nat>, first: nat,
                   k: nat, count: nat, doFree: bool, lo: nat, hi: nat)
    requires Removed(root, mem0, free0, own, mem, free, first, k, doFree, lo, hi) && k < count
    requires AllLeaves(mem0, root, first, k) && (doFree ==> NoTables(mem0, root, first, count, own))
    ensures first + k <= MAX_PAGE && doFree && Xlate(mem, root, first + k) != 0 ==>
              Ppn(Xlate(mem, root, first + k)) !in own
    ensures first + k <= MAX_PAGE && doFree && Xlate(mem, root, first + k) != 0
            && Distinct(mem0, root, free0, first, count)
            ==> Ppn(Xlate(mem, root, first + k)) !in free
    ensures NotALeaf(mem, root, first + k) ==> first + k <= MAX_PAGE && !AllLeaves(mem0, root, first, count)
    ensures !NotALeaf(mem, root, first + k) ==> AllLeaves(mem0, root, first, k + 1)
    ensures first + k <= MAX_PAGE <==> (first + k) * 4096 <= MAX_VA
  {
    hide Xlate;
    var n := first + k;
    assert n <= MAX_PAGE ==> Xlate(mem, root, n) == Xlate(mem0, root, n);
    assert NotALeaf(mem, root, n) ==> NotALeaf(mem0, root, n);
    if n <= MAX_PAGE && doFree && Xlate(mem, root, n) != 0 {
      assert Backs(mem0, root, first, count, n, Ppn(Xlate(mem, root, n)));
      hide Released;
      hide Distinct;
      if Distinct(mem0, root, free0, first, count) {
        NotYetFreed(mem0, root, free0, free, first, k, count, lo, hi);
      }
    }
  }

  lemma UnmapDone(mem0: Memory, mem1: Memory, mem: Memory, root: nat, own: Owners, first: nat, k: nat, free0: set<nat>,
                  free1: set<nat>, free: set<nat>, doFree: bool, lo: nat, hi: nat)
    requires Removed(root, mem0, free0, own, mem1, free1, first, k, doFree, lo, hi) && OnlyTables(mem1, mem, own)
    requires if first + k <= MAX_PAGE then LostPage(mem1, mem, root, first + k) else mem == mem1
    requires doFree && first + k <= MAX_PAGE && Xlate(mem1, root, first + k) != 0 ==>
               var f := Ppn(Xlate(mem1, root, first + k)); free == if lo <= f < hi then free1 + {f} else free1
    requires !(doFree && first + k <= MAX_PAGE && Xlate(mem1, root, first + k) != 0) ==> free == free1
    ensures Removed(root, mem0, free0, own, mem, free, first, k + 1, doFree, lo, hi)
  {
    OnlyTablesTrans(mem0, mem1, mem, own);
    hide Xlate;
    hide Released;
    hide OnlyTables;
    if first + k > MAX_PAGE {
      UnmapSkip(mem0, mem, root, first, k);
    } else {
      UnmapOne(mem0, mem1, mem, root, first, k);
    }
    if doFree {
      if first + k <= MAX_PAGE && Xlate(mem1, root, first + k) != 0 {
        ReleaseOne(mem0, root, first, k, free0, free1, free, lo, hi);
      } else {
        ReleaseSkip(mem0, root, first, k, free0, free, lo, hi);
      }
    }
  }
}
