/**
  walk, mappages, uvmunmap, freewalk, uvmcreate and uvmfree of
  kernelspace/mm/pagetable.c and growproc of kernelspace/core/process.c, over one
  physical memory with its pool of free pages.
 */
module PageSpace {
  import opened Wrappers
  import opened PageTable
  import opened PageTear
  import opened PageRange
  import opened PageCost

  // ---------------------------------------------------------------- what steps do

  /** Tables were added from the free pages; nothing outside the tree was written. */
  ghost predicate Grown(mem: Memory, free: set<nat>, own: Owners, mem': Memory, free': set<nat>, own': Owners) {
    && free' <= free && own'.Keys == own.Keys + (free - free')
    && (forall f: nat :: f in own ==> f in own' && own'[f] == own[f])
    && mem'.Keys == mem.Keys
    && (forall f: nat :: f in mem && f !in own' ==> mem'[f] == mem[f])
  }

  lemma GrownTrans(mem: Memory, free: set<nat>, own: Owners, mem1: Memory, free1: set<nat>, own1: Owners, mem2: Memory,
                   free2: set<nat>, own2: Owners)
    requires Grown(mem, free, own, mem1, free1, own1) && Grown(mem1, free1, own1, mem2, free2, own2)
    ensures Grown(mem, free, own, mem2, free2, own2)
  {
  }

  lemma LeafKeepsReached(mem0: Memory, free0: set<nat>, mem: Memory, free: set<nat>, root: nat, own: Owners, f: nat,
                         va: nat, e: nat)
    requires Tree(mem, root, own) && f in own && own[f].Low? && f in mem
    requires Reached(mem0, free0, mem, free, root, va / 4096, 0)
    ensures Reached(mem0, free0, WithEntry(mem, f, PX(0, va), e), free, root, va / 4096, 0)
  {
    LeafKeepsPaths(mem, root, own, f, PX(0, va), e);
    hide At;
  }

  lemma PutLeaf(mem0: Memory, free0: set<nat>, own0: Owners, mem: Memory, free: set<nat>, own: Owners, root: nat,
                f: nat, va: nat, ppn: nat, perm: nat, lo: nat, hi: nat)
    requires Pages(mem0) && Pages(mem) && Tree(mem, root, own) && Pointers(mem, own) && Pool(mem, free, lo, hi)
    requires f in own
    requires va <= MAX_VA && own[f] == LowOf(va / 4096) && perm < 1024 && ppn < 0x10_0000_0000_0000
    requires Grown(mem0, free0, own0, mem, free, own) && SameMap(mem0, mem, root)
    requires Reached(mem0, free0, mem, free, root, va / 4096, 0)
    ensures f in mem
    ensures var mem' := WithEntry(mem, f, PX(0, va), Entry(ppn, perm));
            && Reached(mem0, free0, mem', free, root, va / 4096, 0)
            && Pages(mem') && Tree(mem', root, own) && Pointers(mem', own) && Pool(mem', free, lo, hi)
            && Grown(mem0, free0, own0, mem', free, own) && Mapped(mem0, mem', root, va / 4096, 1, ppn, perm)
  {
    LeafSlot(mem, root, own, f, va);
    LeafFacts(mem, root, own, f, va / 4096, ppn, perm);
    LeafKeepsReached(mem0, free0, mem, free, root, own, f, va, Entry(ppn, perm));
    hide Reached;
    var mem' := WithEntry(mem, f, PX(0, va), Entry(ppn, perm));
    hide Tree;
    hide Pointers;
    hide Entry;
    MappedAfter(mem0, mem, mem', root, va / 4096, ppn, perm);
    hide Mapped;
    hide Xlate;
  }

  // ---------------------------------------------------------------- what mappages adds

  /** k pages from `first` were added to the map, at the cost of some free pages. */
  ghost predicate Added(root: nat, mem0: Memory, free0: set<nat>, own0: Owners, mem: Memory, free: set<nat>,
                        own: Owners, first: nat, k: nat, ppn: nat, perm: nat)
    requires perm < 1024
  {
    && Grown(mem0, free0, own0, mem, free, own)
    && Vacant(mem0, root, first, k) && Mapped(mem0, mem, root, first, k, ppn, perm)
  }

  /** Why mappages stops at page n. */
  ghost predicate Stopped(root: nat, mem0: Memory, free: set<nat>, n: nat) {
    n > MAX_PAGE || free == {} || Xlate(mem0, root, n) != 0
  }

  /** The tables for k pages were made, each from one free page. */
  ghost predicate Afforded(root: nat, mem0: Memory, free0: set<nat>, mem: Memory, free: set<nat>, first: nat, k: nat) {
    Tabled(mem0, mem, root, first, k) && |free| + TableNeed(mem0, root, first, k) == |free0|
  }

  /** Before the call it could be told that k pages, and no more, will be mapped: the next one
      is out of reach or mapped already, or its tables exceed the `room` free pages. */
  ghost predicate StopsThere(root: nat, mem0: Memory, room: nat, first: nat, k: nat) {
    && TableNeed(mem0, root, first, k) <= room
    && (first + k > MAX_PAGE || Xlate(mem0, root, first + k) != 0 || room < TableNeed(mem0, root, first, k + 1))
  }

  lemma AffordedNone(root: nat, mem: Memory, free: set<nat>, first: nat)
    ensures Afforded(root, mem, free, mem, free, first, 0)
  {
    TabledNone(mem, root, first);
  }

  lemma AffordedMore(root: nat, mem0: Memory, free0: set<nat>, mem1: Memory, free1: set<nat>, mem: Memory,
                     free: set<nat>, first: nat, k: nat)
    requires Afforded(root, mem0, free0, mem1, free1, first, k) && (first + k) * 4096 <= MAX_VA
    requires Reached(mem1, free1, mem, free, root, first + k, 0)
    ensures Afforded(root, mem0, free0, mem, free, first, k + 1)
  {
    TabledMore(mem0, free1, mem1, mem, free, root, first, k);
    hide Tabled;
    hide NewTables;
    hide Reached;
  }

  lemma StopReason(root: nat, mem0: Memory, free0: set<nat>, mem: Memory, free: set<nat>, own0: Owners, own: Owners,
                   first: nat, k: nat, ppn: nat, perm: nat)
    requires perm < 1024 && Added(root, mem0, free0, own0, mem, free, own, first, k, ppn, perm)
    requires Afforded(root, mem0, free0, mem, free, first, k)
    requires !(&& (first + k) * 4096 <= MAX_VA
               && Xlate(mem, root, first + k) == 0
               && |free| >= Missing(mem, root, first + k, 0))
    ensures StopsThere(root, mem0, |free0|, first, k)
  {
    if first + k <= MAX_PAGE {
      NextCost(mem0, mem, root, first, k);
      assert Xlate(mem, root, first + k) == Xlate(mem0, root, first + k);
    }
    hide Xlate;
    hide Tabled;
    hide NewTables;
    hide Missing;
    hide Grown;
  }

  lemma AddedNone(root: nat, mem: Memory, free: set<nat>, own: Owners, first: nat, ppn: nat, perm: nat)
    requires perm < 1024
    ensures Added(root, mem, free, own, mem, free, own, first, 0, ppn, perm)
  {
  }

  lemma AddedSame(root: nat, mem0: Memory, free0: set<nat>, own0: Owners, mem1: Memory, free1: set<nat>, own1: Owners,
                  mem: Memory, free: set<nat>, own: Owners, first: nat, k: nat, ppn: nat, perm: nat)
    requires perm < 1024 && Added(root, mem0, free0, own0, mem1, free1, own1, first, k, ppn, perm)
    requires Grown(mem1, free1, own1, mem, free, own) && SameMap(mem1, mem, root)
    requires (first + k) * 4096 > MAX_VA || free == {} || Xlate(mem1, root, first + k) != 0
    ensures Added(root, mem0, free0, own0, mem, free, own, first, k, ppn, perm)
    ensures Stopped(root, mem0, free, first + k)
  {
    GrownTrans(mem0, free0, own0, mem1, free1, own1, mem, free, own);
    hide Grown;
    hide Xlate;
    MappedSame(mem0, mem1, mem, root, first, k, ppn, perm);
  }

  lemma AddedMore(root: nat, mem0: Memory, free0: set<nat>, own0: Owners, mem1: Memory, free1: set<nat>, own1: Owners,
                  mem: Memory, free: set<nat>, own: Owners, first: nat, k: nat, ppn: nat, perm: nat)
    requires perm < 1024 && Added(root, mem0, free0, own0, mem1, free1, own1, first, k, ppn, perm)
    requires Grown(mem1, free1, own1, mem, free, own) && Mapped(mem1, mem, root, first + k, 1, FrameAt(ppn, k), perm)
    requires (first + k) * 4096 <= MAX_VA && Xlate(mem1, root, first + k) == 0
    ensures Added(root, mem0, free0, own0, mem, free, own, first, k + 1, ppn, perm)
  {
    GrownTrans(mem0, free0, own0, mem1, free1, own1, mem, free, own);
    hide Grown;
    hide Xlate;
    MappedMore(mem0, mem1, mem, root, first, k, ppn, perm);
  }

  /** A table that is there costs nothing. */
  lemma TableThere(mem: Memory, free: set<nat>, root: nat, q: Path)
    requires At(mem, root, q).Some?
    ensures Paid(mem, free, mem, free, root, q)
  {
  }

  lemma ReachedAll(mem0: Memory, free0: set<nat>, mem: Memory, free: set<nat>, root: nat, n: nat)
    requires Reached(mem0, free0, mem, free, root, n, 0)
    ensures |free0| >= Missing(mem0, root, n, 0)
  {
    hide Missing;
  }

  lemma ChildOwned(mem: Memory, root: nat, own: Owners, t: nat, i: nat)
    requires Tree(mem, root, own) && t in own && !own[t].Low? && i < 512 && Valid(mem[t][i])
    ensures Ppn(mem[t][i]) in own && own[Ppn(mem[t][i])] == Ext(own[t], i) && At(mem, root, Ext(own[t], i)).Some?
  {
    assert At(mem, root, own[t]) == Some(t);
    assert At(mem, root, Ext(own[t], i)) == Some(Ppn(mem[t][i]));
  }

  /** No child behind an invalid entry. */
  lemma NoChild(mem: Memory, root: nat, own: Owners, t: nat, i: nat)
    requires Tree(mem, root, own) && t in own && !own[t].Low? && i < 512 && !Valid(mem[t][i])
    ensures At(mem, root, Ext(own[t], i)) == None
  {
    assert At(mem, root, own[t]) == Some(t);
  }

  /** 0x05 in every byte: what kalloc leaves in a page. */
  function Junk(): (s: seq<nat>)
    ensures |s| == 512
  {
    seq(512, _ => 0x0505_0505_0505_0505)
  }

  ghost predicate Pool(mem: Memory, free: set<nat>, lo: nat, hi: nat) {
    && Pages(mem)
    && (forall f: nat :: lo <= f < hi ==> f in mem)
    && (forall f: nat :: f in free ==> lo <= f < hi)
  }

  /** The table pages came from the pool and are not free. */
  ghost predicate InUse(free: set<nat>, own: Owners, lo: nat, hi: nat) {
    forall f: nat :: f in own ==> lo <= f < hi && f !in free
  }

  /** A well-formed tree beside a well-formed pool. */
  ghost predicate Sound(root: nat, mem: Memory, free: set<nat>, own: Owners, lo: nat, hi: nat) {
    Pages(mem) && Pool(mem, free, lo, hi) && Tree(mem, root, own) && Pointers(mem, own) && InUse(free, own, lo, hi)
  }

  lemma FreedTables(mem: Memory, mem': Memory, free: set<nat>, free': set<nat>, own: Owners, own': Owners, c: nat,
                    lo: nat, hi: nat)
    requires Pool(mem, free, lo, hi) && InUse(free, own, lo, hi)
    requires Pages(mem') && mem'.Keys == mem.Keys && own'.Keys <= own.Keys && c in own
    requires free' == free + (own.Keys - own'.Keys) + {c}
    ensures Pool(mem', free', lo, hi) && InUse(free', own' - {c}, lo, hi)
    ensures (own' - {c}).Keys <= own.Keys && free' == free + (own.Keys - (own' - {c}).Keys)
  {
  }

  class Space {
    var mem: Memory
    var free: set<nat>
    const lo: nat
    const hi: nat
    /** The table pages of the tree worked on. */
    ghost var own: Owners
    /** How often kfree was given a page that was free already. */
    ghost var again: nat

    ghost predicate PoolOk()
      reads this
    {
      Pool(mem, free, lo, hi)
    }

    ghost predicate Ok(root: nat)
      reads this
    {
      Sound(root, mem, free, own, lo, hi)
    }

    method Kalloc() returns (p: Option<nat>)
      requires PoolOk()
      modifies this`mem, this`free
      ensures PoolOk()
      ensures p.None? <==> old(free) == {}
      ensures p.None? ==> mem == old(mem) && free == old(free)
      ensures p.Some? ==> p.value in old(free) && free == old(free) - {p.value} && mem == old(mem)[p.value := Junk()]
    {
      if free == {} {
        return None;
      }
      var f :| f in free;
      free := free - {f};
      mem := mem[f := Junk()];
      return Some(f);
    }

    /** kfree ignores addresses outside the pool. */
    method Kfree(f: nat)
      requires PoolOk()
      modifies this`free, this`again
      ensures PoolOk()
      ensures free == if lo <= f < hi then old(free) + {f} else old(free)
      ensures again == old(again) + if f in old(free) then 1 else 0
    {
      again := again + if f in free then 1 else 0;
      if lo <= f < hi {
        free := free + {f};
      }
    }

    method ZeroPage(f: nat)
      requires PoolOk() && f in mem
      modifies this`mem
      ensures PoolOk() && mem == old(mem)[f := Zeros()]
    {
      var i := 0;
      while i < 512
        invariant i <= 512 && Pages(mem) && mem.Keys == old(mem).Keys
        invariant forall g: nat :: g in mem && g != f ==> mem[g] == old(mem)[g]
        invariant forall k :: 0 <= k < i ==> mem[f][k] == 0
      {
        mem := WithEntry(mem, f, i, 0);
        i := i + 1;
      }
      assert mem[f] == Zeros();
    }

    // ------------------------------------------------------------------------ walk

    /** One level of walk: follow the entry, or hang a fresh table behind it. */
    method Descend(root: nat, t: nat, i: nat, alloc: bool) returns (c: Option<nat>)
      requires Ok(root) && t in own && !own[t].Low? && i < 512
      modifies this`mem, this`free, this`own
      ensures Ok(root) && SameMap(old(mem), mem, root)
      ensures c.Some? ==> c.value in own && own[c.value] == Ext(old(own[t]), i)
      ensures Grown(old(mem), old(free), old(own), mem, free, own)
      ensures !alloc ==> mem == old(mem) && free == old(free) && own == old(own)
      ensures c.None? ==> At(old(mem), root, Ext(old(own[t]), i)) == None
      ensures alloc && c.None? ==> free == {} && old(free) == {}
      ensures alloc && c.Some? ==> Paid(old(mem), old(free), mem, free, root, Ext(old(own[t]), i))
    {
      GrownNone(mem, free, own);
      SameMapNone(mem, root);
      DescendFacts(root, mem, free, own, t, lo, hi);
      hide Sound;
      hide Grown;
      hide SameMap;
      hide Paid;
      hide At;
      hide Valid;
      hide Pool;
      hide Entry;
      if Valid(mem[t][i]) {
        ChildOwned(mem, root, own, t, i);
        TableThere(mem, free, root, Ext(own[t], i));
        return Some(Ppn(mem[t][i]));
      }
      NoChild(mem, root, own, t, i);
      if !alloc {
        return None;
      }
      c := Kalloc();
      if c.None? {
        return None;
      }
      HangDone(root, old(mem), old(free), own, t, i, c.value, lo, hi);
      ZeroPage(c.value);
      mem := WithEntry(mem, t, i, Entry(c.value, 0));
      own := own[c.value := Ext(own[t], i)];
    }

    /** The slot of va's leaf entry.  Creating tables on the way changes no translation;
        it fails only beyond MAXVA, or where a table is missing and may not or cannot be
        created. */
    method Walk(root: nat, va: nat, alloc: bool) returns (slot: Option<nat>)
      requires Ok(root) && va < WORD
      modifies this`mem, this`free, this`own
      ensures Ok(root) && SameMap(old(mem), mem, root)
      ensures Grown(old(mem), old(free), old(own), mem, free, own)
      ensures slot.Some? ==> va <= MAX_VA && slot.value in own && own[slot.value] == LowOf(va / 4096)
      ensures !alloc ==> mem == old(mem) && free == old(free) && own == old(own)
      ensures !alloc && slot.None? && va <= MAX_VA ==> At(mem, root, LowOf(va / 4096)) == None
      ensures alloc && slot.None? ==> va > MAX_VA || free == {}
      ensures alloc && va <= MAX_VA ==> (slot.Some? <==> |old(free)| >= Missing(old(mem), root, va / 4096, 0))
      ensures alloc && slot.Some? ==> Reached(old(mem), old(free), mem, free, root, va / 4096, 0)
      ensures slot.Some? ==> va <= 0x40_0000_0000
      ensures alloc && slot.None? && va <= 0x40_0000_0000 ==> |old(free)| < Missing(old(mem), root, va / 4096, 0)
    {
      if va > MAX_VA {
        return None;
      }
      assert At(mem, root, Root) == Some(root);
      PXIndices(va);
      hide Missing;
      hide Reached;
      hide Paid;
      hide At;
      hide Sound;
      var t := root;
      var level := 2;
      ghost var n := va / 4096;
      ReachedStart(mem, free, root, n);
      while level > 0
        invariant 0 <= level <= 2
        invariant Ok(root) && SameMap(old(mem), mem, root)
        invariant Grown(old(mem), old(free), old(own), mem, free, own)
        invariant t in own && own[t] == PathAt(n, level)
        invariant !alloc ==> mem == old(mem) && free == old(free) && own == old(own)
        invariant alloc ==> Reached(old(mem), old(free), mem, free, root, n, level)
      {
        ghost var mem1, free1, own1 := mem, free, own;
        assert Ext(own[t], PX(level, va)) == PathAt(n, level - 1);
        var c := Descend(root, t, PX(level, va), alloc);
        GrownTrans(old(mem), old(free), old(own), mem1, free1, own1, mem, free, own);
        if c.None? {
          if !alloc {
            MissingTable(mem, root, own[t], PX(level, va), n);
          } else {
            ReachedNoFurther(old(mem), old(free), mem1, free1, root, n, level);
          }
          return None;
        }
        if alloc {
          ReachedNext(old(mem), old(free), mem1, free1, mem, free, root, n, level);
        }
        t := c.value;
        level := level - 1;
      }
      if alloc {
        ReachedAll(old(mem), old(free), mem, free, root, n);
      }
      return Some(t);
    }

    // -------------------------------------------------------------------- mappages

    /** One round of mappages. */
    method MapPage(root: nat, va: nat, pa: nat, perm: nat) returns (ok: bool)
      requires Ok(root) && va < WORD && pa < WORD && perm < 1024
      modifies this`mem, this`free, this`own
      ensures Ok(root) && Grown(old(mem), old(free), old(own), mem, free, own)
      ensures ok <==> va <= MAX_VA && Xlate(old(mem), root, va / 4096) == 0
                      && |old(free)| >= Missing(old(mem), root, va / 4096, 0)
      ensures ok ==> Reached(old(mem), old(free), mem, free, root, va / 4096, 0)
      ensures ok ==> Mapped(old(mem), mem, root, va / 4096, 1, pa / 4096, perm)
      ensures !ok ==> SameMap(old(mem), mem, root)
      ensures !ok ==> va > MAX_VA || free == {} || Xlate(old(mem), root, va / 4096) != 0
    {
      hide Tree;
      hide Pointers;
      hide InUse;
      hide Pool;
      hide Pages;
      hide Xlate;
      hide Grown;
      hide Valid;
      hide Entry;
      hide Mapped;
      hide Missing;
      hide Reached;
      var slot := Walk(root, va, true);
      if slot.None? {
        return false;
      }
      ghost var mem1 := mem;
      var f := slot.value;
      LeafSlot(mem, root, own, f, va);
      if Valid(mem[f][PX(0, va)]) {
        return false;
      }
      PutLeaf(old(mem), old(free), old(own), mem, free, own, root, f, va, pa / 4096, perm, lo, hi);
      mem := WithEntry(mem, f, PX(0, va), Entry(pa / 4096, perm));
      return true;
    }

    /** Maps the pages from the one of va to the one of va + size - 1.  On failure a prefix
        of k pages stays mapped, and the next one is out of range, already mapped, or memory
        is exhausted. */
    method MapPages(root: nat, va: nat, pa: nat, size: nat, perm: nat) returns (ok: bool, ghost k: nat)
      requires Ok(root) && va < WORD && pa < WORD && size < WORD && perm < 1024
      modifies this`mem, this`free, this`own
      ensures Ok(root) && Added(root, old(mem), old(free), old(own), mem, free, own, va / 4096, k, pa / 4096, perm)
      ensures ok ==> k > 0 && va / 4096 + k == LastPage(va, size) + 1
      ensures ok ==> Afforded(root, old(mem), old(free), mem, free, va / 4096, k)
      ensures !ok ==> StopsThere(root, old(mem), |old(free)|, va / 4096, k)
      ensures !ok ==> Stopped(root, old(mem), free, va / 4096 + k)
      ensures !ok && va / 4096 <= LastPage(va, size) ==> va / 4096 + k <= LastPage(va, size)
    {
      hide Sound;
      hide Added;
      hide Stopped;
      hide Xlate;
      hide Grown;
      hide Mapped;
      hide SameMap;
      hide LastPage;
      hide Afforded;
      hide Missing;
      hide Reached;
      hide StopsThere;
      AffordedNone(root, mem, free, va / 4096);
      FirstFrame(pa);
      hide FrameAt;
      AddedNone(root, mem, free, own, va / 4096, pa / 4096, perm);
      var a := va / 4096 * 4096;
      ghost var first := va / 4096;
      var last := LastPage(va, size) * 4096;
      var p := pa;
      k := 0;
      while true
        invariant a == (first + k) * 4096 && (k > 0 ==> a <= MAX_VA + 4096)
        invariant p < WORD && p / 4096 == FrameAt(pa / 4096, k)
        invariant Ok(root) && Added(root, old(mem), old(free), old(own), mem, free, own, first, k, pa / 4096, perm)
        invariant first <= LastPage(va, size) ==> first + k <= LastPage(va, size)
        invariant Afforded(root, old(mem), old(free), mem, free, first, k)
        decreases WORD + MAX_VA - a
      {
        ghost var mem1, free1, own1 := mem, free, own;
        ok := MapPage(root, a, p, perm);
        if !ok {
          StopReason(root, old(mem), old(free), mem1, free1, old(own), own1, first, k, pa / 4096, perm);
          AddedSame(root, old(mem), old(free), old(own), mem1, free1, own1, mem, free, own, first, k, pa / 4096, perm);
          return;
        }
        AffordedMore(root, old(mem), old(free), mem1, free1, mem, free, first, k);
        AddedMore(root, old(mem), old(free), old(own), mem1, free1, own1, mem, free, own, first, k, pa / 4096, perm);
        k := k + 1;
        if a == last {
          return;
        }
        NextFrame(pa / 4096, k - 1, p);
        a := a + 4096;
        p := (p + 4096) % WORD;
      }
    }

    // -------------------------------------------------------------------- uvmunmap

    /** One round of uvmunmap; false is the panic on an entry that is no leaf. */
    method UnmapPage(root: nat, va: nat, doFree: bool) returns (ok: bool)
      requires Ok(root) && va < WORD
      requires doFree && va <= MAX_VA && Xlate(mem, root, va / 4096) != 0 ==> Ppn(Xlate(mem, root, va / 4096)) !in own
      modifies this`mem, this`free, this`own, this`again
      ensures ok <==> va > MAX_VA || !NotALeaf(old(mem), root, va / 4096)
      ensures ok ==> Ok(root) && own == old(own) && OnlyTables(old(mem), mem, own)
      ensures ok && va <= MAX_VA ==> LostPage(old(mem), mem, root, va / 4096)
      ensures ok && va > MAX_VA ==> mem == old(mem)
      ensures ok ==> if doFree && va <= MAX_VA && Xlate(old(mem), root, va / 4096) != 0
                     then var f := Ppn(Xlate(old(mem), root, va / 4096));
                          && free == (if lo <= f < hi then old(free) + {f} else old(free))
                          && again == old(again) + if f in old(free) then 1 else 0
                     else free == old(free) && again == old(again)
    {
      hide Tree;
      hide Pointers;
      hide Pages;
      hide Xlate;
      hide Grown;
      hide Valid;
      var slot := Walk(root, va, false);
      if slot.None? {
        if va <= MAX_VA {
          NoTableNoPage(mem, root, va / 4096);
        }
        return true;
      }
      var f := slot.value;
      LeafSlot(mem, root, own, f, va);
      var e := mem[f][PX(0, va)];
      if !Valid(e) {
        return true;
      }
      if Flags(e) == 1 {
        return false;
      }
      ClearLeaf(mem, root, own, f, va);
      if doFree {
        Kfree(Ppn(e));
      }
      mem := WithEntry(mem, f, PX(0, va), 0);
      return true;
    }

    /** Removes exactly the given range from the map and, if asked to, returns exactly
        the frames behind it.  It panics iff va is not aligned or an entry is no leaf. */
    method UvmUnmap(root: nat, va: nat, npages: nat, doFree: bool) returns (ok: bool)
      requires Ok(root) && va < WORD && npages < WORD
      requires doFree ==> NoTables(mem, root, va / 4096, UnmapCount(va, npages), own)
      modifies this`mem, this`free, this`own, this`again
      ensures ok <==> va % 4096 == 0 && AllLeaves(old(mem), root, va / 4096, UnmapCount(va, npages))
      ensures ok ==> Ok(root) && own == old(own)
      ensures ok ==>
                Removed(root, old(mem), old(free), own, mem, free, va / 4096, UnmapCount(va, npages), doFree, lo, hi)
      ensures ok && (doFree ==> Distinct(old(mem), root, old(free), va / 4096, UnmapCount(va, npages))) ==>
                again == old(again)
    {
      if va % 4096 != 0 {
        return false;
      }
      var end := (va + npages * 4096) % WORD;
      UnmapEnd(va, npages, UnmapCount(va, npages));
      hide *;
      ok := UnmapRange(root, va, end, doFree, va / 4096, UnmapCount(va, npages));
    }

    /** The loop of uvmunmap over the addresses from va up to end. */
    method UnmapRange(root: nat, va: nat, end: nat, doFree: bool, ghost first: nat, ghost count: nat) returns (ok: bool)
      requires Ok(root) && va == first * 4096 && end < WORD && UnmapSpan(first, end, count)
      requires doFree ==> NoTables(mem, root, first, count, own)
      modifies this`mem, this`free, this`own, this`again
      ensures ok <==> AllLeaves(old(mem), root, first, count)
      ensures ok ==> Ok(root) && own == old(own)
      ensures ok ==> Removed(root, old(mem), old(free), own, mem, free, first, count, doFree, lo, hi)
      ensures ok && (doFree ==> Distinct(old(mem), root, old(free), first, count)) ==> again == old(again)
    {
      hide *;
      UnmapStart(mem, root, own, first, free, doFree, lo, hi);
      var a := va;
      ghost var k := 0;
      InSpan(first, end, count, k);
      while a < end
        invariant a == (first + k) * 4096 && k <= count && (a < end <==> k < count)
        invariant Ok(root) && own == old(own) && AllLeaves(old(mem), root, first, k)
        invariant Removed(root, old(mem), old(free), own, mem, free, first, k, doFree, lo, hi)
        invariant (doFree ==> Distinct(old(mem), root, old(free), first, count)) ==> again == old(again)
      {
        UnmapRound(old(mem), root, own, old(free), mem, free, first, k, count, doFree, lo, hi);
        ghost var mem1, free1 := mem, free;
        ok := UnmapPage(root, a, doFree);
        if !ok {
          return;
        }
        UnmapDone(old(mem), mem1, mem, root, own, first, k, old(free), free1, free, doFree, lo, hi);
        a := a + 4096;
        k := k + 1;
        InSpan(first, end, count, k);
      }
      return true;
    }

    // -------------------------------------------------------------------- freewalk

    /** Frees the table f and every table below it; false is the panic on a leaf. */
    method FreeWalk(root: nat, f: nat) returns (ok: bool)
      requires Pool(mem, free, lo, hi) && InUse(free, own, lo, hi)
      requires Tree(mem, root, own) && Pointers(mem, own) && Leafy(mem, own) && f in own
      modifies this`mem, this`free, this`own, this`again
      ensures ok <==> NoLeaf(old(mem), old(own), old(own[f]), 512)
      ensures ok ==> Pool(mem, free, lo, hi) && again == old(again)
      ensures ok ==> TornDown(root, old(mem), old(own), mem, own, f, 512)
      ensures ok ==> free == old(free) + (old(own).Keys - own.Keys) + {f}
      decreases Height(own[f])
    {
      StartTearing(root, mem, own, f);
      hide TornDown;
      hide NoLeaf;
      hide Leafy;
      hide Tree;
      hide Valid;
      hide HasRWX;
      hide Pointers;
      var i := 0;
      while i < 512
        invariant i <= 512 && Pool(mem, free, lo, hi) && InUse(free, own, lo, hi) && again == old(again)
        invariant TornDown(root, old(mem), old(own), mem, own, f, i)
        invariant NoLeaf(old(mem), old(own), old(own[f]), i)
        invariant free == old(free) + (old(own).Keys - own.Keys)
      {
        TearingFacts(root, old(mem), old(own), mem, own, f, i);
        var e := mem[f][i];
        if Valid(e) && !HasRWX(e) {
          ok := FreeEntry(root, f, i, old(mem), old(own));
          if !ok {
            return;
          }
        } else if Valid(e) {
          TearingMetLeaf(root, old(mem), old(own), mem, own, f, i);
          return false;
        } else {
          TearingSkips(root, old(mem), old(own), mem, own, f, i);
        }
        i := i + 1;
      }
      TearingFacts(root, old(mem), old(own), mem, own, f, i);
      Kfree(f);
      return true;
    }

    /** The recursive call of freewalk on the table behind entry i, and clearing it. */
    method FreeEntry(root: nat, f: nat, i: nat, ghost mem0: Memory, ghost own0: Owners) returns (ok: bool)
      requires Pool(mem, free, lo, hi) && InUse(free, own, lo, hi) && i < 512
      requires TornDown(root, mem0, own0, mem, own, f, i) && NoLeaf(mem0, own0, own0[f], i)
      requires Valid(mem[f][i]) && !HasRWX(mem[f][i])
      modifies this`mem, this`free, this`own, this`again
      ensures !ok ==> !NoLeaf(mem0, own0, own0[f], 512)
      ensures ok ==> TornDown(root, mem0, own0, mem, own, f, i + 1) && NoLeaf(mem0, own0, own0[f], i + 1)
      ensures ok ==> Pool(mem, free, lo, hi) && InUse(free, own, lo, hi) && again == old(again)
      ensures ok ==> own.Keys <= old(own).Keys && free == old(free) + (old(own).Keys - own.Keys)
      decreases Height(own[f]), 0
    {
      hide *;
      TearingFacts(root, mem0, own0, mem, own, f, i);
      var c := Ppn(mem[f][i]);
      ghost var mem1, own1 := mem, own;
      EnterEntry(root, mem0, own0, mem, own, f, i);
      ok := FreeWalk(root, c);
      if !ok {
        return;
      }
      FinishEntry(root, mem0, own0, mem1, own1, mem, own, f, i, c);
      FreedTables(mem1, WithEntry(mem, f, i, 0), old(free), free, own1, own, c, lo, hi);
      mem := WithEntry(mem, f, i, 0);
      own := own - {c};
    }
  }

  /** The tree while table f is being torn down: its first i entries are worked off. */
  ghost predicate TornDown(root: nat, mem0: Memory, own0: Owners, mem: Memory, own: Owners, f: nat, i: nat) {
    && Tree(mem0, root, own0) && f in own0
    && Tree(mem, root, own) && Pointers(mem, own) && Leafy(mem, own)
    && f in own && own[f] == own0[f] && own.Keys <= own0.Keys
    && Torn(mem0, own0, mem, own, f, i)
  }

  lemma StartTearing(root: nat, mem: Memory, own: Owners, f: nat)
    requires Tree(mem, root, own) && Pointers(mem, own) && f in own && Leafy(mem, own)
    ensures TornDown(root, mem, own, mem, own, f, 0) && NoLeaf(mem, own, own[f], 0)
  {
    TornStart(mem, own, f);
  }

  lemma TearingFacts(root: nat, mem0: Memory, own0: Owners, mem: Memory, own: Owners, f: nat, i: nat)
    requires TornDown(root, mem0, own0, mem, own, f, i)
    ensures Pages(mem) && Pages(mem0) && f in mem && f in own && own[f] == own0[f] && own.Keys <= own0.Keys
    ensures Tree(mem, root, own) && Pointers(mem, own) && Leafy(mem, own)
  {
    TableInMemory(mem, root, own, f);
  }

  lemma TearingMetLeaf(root: nat, mem0: Memory, own0: Owners, mem: Memory, own: Owners, f: nat, i: nat)
    requires TornDown(root, mem0, own0, mem, own, f, i) && i < 512 && Valid(mem[f][i]) && HasRWX(mem[f][i])
    ensures !NoLeaf(mem0, own0, own0[f], 512)
  {
    hide Torn;
    MetLeaf(mem0, own0, mem, own, f, i);
  }

  lemma TearingSkips(root: nat, mem0: Memory, own0: Owners, mem: Memory, own: Owners, f: nat, i: nat)
    requires TornDown(root, mem0, own0, mem, own, f, i) && NoLeaf(mem0, own0, own0[f], i) && i < 512
    requires !Valid(mem[f][i])
    ensures TornDown(root, mem0, own0, mem, own, f, i + 1) && NoLeaf(mem0, own0, own0[f], i + 1)
  {
    TearingFacts(root, mem0, own0, mem, own, f, i);
    hide Tree;
    hide Torn;
    SkipEntry(mem0, root, own0, mem, own, f, i);
    SkipLeaf(mem0, root, own0, f, i);
  }

  /** Before the recursive call. */
  lemma EnterEntry(root: nat, mem0: Memory, own0: Owners, mem: Memory, own: Owners, f: nat, i: nat)
    requires TornDown(root, mem0, own0, mem, own, f, i) && NoLeaf(mem0, own0, own0[f], i) && i < 512
    requires Valid(mem[f][i]) && !HasRWX(mem[f][i])
    ensures !own[f].Low? && Ppn(mem[f][i]) in own && own[Ppn(mem[f][i])] == Ext(own[f], i)
    ensures Height(Ext(own[f], i)) < Height(own[f])
    ensures NoLeaf(mem, own, Ext(own[f], i), 512) ==> NoLeaf(mem0, own0, own0[f], i + 1)
    ensures !NoLeaf(mem, own, Ext(own[f], i), 512) ==> !NoLeaf(mem0, own0, own0[f], 512)
  {
    PointerTable(mem, own, f, i);
    ChildOwned(mem, root, own, f, i);
    hide Torn;
    hide Tree;
    CutLeaf(mem0, root, own0, mem, own, f, i, Ppn(mem[f][i]));
  }

  lemma TableInMemory(mem: Memory, root: nat, own: Owners, f: nat)
    requires Tree(mem, root, own) && f in own
    ensures f in mem && Pages(mem)
  {
  }

  lemma PointerTable(mem: Memory, own: Owners, f: nat, i: nat)
    requires Pages(mem) && Leafy(mem, own) && f in own && f in mem && i < 512 && Valid(mem[f][i]) && !HasRWX(mem[f][i])
    ensures !own[f].Low?
  {
  }

  /** A table torn down to its own empty page hangs on its parent's entry. */
  lemma TornTable(mem1: Memory, own1: Owners, mem: Memory, own: Owners, f: nat, i: nat, c: nat)
    requires Pages(mem1) && Pages(mem) && c in own1 && c in mem1 && f in own1 && f in mem1
    requires !own1[f].Low? && own1[c] == Ext(own1[f], i)
    requires Torn(mem1, own1, mem, own, c, 512)
    ensures c in own && own[c] == own1[c] && f in own && own[f] == own1[f] && f != c && f in mem
    ensures own.Keys <= own1.Keys && mem.Keys == mem1.Keys
    ensures forall k: nat :: k < 512 ==> !Valid(mem[c][k])
  {
    hide Valid;
  }

  /** The child's page is empty and free: clearing the entry completes the step. */
  lemma FinishEntry(root: nat, mem0: Memory, own0: Owners, mem1: Memory, own1: Owners, mem: Memory, own: Owners, f: nat,
                    i: nat, c: nat)
    requires TornDown(root, mem0, own0, mem1, own1, f, i) && i < 512 && !own0[f].Low? && c in own1
    requires own1[c] == Ext(own0[f], i)
    requires TornDown(root, mem1, own1, mem, own, c, 512)
    ensures f in mem && Pages(mem) && own.Keys <= own1.Keys && mem.Keys == mem1.Keys
    ensures TornDown(root, mem0, own0, WithEntry(mem, f, i, 0), own - {c}, f, i + 1)
  {
    TableInMemory(mem1, root, own1, f);
    TableInMemory(mem1, root, own1, c);
    TornTable(mem1, own1, mem, own, f, i, c);
    hide Torn;
    hide Valid;
    hide HasRWX;
    CutEntry(mem0, root, own0, mem1, own1, mem, own, f, i, c);
    hide Tree;
    assert Drops(mem, root, own, f, i, c);
    DropFacts(mem, root, own, f, i, c);
  }

  /** Where walk stops there is no last-level table. */
  lemma MissingTable(mem: Memory, root: nat, p: Path, i: nat, n: nat)
    requires Pages(mem) && i < 512 && Bounded(p) && At(mem, root, Ext(p, i)) == None
    requires (p == Root && i == I2(n)) || (p == Mid(I2(n)) && i == I1(n))
    ensures At(mem, root, LowOf(n)) == None
  {
  }

  lemma DropFacts(mem: Memory, root: nat, own: Owners, f: nat, i: nat, c: nat)
    requires Drops(mem, root, own, f, i, c) && Pointers(mem, own) && Leafy(mem, own)
    ensures var mem' := WithEntry(mem, f, i, 0);
            Tree(mem', root, own - {c}) && Pointers(mem', own - {c}) && Leafy(mem', own - {c})
  {
    DropKeepsTree(mem, root, own, f, i, c);
    hide Tree;
    hide HasRWX;
    hide Valid;
  }

  lemma GrownNone(mem: Memory, free: set<nat>, own: Owners)
    ensures Grown(mem, free, own, mem, free, own)
  {
  }

  lemma SameMapNone(mem: Memory, root: nat)
    ensures SameMap(mem, mem, root)
  {
  }

  lemma DescendFacts(root: nat, mem: Memory, free: set<nat>, own: Owners, t: nat, lo: nat, hi: nat)
    requires Sound(root, mem, free, own, lo, hi) && t in own
    ensures Pool(mem, free, lo, hi) && Tree(mem, root, own) && t in mem && Pages(mem) && |mem[t]| == 512
  {
  }

  /** A fresh, zeroed page c behind entry i of table t. */
  lemma HangDone(root: nat, mem: Memory, free: set<nat>, own: Owners, t: nat, i: nat, c: nat, lo: nat, hi: nat)
    requires Sound(root, mem, free, own, lo, hi) && t in own && !own[t].Low? && i < 512 && c in free
    requires t in mem && |mem[t]| == 512 && !Valid(mem[t][i])
    ensures c in mem && t != c && Pages(mem[c := Junk()][c := Zeros()])
    ensures var mem', own' := WithEntry(mem[c := Junk()][c := Zeros()], t, i, Entry(c, 0)), own[c := Ext(own[t], i)];
            && Sound(root, mem', free - {c}, own', lo, hi) && SameMap(mem, mem', root)
            && Grown(mem, free, own, mem', free - {c}, own') && Paid(mem, free, mem', free - {c}, root, Ext(own[t], i))
  {
    assert Hangs(mem, root, own, t, i, c);
    HangFacts(mem, root, own, t, i, c);
    HangPaid(mem, root, own, t, i, c, free);
    assert mem[c := Junk()][c := Zeros()] == mem[c := Zeros()];
    hide Tree;
    hide Pointers;
    hide SameMap;
    hide Paid;
    hide AddsTable;
    hide Valid;
    hide Entry;
  }

  lemma HangPaid(mem: Memory, root: nat, own: Owners, t: nat, i: nat, c: nat, free: set<nat>)
    requires Hangs(mem, root, own, t, i, c) && c in free
    ensures Paid(mem, free, WithTable(mem, t, i, c), free - {c}, root, Ext(own[t], i))
  {
    HangPaths(mem, root, own, t, i, c);
    hide At;
    hide WithTable;
  }

  lemma HangFacts(mem: Memory, root: nat, own: Owners, t: nat, i: nat, c: nat)
    requires Hangs(mem, root, own, t, i, c) && Pointers(mem, own)
    ensures var mem' := WithTable(mem, t, i, c);
            && Tree(mem', root, own[c := Ext(own[t], i)]) && Pointers(mem', own[c := Ext(own[t], i)])
            && SameMap(mem, mem', root)
            && (forall f: nat :: f in mem && f != t && f != c ==> mem'[f] == mem[f])
  {
    HangKeepsTree(mem, root, own, t, i, c);
    HangKeepsPointers(mem, root, own, t, i, c);
    HangKeepsMap(mem, root, own, t, i, c);
  }
}
