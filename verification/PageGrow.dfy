/**
  growproc of kernelspace/core/process.c: a process grows or shrinks its heap.  The method
  holds of every address space and every size; what its calls mean for uvmfree is in
  PageBreak.
 */
module PageGrow {
  import opened PageTable
  import opened PageRange
  import opened PageCost
  import opened PageRegion
  import opened PageSpace
  import opened PageLife

  /** The end of the heap's range: the stack page. */
  const HEAP_END: nat := STACK_PAGE * 4096

  /** The size at which uvmfree takes most: every page from USERBASE on. */
  const TOP: nat := WORD - 4096

  /** An address space in order: whatever its size, uvmfree finds leaves only, and frames from
      USERBASE on that are no tables, not free and not shared; those of the heap and the stack
      come from the pool. */
  ghost predicate UserOk(root: nat, mem: Memory, free: set<nat>, own: Owners, lo: nat, hi: nat) {
    && NoBare(mem, root) && UserNoTables(mem, root, TOP, own) && UserDistinct(mem, root, TOP, free)
    && (forall n: nat, f: nat :: UserBacks(mem, root, TOP, n, f) && n <= STACK_PAGE ==> lo <= f < hi)
  }

  /** A fresh address space is one, if its trapframe is in use and no table; and uvmfree can take
      it down at every size: the kernel's pages are among those it unmaps. */
  lemma CreatedOk(root: nat, ctx: nat, sz: nat, mem: Memory, free: set<nat>, own: Owners, lo: nat, hi: nat)
    requires KernelMap(root, ctx, REGION_COUNT, mem, free) && ctx !in free && ctx !in own
    ensures UserOk(root, mem, free, own, lo, hi) && AllCovered(mem, root, sz)
  {
    hide Xlate;
    forall n: nat | n < PAGE_COUNT && Xlate(mem, root, n) != 0
      ensures Flags(Xlate(mem, root, n)) != 1 && InRegions(REGION_COUNT, n)
      ensures InUser(TOP, n) ==> n == TRAPFRAME_PAGE && Ppn(Xlate(mem, root, n)) == ctx
    {
      KernelPage(ctx, REGION_COUNT, n);
      if InUser(TOP, n) {
        UserRange(TOP, n);
        TrapframePage(ctx, n);
      }
    }
    assert forall n: nat :: InUser(TOP, n) ==> n < PAGE_COUNT;
    hide Flags;
    hide InRegions;
    hide InUser;
    hide Ppn;
  }

  /** The page of the trapframe, the last one below MAXVA. */
  const TRAPFRAME_PAGE: nat := 0x3ffffff

  lemma TrapframePage(ctx: nat, n: nat)
    requires InRegions(REGION_COUNT, n) && USER_PAGE <= n
    ensures n == TRAPFRAME_PAGE && Ppn(KernelEntry(ctx, REGION_COUNT, n)) == ctx
  {
    SomeRegion(REGION_COUNT, n);
    assert n == First(6) && InRegion(6, n);
    assert KernelEntry(ctx, 7, n) == Entry(ctx, Perm(6));
    EntryFields(ctx, Perm(6));
  }

  /** The pages whose frames uvmfree returns, at any size. */
  lemma UserRange(sz: nat, n: nat)
    requires sz < WORD
    ensures InUser(sz, n) <==> (USER_PAGE <= n < UpPage(sz) && n <= MAX_PAGE) || n == STACK_PAGE
    ensures UpPage(sz) <= UpPage(TOP) && MAX_PAGE < UpPage(TOP)
  {
  }

  lemma NotARegion(pg: nat)
    requires USER_PAGE <= pg < STACK_PAGE
    ensures !InRegions(REGION_COUNT, pg)
  {
    if InRegions(REGION_COUNT, pg) {
      SomeRegion(REGION_COUNT, pg);
    }
  }

  lemma KernelPage(ctx: nat, i: nat, n: nat)
    requires KernelEntry(ctx, i, n) != 0 && i <= REGION_COUNT
    ensures InRegions(i, n) && Flags(KernelEntry(ctx, i, n)) != 1 && n != STACK_PAGE
  {
    if InRegion(i - 1, n) {
      EntryFields(Frame(ctx, i - 1) + (n - First(i - 1)), Perm(i - 1));
    } else {
      KernelPage(ctx, i - 1, n);
    }
  }

  lemma SomeRegion(i: nat, n: nat)
    requires i <= REGION_COUNT && InRegions(i, n)
    ensures exists j: nat :: j < i && InRegion(j, n)
  {
    if !InRegion(i - 1, n) {
      SomeRegion(i - 1, n);
    }
  }

  /** PTE_W | PTE_R | PTE_U. */
  const HEAP_PERM: nat := 22

  /** The map gained exactly the k pages from `first`, all of them new. */
  ghost predicate Extended(mem0: Memory, mem: Memory, root: nat, first: nat, k: nat) {
    forall n: nat :: n < PAGE_COUNT ==>
      if first <= n < first + k
      then Xlate(mem0, root, n) == 0 && Xlate(mem, root, n) != 0 && Flags(Xlate(mem, root, n)) == HEAP_PERM + 1
      else Xlate(mem, root, n) == Xlate(mem0, root, n)
  }

  lemma HeapEntry(f: nat)
    ensures var e := Entry(f, HEAP_PERM); e != 0 && HasRWX(e) && Ppn(e) == f && Flags(e) == HEAP_PERM + 1
  {
    EntryFields(f, HEAP_PERM);
    assert Flags(f * 1024 + 23) == 23;
  }

  /** The map after the page pg got frame f. */
  ghost predicate GotPage(root: nat, mem: Memory, mem': Memory, pg: nat, f: nat) {
    forall n: nat :: n < PAGE_COUNT ==>
      Xlate(mem', root, n) == if n == pg then Entry(f, HEAP_PERM) else Xlate(mem, root, n)
  }

  /** A fresh frame for a vacant page keeps the space in order. */
  lemma GrowRound(root: nat, pg: nat, mem: Memory, free: set<nat>, own: Owners, mem': Memory, free': set<nat>,
                  own': Owners, f: nat, lo: nat, hi: nat)
    requires UserOk(root, mem, free, own, lo, hi) && pg < STACK_PAGE
    requires f in free && lo <= f < hi && f !in own && free' <= free - {f} && own'.Keys <= own.Keys + (free - {f})
    requires GotPage(root, mem, mem', pg, f)
    ensures UserOk(root, mem', free', own', lo, hi)
  {
    GrowBacks(root, pg, mem, mem', f);
    GrowFrames(root, pg, mem, free, own, mem', free', own', f, lo, hi);
    GrowNoBare(root, pg, mem, mem', f);
  }

  lemma GrowNoBare(root: nat, pg: nat, mem: Memory, mem': Memory, f: nat)
    requires GotPage(root, mem, mem', pg, f) && NoBare(mem, root)
    ensures NoBare(mem', root)
  {
    HeapEntry(f);
    hide Xlate;
    hide Entry;
    hide Flags;
  }

  lemma GrowFrames(root: nat, pg: nat, mem: Memory, free: set<nat>, own: Owners, mem': Memory,
                   free': set<nat>, own': Owners, f: nat, lo: nat, hi: nat)
    requires UserOk(root, mem, free, own, lo, hi)
    requires f in free && lo <= f < hi && f !in own && free' <= free - {f} && own'.Keys <= own.Keys + (free - {f})
    requires forall n: nat, g: nat :: UserBacks(mem', root, TOP, n, g) ==>
                if n == pg then g == f else UserBacks(mem, root, TOP, n, g)
    ensures UserNoTables(mem', root, TOP, own') && UserDistinct(mem', root, TOP, free')
    ensures forall n: nat, g: nat :: UserBacks(mem', root, TOP, n, g) && n <= STACK_PAGE ==> lo <= g < hi
  {
    hide UserBacks;
    hide NoBare;
  }

  lemma GrowBacks(root: nat, pg: nat, mem: Memory, mem': Memory, f: nat)
    requires pg < STACK_PAGE && GotPage(root, mem, mem', pg, f)
    ensures forall n: nat, g: nat :: UserBacks(mem', root, TOP, n, g) ==>
              if n == pg then g == f else UserBacks(mem, root, TOP, n, g)
  {
    HeapEntry(f);
    assert forall n: nat :: InUser(TOP, n) ==> n < PAGE_COUNT;
    hide InUser;
    hide Xlate;
    hide Entry;
  }

  // ------------------------------------------------------------------- one page

  ghost predicate SameTables(mem: Memory, mem': Memory, root: nat) {
    forall p: Path :: Bounded(p) ==> At(mem', root, p) == At(mem, root, p)
  }

  /** A range of one page costs its missing tables. */
  lemma OnePageCost(mem: Memory, root: nat, pg: nat)
    ensures TableNeed(mem, root, pg, 1) == Missing(mem, root, pg, 0)
  {
    assert TableNeed(mem, root, pg, 1) == TableNeed(mem, root, pg, 0) + NewTables(mem, root, pg, pg);
  }

  lemma OnePageReached(mem: Memory, mem1: Memory, free1: set<nat>, mem2: Memory, free2: set<nat>, root: nat, pg: nat)
    requires SameTables(mem, mem1, root) && Afforded(root, mem1, free1, mem2, free2, pg, 1) && pg < PAGE_COUNT
    ensures Reached(mem, free1, mem2, free2, root, pg, 0)
  {
    OnePageCost(mem1, root, pg);
    forall p: Path | Bounded(p)
      ensures OnTheWay(pg, 1, p) <==> p == Mid(I2(pg)) || p == LowOf(pg)
    {
      WayMore(pg, 0, p);
    }
    hide OnTheWay;
    hide At;
    hide TableNeed;
  }

  /** The page is mapped, or memory ran out on it: the tree before shows which. */
  lemma OnePageStops(mem: Memory, mem1: Memory, root: nat, room: nat, pg: nat)
    requires SameMap(mem, mem1, root) && SameTables(mem, mem1, root) && StopsThere(root, mem1, room, pg, 0)
    requires pg < STACK_PAGE
    ensures Xlate(mem, root, pg) != 0 || room < Missing(mem, root, pg, 0)
  {
    OnePageCost(mem1, root, pg);
    hide At;
    hide Xlate;
    hide TableNeed;
  }

  /** Taking a free page and writing it touches no table. */
  lemma TakePage(root: nat, mem: Memory, free: set<nat>, own: Owners, lo: nat, hi: nat, f: nat)
    requires Sound(root, mem, free, own, lo, hi) && f in free
    ensures f in mem && f !in own && lo <= f < hi
    ensures var mem' := Taken(mem, f);
            Sound(root, mem', free - {f}, own, lo, hi) && SameMap(mem, mem', root) && SameTables(mem, mem', root)
  {
    var mem' := Taken(mem, f);
    assert Pages(mem');
    OtherTreeSame(mem, mem', root, own);
    hide Tree;
    hide SameMap;
    assert Pointers(mem', own);
  }

  lemma PageAdded(root: nat, mem: Memory, mem1: Memory, free1: set<nat>, own1: Owners, mem2: Memory, free2: set<nat>,
                  own2: Owners, pg: nat, f: nat)
    requires SameMap(mem, mem1, root) && f < 0x1000_0000_0000
    requires Added(root, mem1, free1, own1, mem2, free2, own2, pg, 1, f, HEAP_PERM)
    ensures GotPage(root, mem, mem2, pg, f) && free2 <= free1 && own2.Keys <= own1.Keys + free1
    ensures Extended(mem, mem2, root, pg, 1) && (pg < PAGE_COUNT ==> Xlate(mem, root, pg) == 0)
  {
    HeapEntry(f);
    assert FrameAt(f, 0) == f;
    hide FrameAt;
    hide Entry;
    hide Xlate;
    hide Flags;
  }

  lemma NothingAdded(root: nat, mem: Memory, mem1: Memory, free1: set<nat>, own1: Owners, mem2: Memory, free2: set<nat>,
                     own2: Owners, pg: nat, f: nat)
    requires SameMap(mem, mem1, root) && Added(root, mem1, free1, own1, mem2, free2, own2, pg, 0, f, HEAP_PERM)
    requires Stopped(root, mem1, free2, pg) && pg < STACK_PAGE
    ensures SameMap(mem, mem2, root) && free2 <= free1 && own2.Keys <= own1.Keys + free1
    ensures Xlate(mem, root, pg) == 0 ==> free2 == {}
  {
    hide Xlate;
  }

  lemma GiveBack(root: nat, mem: Memory, free: set<nat>, own: Owners, lo: nat, hi: nat, f: nat)
    requires Sound(root, mem, free, own, lo, hi) && f !in own && lo <= f < hi
    ensures Sound(root, mem, free + {f}, own, lo, hi)
  {
    hide Tree;
    hide Pointers;
  }

  /** Pages in use, other than tables, keep their contents: only free pages were taken. */
  ghost predicate Untouched(mem: Memory, free: set<nat>, own: Owners, mem': Memory, free': set<nat>, own': Owners) {
    && mem'.Keys == mem.Keys && free' <= free && own'.Keys <= own.Keys + free
    && (forall g: nat :: g in mem && g !in free && g !in own ==> mem'[g] == mem[g])
  }

  lemma UntouchedSame(mem: Memory, free: set<nat>, own: Owners)
    ensures Untouched(mem, free, own, mem, free, own)
  {
  }

  lemma UntouchedMore(mem: Memory, free: set<nat>, own: Owners, mem1: Memory, free1: set<nat>, own1: Owners,
                      mem2: Memory, free2: set<nat>, own2: Owners)
    requires Untouched(mem, free, own, mem1, free1, own1) && Untouched(mem1, free1, own1, mem2, free2, own2)
    ensures Untouched(mem, free, own, mem2, free2, own2)
  {
  }

  /** Frame g belongs to this page alone, neither free nor a table, and is all zero. */
  ghost predicate Blank(mem: Memory, free: set<nat>, own: Owners, g: nat) {
    g in mem && g !in free && g !in own && mem[g] == Zeros()
  }

  /** Each of the k pages from `first` reads as zeros. */
  ghost predicate Blanks(mem: Memory, root: nat, free: set<nat>, own: Owners, first: nat, k: nat) {
    forall n: nat :: first <= n < first + k ==> Blank(mem, free, own, Ppn(Xlate(mem, root, n)))
  }

  lemma BlanksMore(root: nat, mem: Memory, free: set<nat>, own: Owners, mem': Memory, free': set<nat>, own': Owners,
                   first: nat, k: nat, f: nat)
    requires Blanks(mem, root, free, own, first, k) && first + k < PAGE_COUNT
    requires GotPage(root, mem, mem', first + k, f) && Untouched(mem, free, own, mem', free', own')
    requires Blank(mem', free', own', f)
    ensures Blanks(mem', root, free', own', first, k + 1)
  {
    HeapEntry(f);
    hide Xlate;
    hide Entry;
    hide Ppn;
  }

  lemma BlanksSame(root: nat, mem: Memory, free: set<nat>, own: Owners, mem': Memory, free': set<nat>, own': Owners,
                   first: nat, k: nat)
    requires Blanks(mem, root, free, own, first, k) && first + k <= PAGE_COUNT
    requires SameMap(mem, mem', root) && Untouched(mem, free, own, mem', free', own')
    ensures Blanks(mem', root, free', own', first, k)
  {
    hide Xlate;
    hide Ppn;
  }

  lemma BlanksNone(mem: Memory, root: nat, free: set<nat>, own: Owners, first: nat)
    ensures Blanks(mem, root, free, own, first, 0)
  {
  }

  /** What a round does to a space in order. */
  ghost predicate Round(root: nat, mem: Memory, free: set<nat>, own: Owners, mem': Memory, free': set<nat>,
                        own': Owners, lo: nat, hi: nat) {
    UserOk(root, mem, free, own, lo, hi) ==> UserOk(root, mem', free', own', lo, hi)
  }

  /** One round of growproc: a zeroed frame for the next page of the heap.  It succeeds iff the
      page is vacant and the frame and the missing tables can be had. */
  method GrowPage(m: Space, root: nat, a: nat, ghost pg: nat) returns (ok: bool, ghost f: nat)
    requires m.Ok(root) && m.hi < 0x1000_0000_0000 && a == pg * 4096 && pg < STACK_PAGE
    modifies m
    ensures m.Ok(root) && m.again == old(m.again)
    ensures Round(root, old(m.mem), old(m.free), old(m.own), m.mem, m.free, m.own, m.lo, m.hi)
    ensures ok <==> Xlate(old(m.mem), root, pg) == 0 && |old(m.free)| >= 1 + Missing(old(m.mem), root, pg, 0)
    ensures Untouched(old(m.mem), old(m.free), old(m.own), m.mem, m.free, m.own)
    ensures ok ==> Extended(old(m.mem), m.mem, root, pg, 1)
    ensures ok ==> GotPage(root, old(m.mem), m.mem, pg, f) && Blank(m.mem, m.free, m.own, f)
    ensures ok ==> f in old(m.free) && Reached(old(m.mem), old(m.free) - {f}, m.mem, m.free, root, pg, 0)
    ensures !ok ==> SameMap(old(m.mem), m.mem, root) && (Xlate(old(m.mem), root, pg) != 0 || |m.free| <= 1)
  {
    hide *;
    OkParts(m, root);
    GrowConsts(pg);
    f := 0;
    var p := m.Kalloc();
    if p.None? {
      NoPage(root, pg, m.mem, m.free, m.own, m.lo, m.hi);
      OkWhole(m, root);
      return false, 0;
    }
    var frame := p.value;
    f := frame;
    TakePage(root, old(m.mem), old(m.free), m.own, m.lo, m.hi, f);
    m.ZeroPage(frame);
    TakenIs(old(m.mem), f);
    OkWhole(m, root);
    ghost var mem1, free1, own1 := m.mem, m.free, m.own;
    ghost var k;
    ok, k := m.MapPages(root, a, frame * 4096, 4096, HEAP_PERM);
    OkParts(m, root);
    if !ok {
      assert k == 0;
      PageRefused(root, pg, old(m.mem), old(m.free), own1, mem1, m.mem, m.free, m.own, f, m.lo, m.hi);
      m.Kfree(frame);
      OkWhole(m, root);
      return;
    }
    assert k == 1;
    PageGrown(root, a, pg, old(m.mem), old(m.free), own1, mem1, m.mem, m.free, m.own, f, m.lo, m.hi);
  }

  lemma NoPage(root: nat, pg: nat, mem: Memory, free: set<nat>, own: Owners, lo: nat, hi: nat)
    ensures SameMap(mem, mem, root) && Round(root, mem, free, own, mem, free, own, lo, hi)
    ensures Untouched(mem, free, own, mem, free, own)
  {
    hide *;
    UntouchedSame(mem, free, own);
    SameMapSelf(mem, root);
    RoundSame(root, mem, free, own, mem, free, own, lo, hi);
  }

  /** All of a round that ends in mappages. */
  lemma PageRefused(root: nat, pg: nat, mem: Memory, free: set<nat>, own: Owners, mem1: Memory,
                    mem2: Memory, free2: set<nat>, own2: Owners, f: nat, lo: nat, hi: nat)
    requires pg < STACK_PAGE && f in free && lo <= f < hi && f !in own
    requires SameMap(mem, mem1, root) && SameTables(mem, mem1, root) && Sound(root, mem2, free2, own2, lo, hi)
    requires mem1 == Taken(mem, f) && f in mem
    requires Added(root, mem1, free - {f}, own, mem2, free2, own2, pg, 0, f, HEAP_PERM)
    requires Stopped(root, mem1, free2, pg) && StopsThere(root, mem1, |free - {f}|, pg, 0)
    ensures Sound(root, mem2, free2 + {f}, own2, lo, hi) && SameMap(mem, mem2, root) && f !in free2
    ensures Round(root, mem, free, own, mem2, free2 + {f}, own2, lo, hi)
    ensures Untouched(mem, free, own, mem2, free2 + {f}, own2)
    ensures Xlate(mem, root, pg) != 0 || |free2 + {f}| <= 1
    ensures Xlate(mem, root, pg) != 0 || |free| < 1 + Missing(mem, root, pg, 0)
  {
    hide *;
    NothingAdded(root, mem, mem1, free - {f}, own, mem2, free2, own2, pg, f);
    TakenUntouched(root, pg, 0, mem, free, own, mem2, free2, own2, f);
    GiveBack(root, mem2, free2, own2, lo, hi, f);
    OnePageStops(mem, mem1, root, |free - {f}|, pg);
    RoundSame(root, mem, free, own, mem2, free2 + {f}, own2, lo, hi);
  }

  /** All of a successful round. */
  lemma PageGrown(root: nat, a: nat, pg: nat, mem: Memory, free: set<nat>, own: Owners, mem1: Memory,
                  mem2: Memory, free2: set<nat>, own2: Owners, f: nat, lo: nat, hi: nat)
    requires a == pg * 4096 && pg < STACK_PAGE
    requires f in free && lo <= f < hi && f !in own && f < 0x1000_0000_0000
    requires SameMap(mem, mem1, root) && SameTables(mem, mem1, root) && mem1 == Taken(mem, f) && f in mem
    requires Added(root, mem1, free - {f}, own, mem2, free2, own2, pg, 1, f, HEAP_PERM)
    requires Afforded(root, mem1, free - {f}, mem2, free2, pg, 1)
    ensures Round(root, mem, free, own, mem2, free2, own2, lo, hi)
    ensures Extended(mem, mem2, root, pg, 1) && Xlate(mem, root, pg) == 0
    ensures Untouched(mem, free, own, mem2, free2, own2)
    ensures GotPage(root, mem, mem2, pg, f) && Blank(mem2, free2, own2, f)
    ensures Reached(mem, free - {f}, mem2, free2, root, pg, 0) && |free| >= 1 + Missing(mem, root, pg, 0)
  {
    hide *;
    GrowConsts(pg);
    OnePageReached(mem, mem1, free - {f}, mem2, free2, root, pg);
    ReachedAll(mem, free - {f}, mem2, free2, root, pg);
    PageAdded(root, mem, mem1, free - {f}, own, mem2, free2, own2, pg, f);
    TakenUntouched(root, pg, 1, mem, free, own, mem2, free2, own2, f);
    RoundGot(root, pg, mem, free, own, mem2, free2, own2, f, lo, hi);
  }

  /** The memory after page f was allocated and zeroed. */
  ghost function Taken(mem: Memory, f: nat): Memory { mem[f := Junk()][f := Zeros()] }

  lemma TakenIs(mem: Memory, f: nat)
    ensures Taken(mem, f) == mem[f := Junk()][f := Zeros()]
  {
  }

  lemma TakenUntouched(root: nat, pg: nat, k: nat, mem: Memory, free: set<nat>, own: Owners,
                       mem2: Memory, free2: set<nat>, own2: Owners, f: nat)
    requires f in free && f in mem && f !in own
    requires Added(root, Taken(mem, f), free - {f}, own, mem2, free2, own2, pg, k, f, HEAP_PERM)
    ensures Untouched(mem, free, own, mem2, free2, own2) && Untouched(mem, free, own, mem2, free2 + {f}, own2)
    ensures Blank(mem2, free2, own2, f)
  {
    hide Mapped;
    hide Vacant;
  }

  lemma RoundGot(root: nat, pg: nat, mem: Memory, free: set<nat>, own: Owners, mem': Memory, free': set<nat>,
                 own': Owners, f: nat, lo: nat, hi: nat)
    requires pg < STACK_PAGE && GotPage(root, mem, mem', pg, f)
    requires f in free && lo <= f < hi && f !in own && free' <= free - {f} && own'.Keys <= own.Keys + (free - {f})
    ensures Round(root, mem, free, own, mem', free', own', lo, hi)
  {
    hide UserOk;
    hide GotPage;
    if UserOk(root, mem, free, own, lo, hi) {
      GrowRound(root, pg, mem, free, own, mem', free', own', f, lo, hi);
    }
  }

  lemma RoundSame(root: nat, mem: Memory, free: set<nat>, own: Owners, mem': Memory, free': set<nat>,
                  own': Owners, lo: nat, hi: nat)
    requires SameMap(mem, mem', root) && free' <= free && own'.Keys <= own.Keys + free
    ensures Round(root, mem, free, own, mem', free', own', lo, hi)
  {
    hide UserOk;
    hide SameMap;
    if UserOk(root, mem, free, own, lo, hi) {
      SameUser(root, mem, free, own, mem', free', own', lo, hi);
    }
  }

  lemma OkParts(m: Space, root: nat)
    requires m.Ok(root)
    ensures Sound(root, m.mem, m.free, m.own, m.lo, m.hi) && m.PoolOk()
  {
  }

  lemma OkWhole(m: Space, root: nat)
    requires Sound(root, m.mem, m.free, m.own, m.lo, m.hi)
    ensures m.Ok(root)
  {
  }

  lemma SameMapSelf(mem: Memory, root: nat)
    ensures SameMap(mem, mem, root)
  {
  }

  lemma GrowConsts(pg: nat)
    requires pg < STACK_PAGE
    ensures pg * 4096 < WORD && pg * 4096 / 4096 == pg && LastPage(pg * 4096, 4096) == pg && HEAP_PERM < 1024
    ensures pg < PAGE_COUNT
    ensures 0x1000_0000_0000 * 4096 <= WORD && 4096 < WORD
  {
  }

  lemma SameUser(root: nat, mem: Memory, free: set<nat>, own: Owners, mem': Memory, free': set<nat>,
                 own': Owners, lo: nat, hi: nat)
    requires UserOk(root, mem, free, own, lo, hi) && SameMap(mem, mem', root)
    requires free' <= free && own'.Keys <= own.Keys + free
    ensures UserOk(root, mem', free', own', lo, hi)
  {
    assert forall n: nat :: InUser(TOP, n) ==> n < PAGE_COUNT;
    hide Xlate;
    hide InUser;
    hide Flags;
    assert forall n: nat, f: nat :: UserBacks(mem', root, TOP, n, f) ==> UserBacks(mem, root, TOP, n, f);
    assert NoBare(mem', root);
    hide UserBacks;
    hide NoBare;
  }

  lemma ExtendedMore(mem0: Memory, mem1: Memory, mem: Memory, root: nat, first: nat, k: nat)
    requires Extended(mem0, mem1, root, first, k) && Extended(mem1, mem, root, first + k, 1)
    ensures Extended(mem0, mem, root, first, k + 1)
  {
    hide Xlate;
    hide Flags;
  }

  lemma ExtendedSame(mem0: Memory, mem1: Memory, mem: Memory, root: nat, first: nat, k: nat)
    requires Extended(mem0, mem1, root, first, k) && SameMap(mem1, mem, root)
    ensures Extended(mem0, mem, root, first, k)
  {
    hide Xlate;
    hide Flags;
  }

  lemma ExtendedNone(mem: Memory, root: nat, first: nat)
    ensures Extended(mem, mem, root, first, 0)
  {
  }

  // ------------------------------------------------------------------- growproc

  /** The free pages it takes to grow by k pages: one for each, and the missing tables. */
  ghost function GrowNeed(mem: Memory, root: nat, first: nat, k: nat): nat {
    k + TableNeed(mem, root, first, k)
  }

  /** The size after n bytes more, in 64-bit arithmetic. */
  function Resized(sz: nat, n: int): nat { (sz + n) % WORD }

  /** How many pages growing by n bytes adds. */
  function GrowPages(sz: nat, n: int): nat {
    if n <= 0 then 0 else More(UpPage(sz), Resized(sz, n))
  }

  /** Growing by n bytes is within bounds, all pages to add are vacant, and they can be paid for. */
  ghost predicate CanGrow(mem: Memory, root: nat, room: nat, sz: nat, n: int) {
    n <= 0 || (&& Resized(sz, n) < HEAP_END
               && Vacant(mem, root, UpPage(sz), GrowPages(sz, n))
               && room >= GrowNeed(mem, root, UpPage(sz), GrowPages(sz, n)))
  }

  /** Exactly k pages can be added: the next one is mapped already or cannot be paid for. */
  ghost predicate GrowsBy(mem: Memory, root: nat, room: nat, first: nat, k: nat) {
    && Vacant(mem, root, first, k)
    && GrowNeed(mem, root, first, k) <= room
    && (Xlate(mem, root, first + k) != 0 || room < GrowNeed(mem, root, first, k + 1))
  }

  /** A call with argument n and `room` free pages: what it makes of the map and the size. */
  ghost predicate Called(root: nat, mem: Memory, room: nat, sz: nat, mem': Memory, sz': nat, n: int, k: nat) {
    && Extended(mem, mem', root, UpPage(sz), k)
    && (if CanGrow(mem, root, room, sz, n) then sz' == Resized(sz, n) && k == GrowPages(sz, n)
        else && sz' == sz
             && if Resized(sz, n) >= HEAP_END then k == 0
                else k < GrowPages(sz, n) && GrowsBy(mem, root, room, UpPage(sz), k))
  }

  lemma {:induction false} GrowNeedMono(mem: Memory, root: nat, first: nat, a: nat, b: nat)
    requires a <= b
    ensures GrowNeed(mem, root, first, a) + (b - a) <= GrowNeed(mem, root, first, b)
    decreases b
  {
    hide NewTables;
    if a < b {
      GrowNeedMono(mem, root, first, a, b - 1);
    }
  }

  /** A call page by page: what was mapped keeps its entry; what it adds begins at or behind the
      old size and below the new one and the stack page, with V, R, W and U and no X; and a call that
      succeeds with n > 0 leaves every page mapped that begins between the two sizes. */
  lemma CalledPages(root: nat, mem: Memory, room: nat, sz: nat, mem': Memory, sz': nat, n: int, k: nat)
    requires Called(root, mem, room, sz, mem', sz', n, k) && sz < WORD && -0x8000_0000 <= n < 0x8000_0000
    ensures forall p: nat :: p < PAGE_COUNT && Xlate(mem, root, p) != 0 ==> Xlate(mem', root, p) == Xlate(mem, root, p)
    ensures forall p: nat :: p < PAGE_COUNT && Xlate(mem, root, p) == 0 && Xlate(mem', root, p) != 0 ==>
              && Xlate(mem', root, p) % 1024 == 23
              && (sz <= 4096 * p || sz > 0xFFFF_FFFF_FFFF_F000)
              && 4096 * p < (sz + n) % 0x1_0000_0000_0000_0000 < 0x3f_ffff_d000
    ensures sz' == sz || sz' == (sz + n) % 0x1_0000_0000_0000_0000
    ensures n > 0 && sz' != sz ==> forall p: nat :: sz <= 4096 * p < sz' ==> Xlate(mem', root, p) != 0
  {
    hide Xlate;
    hide Vacant;
    hide GrowNeed;
    var s, first := Resized(sz, n), UpPage(sz);
    assert k <= GrowPages(sz, n) && (Resized(sz, n) >= HEAP_END && sz' == sz ==> k == 0 || n <= 0);
    hide CanGrow;
    forall p: nat | first <= p < first + k
      ensures (sz <= 4096 * p || sz > 0xFFFF_FFFF_FFFF_F000) && 4096 * p < s < 0x3f_ffff_d000
    {
      UpPageLeast(sz, p);
      UpPageLeast(s, p);
    }
    if n > 0 && sz' != sz {
      forall p: nat | sz <= 4096 * p < sz'
        ensures first <= p < first + k && p < PAGE_COUNT
      {
        UpPageLeast(sz, p);
        UpPageLeast(s, p);
      }
    }
    hide UpPage;
  }

  /** Grows the heap by n bytes.  It succeeds iff the bound, the map and the free pages, as they
      are before the call, allow it.  Otherwise the size stays, but as many pages as could be
      added stay mapped.  A space in order stays in order. */
  method GrowProc(m: Space, root: nat, sz: nat, n: int) returns (r: int, sz': nat, ghost k: nat)
    requires m.Ok(root) && m.hi < 0x1000_0000_0000 && sz < WORD && -0x8000_0000 <= n < 0x8000_0000
    modifies m
    ensures m.Ok(root) && m.again == old(m.again) && Extended(old(m.mem), m.mem, root, UpPage(sz), k)
    ensures Untouched(old(m.mem), old(m.free), old(m.own), m.mem, m.free, m.own)
    ensures Blanks(m.mem, root, m.free, m.own, UpPage(sz), k)
    ensures r == if CanGrow(old(m.mem), root, |old(m.free)|, sz, n) then 0 else -1
    ensures Called(root, old(m.mem), |old(m.free)|, sz, m.mem, sz', n, k)
    ensures sz' == if r == 0 then (sz + n) % 0x1_0000_0000_0000_0000 else sz
    ensures forall p: nat :: p < PAGE_COUNT && old(Xlate(m.mem, root, p)) != 0 ==>
                Xlate(m.mem, root, p) == old(Xlate(m.mem, root, p))
    ensures forall p: nat :: p < PAGE_COUNT && old(Xlate(m.mem, root, p)) == 0 && Xlate(m.mem, root, p) != 0 ==>
                && Xlate(m.mem, root, p) % 1024 == 23
                && (sz <= 4096 * p || sz > 0xFFFF_FFFF_FFFF_F000)
                && 4096 * p < (sz + n) % 0x1_0000_0000_0000_0000 < 0x3f_ffff_d000
    ensures n > 0 && r == 0 ==> forall p: nat :: sz <= 4096 * p < sz' ==> Xlate(m.mem, root, p) != 0
    ensures n <= 0 ==> m.mem == old(m.mem) && m.free == old(m.free) && m.own == old(m.own)
    ensures Round(root, old(m.mem), old(m.free), old(m.own), m.mem, m.free, m.own, m.lo, m.hi)
  {
    k := 0;
    ExtendedNone(m.mem, root, UpPage(sz));
    SameMapSelf(m.mem, root);
    RoundSame(root, m.mem, m.free, m.own, m.mem, m.free, m.own, m.lo, m.hi);
    UntouchedSame(m.mem, m.free, m.own);
    BlanksNone(m.mem, root, m.free, m.own, UpPage(sz));
    hide *;
    GrowDecided(m.mem, root, |m.free|, sz, n);
    sz' := (sz + n) % WORD;
    if n > 0 {
      if sz' >= HEAP_END {
        CalledShown(root, old(m.mem), |old(m.free)|, sz, m.mem, sz, n, 0);
        CalledPages(root, old(m.mem), |old(m.free)|, sz, m.mem, sz, n, 0);
        return -1, sz, 0;
      }
      var ok;
      ok, k := GrowLoop(m, root, sz, sz');
      if !ok {
        CalledShown(root, old(m.mem), |old(m.free)|, sz, m.mem, sz, n, k);
        CalledPages(root, old(m.mem), |old(m.free)|, sz, m.mem, sz, n, k);
        return -1, sz, k;
      }
    }
    CalledShown(root, old(m.mem), |old(m.free)|, sz, m.mem, sz', n, k);
    CalledPages(root, old(m.mem), |old(m.free)|, sz, m.mem, sz', n, k);
    return 0, sz', k;
  }

  /** What decides about a call. */
  lemma GrowDecided(mem: Memory, root: nat, room: nat, sz: nat, n: int)
    requires sz < WORD && -0x8000_0000 <= n < 0x8000_0000
    ensures Resized(sz, n) == (sz + n) % WORD < WORD
    ensures GrowPages(sz, n) == if n <= 0 then 0 else More(UpPage(sz), (sz + n) % WORD)
    ensures CanGrow(mem, root, room, sz, n)
            <==> n <= 0 || (&& (sz + n) % WORD < HEAP_END
                            && Vacant(mem, root, UpPage(sz), More(UpPage(sz), (sz + n) % WORD))
                            && room >= GrowNeed(mem, root, UpPage(sz), More(UpPage(sz), (sz + n) % WORD)))
  {
    hide Vacant;
    hide GrowNeed;
    hide More;
    hide UpPage;
  }

  lemma CalledShown(root: nat, mem: Memory, room: nat, sz: nat, mem': Memory, sz': nat, n: int, k: nat)
    requires Extended(mem, mem', root, UpPage(sz), k)
    requires CanGrow(mem, root, room, sz, n) ==> sz' == Resized(sz, n) && k == GrowPages(sz, n)
    requires !CanGrow(mem, root, room, sz, n) ==>
                sz' == sz && if Resized(sz, n) >= HEAP_END then k == 0
                             else k < GrowPages(sz, n) && GrowsBy(mem, root, room, UpPage(sz), k)
    ensures Called(root, mem, room, sz, mem', sz', n, k)
  {
  }

  /** The tables and frames for k pages were paid for. */
  ghost predicate GrownBy(root: nat, mem0: Memory, room: nat, mem: Memory, free: set<nat>, first: nat, k: nat) {
    Tabled(mem0, mem, root, first, k) && |free| + GrowNeed(mem0, root, first, k) == room
  }

  lemma GrownByMore(root: nat, mem0: Memory, room: nat, mem1: Memory, free1: set<nat>, mem: Memory, free: set<nat>,
                    first: nat, k: nat, f: nat)
    requires GrownBy(root, mem0, room, mem1, free1, first, k) && first + k < PAGE_COUNT
    requires f in free1 && Reached(mem1, free1 - {f}, mem, free, root, first + k, 0)
    ensures GrownBy(root, mem0, room, mem, free, first, k + 1)
  {
    TabledMore(mem0, free1 - {f}, mem1, mem, free, root, first, k);
    hide Tabled;
    hide NewTables;
    hide Reached;
  }

  /** The page is mapped, or the next page cannot be paid for. */
  lemma GrownByStops(root: nat, mem0: Memory, room: nat, mem: Memory, free: set<nat>, first: nat, k: nat)
    requires GrownBy(root, mem0, room, mem, free, first, k) && Extended(mem0, mem, root, first, k)
    requires first + k < STACK_PAGE
    requires Xlate(mem, root, first + k) != 0 || |free| < 1 + Missing(mem, root, first + k, 0)
    ensures GrowsBy(mem0, root, room, first, k)
  {
    NextCost(mem0, mem, root, first, k);
    ExtendedVacant(mem0, mem, root, first, k);
    assert Xlate(mem, root, first + k) == Xlate(mem0, root, first + k);
    hide Extended;
    hide Vacant;
    hide Xlate;
    hide Tabled;
    hide NewTables;
    hide Missing;
  }

  lemma ExtendedVacant(mem0: Memory, mem: Memory, root: nat, first: nat, k: nat)
    requires Extended(mem0, mem, root, first, k) && first + k <= STACK_PAGE
    ensures Vacant(mem0, root, first, k)
  {
    hide Xlate;
    hide Flags;
  }

  /** How many pages lie between page `first` and the size `end`. */
  function More(first: nat, end: nat): nat {
    if UpPage(end) <= first then 0 else UpPage(end) - first
  }

  lemma GrowBounds(first: nat, end: nat, k: nat)
    requires end < HEAP_END
    ensures (first + k) * 4096 < end ==> first + k < STACK_PAGE < PAGE_COUNT && k < More(first, end)
    ensures end <= (first + k) * 4096 && (k > 0 ==> (first + k - 1) * 4096 < end) ==> k == More(first, end)
    ensures k > 0 && (first + k - 1) * 4096 < end ==> first + k <= STACK_PAGE
    ensures UpPage(first * 4096) == first || first >= STACK_PAGE
  {
  }

  lemma RoundMore(root: nat, mem: Memory, free: set<nat>, own: Owners, mem1: Memory, free1: set<nat>,
                  own1: Owners, mem2: Memory, free2: set<nat>, own2: Owners, lo: nat, hi: nat)
    requires Round(root, mem, free, own, mem1, free1, own1, lo, hi)
    requires Round(root, mem1, free1, own1, mem2, free2, own2, lo, hi)
    ensures Round(root, mem, free, own, mem2, free2, own2, lo, hi)
  {
    hide UserOk;
  }

  /** Where the loop of growproc is after k pages. */
  ghost predicate Looped(root: nat, mem0: Memory, free0: set<nat>, own0: Owners, mem: Memory, free: set<nat>,
                         own: Owners, first: nat, k: nat, lo: nat, hi: nat) {
    && Extended(mem0, mem, root, first, k) && GrownBy(root, mem0, |free0|, mem, free, first, k)
    && Round(root, mem0, free0, own0, mem, free, own, lo, hi)
    && Untouched(mem0, free0, own0, mem, free, own) && Blanks(mem, root, free, own, first, k)
  }

  lemma LoopStarts(root: nat, mem: Memory, free: set<nat>, own: Owners, first: nat, lo: nat, hi: nat)
    ensures Looped(root, mem, free, own, mem, free, own, first, 0, lo, hi)
  {
    hide *;
    ExtendedNone(mem, root, first);
    GrownByNone(root, mem, free, first);
    NoPage(root, first, mem, free, own, lo, hi);
    BlanksNone(mem, root, free, own, first);
    LoopWhole(root, mem, free, own, mem, free, own, first, 0, lo, hi);
  }

  lemma LoopWhole(root: nat, mem0: Memory, free0: set<nat>, own0: Owners, mem: Memory, free: set<nat>,
                  own: Owners, first: nat, k: nat, lo: nat, hi: nat)
    requires Extended(mem0, mem, root, first, k) && GrownBy(root, mem0, |free0|, mem, free, first, k)
    requires Round(root, mem0, free0, own0, mem, free, own, lo, hi)
    requires Untouched(mem0, free0, own0, mem, free, own) && Blanks(mem, root, free, own, first, k)
    ensures Looped(root, mem0, free0, own0, mem, free, own, first, k, lo, hi)
  {
  }

  lemma LoopParts(root: nat, mem0: Memory, free0: set<nat>, own0: Owners, mem: Memory, free: set<nat>,
                  own: Owners, first: nat, k: nat, lo: nat, hi: nat)
    requires Looped(root, mem0, free0, own0, mem, free, own, first, k, lo, hi)
    ensures Extended(mem0, mem, root, first, k) && GrownBy(root, mem0, |free0|, mem, free, first, k)
    ensures Round(root, mem0, free0, own0, mem, free, own, lo, hi)
    ensures Untouched(mem0, free0, own0, mem, free, own) && Blanks(mem, root, free, own, first, k)
  {
  }

  /** One more page. */
  lemma LoopGoesOn(root: nat, mem0: Memory, free0: set<nat>, own0: Owners, mem1: Memory, free1: set<nat>, own1: Owners,
                   mem: Memory, free: set<nat>, own: Owners, first: nat, k: nat, f: nat, lo: nat, hi: nat)
    requires Looped(root, mem0, free0, own0, mem1, free1, own1, first, k, lo, hi) && first + k < PAGE_COUNT
    requires Round(root, mem1, free1, own1, mem, free, own, lo, hi) && Untouched(mem1, free1, own1, mem, free, own)
    requires Extended(mem1, mem, root, first + k, 1) && GotPage(root, mem1, mem, first + k, f)
    requires Blank(mem, free, own, f) && f in free1 && Reached(mem1, free1 - {f}, mem, free, root, first + k, 0)
    ensures Looped(root, mem0, free0, own0, mem, free, own, first, k + 1, lo, hi)
  {
    hide *;
    LoopParts(root, mem0, free0, own0, mem1, free1, own1, first, k, lo, hi);
    RoundMore(root, mem0, free0, own0, mem1, free1, own1, mem, free, own, lo, hi);
    UntouchedMore(mem0, free0, own0, mem1, free1, own1, mem, free, own);
    ExtendedMore(mem0, mem1, mem, root, first, k);
    BlanksMore(root, mem1, free1, own1, mem, free, own, first, k, f);
    GrownByMore(root, mem0, |free0|, mem1, free1, mem, free, first, k, f);
    LoopWhole(root, mem0, free0, own0, mem, free, own, first, k + 1, lo, hi);
  }

  /** No more pages: the next one is mapped or cannot be paid for. */
  lemma LoopEnds(root: nat, mem0: Memory, free0: set<nat>, own0: Owners, mem1: Memory, free1: set<nat>, own1: Owners,
                 mem: Memory, free: set<nat>, own: Owners, first: nat, k: nat, lo: nat, hi: nat)
    requires Looped(root, mem0, free0, own0, mem1, free1, own1, first, k, lo, hi) && first + k < STACK_PAGE
    requires Round(root, mem1, free1, own1, mem, free, own, lo, hi) && Untouched(mem1, free1, own1, mem, free, own)
    requires SameMap(mem1, mem, root)
    requires Xlate(mem1, root, first + k) != 0 || |free1| < 1 + Missing(mem1, root, first + k, 0)
    ensures Extended(mem0, mem, root, first, k) && GrowsBy(mem0, root, |free0|, first, k)
    ensures Round(root, mem0, free0, own0, mem, free, own, lo, hi)
    ensures Untouched(mem0, free0, own0, mem, free, own) && Blanks(mem, root, free, own, first, k)
  {
    hide *;
    LoopParts(root, mem0, free0, own0, mem1, free1, own1, first, k, lo, hi);
    StackBound();
    RoundMore(root, mem0, free0, own0, mem1, free1, own1, mem, free, own, lo, hi);
    UntouchedMore(mem0, free0, own0, mem1, free1, own1, mem, free, own);
    ExtendedSame(mem0, mem1, mem, root, first, k);
    BlanksSame(root, mem1, free1, own1, mem, free, own, first, k);
    GrownByStops(root, mem0, |free0|, mem1, free1, first, k);
  }

  lemma StackBound()
    ensures STACK_PAGE < PAGE_COUNT
  {
  }

  /** The loop of growproc. */
  method GrowLoop(m: Space, root: nat, sz: nat, end: nat) returns (ok: bool, ghost k: nat)
    requires m.Ok(root) && m.hi < 0x1000_0000_0000 && sz < WORD && end < HEAP_END
    modifies m
    ensures m.Ok(root) && m.again == old(m.again) && Extended(old(m.mem), m.mem, root, UpPage(sz), k)
    ensures Untouched(old(m.mem), old(m.free), old(m.own), m.mem, m.free, m.own)
    ensures Blanks(m.mem, root, m.free, m.own, UpPage(sz), k)
    ensures Round(root, old(m.mem), old(m.free), old(m.own), m.mem, m.free, m.own, m.lo, m.hi)
    ensures ok <==> && Vacant(old(m.mem), root, UpPage(sz), More(UpPage(sz), end))
                    && |old(m.free)| >= GrowNeed(old(m.mem), root, UpPage(sz), More(UpPage(sz), end))
    ensures ok ==> k == More(UpPage(sz), end)
    ensures !ok ==> k < More(UpPage(sz), end) && GrowsBy(old(m.mem), root, |old(m.free)|, UpPage(sz), k)
  {
    hide *;
    k := 0;
    ghost var first := UpPage(sz);
    ghost var mem0, free0, own0 := m.mem, m.free, m.own;
    GrowBounds(first, end, k);
    LoopStarts(root, mem0, free0, own0, first, m.lo, m.hi);
    var a := UpPage(sz) * 4096;
    while a < end
      invariant a == (first + k) * 4096 && (k > 0 ==> (first + k - 1) * 4096 < end)
      invariant m.Ok(root) && m.again == old(m.again)
      invariant Looped(root, mem0, free0, own0, m.mem, m.free, m.own, first, k, m.lo, m.hi)
    {
      GrowBounds(first, end, k);
      ghost var mem1, free1, own1 := m.mem, m.free, m.own;
      ghost var f;
      ok, f := GrowPage(m, root, a, first + k);
      if !ok {
        LoopEnds(root, mem0, free0, own0, mem1, free1, own1, m.mem, m.free, m.own, first, k, m.lo, m.hi);
        GrowsLess(mem0, root, |free0|, first, k, More(first, end));
        return;
      }
      LoopGoesOn(root, mem0, free0, own0, mem1, free1, own1, m.mem, m.free, m.own, first, k, f, m.lo, m.hi);
      k := k + 1;
      a := a + 4096;
    }
    GrowBounds(first, end, k);
    LoopParts(root, mem0, free0, own0, m.mem, m.free, m.own, first, k, m.lo, m.hi);
    GrownByAll(root, mem0, |free0|, m.mem, m.free, first, k);
    return true, k;
  }

  lemma GrownByNone(root: nat, mem: Memory, free: set<nat>, first: nat)
    ensures GrownBy(root, mem, |free|, mem, free, first, 0)
  {
    TabledNone(mem, root, first);
  }

  lemma GrownByAll(root: nat, mem0: Memory, room: nat, mem: Memory, free: set<nat>, first: nat, k: nat)
    requires GrownBy(root, mem0, room, mem, free, first, k) && Extended(mem0, mem, root, first, k)
    requires k > 0 ==> first + k <= STACK_PAGE
    ensures room >= GrowNeed(mem0, root, first, k) && Vacant(mem0, root, first, k)
  {
    if k > 0 {
      ExtendedVacant(mem0, mem, root, first, k);
    }
    hide Extended;
    hide Tabled;
  }

  /** Stopping early means that not all could be added. */
  lemma GrowsLess(mem: Memory, root: nat, room: nat, first: nat, k: nat, want: nat)
    requires GrowsBy(mem, root, room, first, k) && k < want
    ensures !Vacant(mem, root, first, want) || room < GrowNeed(mem, root, first, want)
  {
    GrowNeedMono(mem, root, first, k + 1, want);
    hide GrowNeed;
    hide Xlate;
  }
}
