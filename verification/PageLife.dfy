/**
  The life of a user address space: uvmcreate and uvmfree of kernelspace/mm/pagetable.c
  and growproc of kernelspace/core/process.c.
 */
module PageLife {
  import opened Wrappers
  import opened PageTable
  import opened PageTear
  import opened PageRange
  import opened PageRegion
  import opened PageSpace

  // ------------------------------------------------------------------- creation

  /** The tree while uvmcreate maps region after region. */
  ghost predicate Creating(root: nat, ctx: nat, i: nat, mem0: Memory, free0: set<nat>, own0: Owners, mem: Memory,
                           free: set<nat>, own: Owners) {
    Grown(mem0, free0, own0, mem, free, own) && KernelMap(root, ctx, i, mem, free)
  }

  lemma CreateRegion(root: nat, ctx: nat, i: nat, mem0: Memory, free0: set<nat>, own0: Owners, mem: Memory,
                     free: set<nat>, own: Owners,
                     mem': Memory, free': set<nat>, own': Owners, ok: bool, k: nat)
    requires Creating(root, ctx, i, mem0, free0, own0, mem, free, own) && i < REGION_COUNT && ctx < 0x1000_0000_0000
    requires Added(root, mem, free, own, mem', free', own', First(i), k, Frame(ctx, i), Perm(i))
    requires ok ==> k == Size(i)
    requires !ok ==> k < Size(i) && Stopped(root, mem, free', First(i) + k)
    ensures Creating(root, ctx, i + 1, mem0, free0, own0, mem', free', own')
  {
    GrownTrans(mem0, free0, own0, mem, free, own, mem', free', own');
    assert free' <= free;
    hide Grown;
    hide KernelMap;
    hide Mapped;
    hide Xlate;
    RegionMapped(root, ctx, i, mem, free, mem', free', ok, k);
  }

  /** mappages(pt, base, frame, size, perm) for region i; like its callers, it drops the
      result. */
  method MapRegion(m: Space, root: nat, ctx: nat, i: nat, ghost mem0: Memory, ghost free0: set<nat>, ghost own0: Owners)
    requires m.Ok(root) && i < REGION_COUNT && ctx < 0x1000_0000_0000
    requires Creating(root, ctx, i, mem0, free0, own0, m.mem, m.free, m.own)
    modifies m`mem, m`free, m`own
    ensures m.Ok(root) && Creating(root, ctx, i + 1, mem0, free0, own0, m.mem, m.free, m.own)
  {
    hide *;
    RegionArith(ctx, i);
    var ok, k := m.MapPages(root, First(i) * 4096, Frame(ctx, i) * 4096, Size(i) * 4096, Perm(i));
    CreateRegion(root, ctx, i, mem0, free0, own0, old(m.mem), old(m.free), old(m.own), m.mem, m.free, m.own, ok, k);
  }

  lemma RegionArith(ctx: nat, i: nat)
    requires i < REGION_COUNT && ctx < 0x1000_0000_0000
    ensures First(i) * 4096 < WORD && Frame(ctx, i) * 4096 < WORD && 0 < Size(i) * 4096 < WORD
    ensures First(i) * 4096 / 4096 == First(i) && Frame(ctx, i) * 4096 / 4096 == Frame(ctx, i)
    ensures LastPage(First(i) * 4096, Size(i) * 4096) == First(i) + Size(i) - 1
  {
  }

  /** A fresh root with nothing in it. */
  lemma EmptyRoot(root: nat, mem: Memory, free: set<nat>, lo: nat, hi: nat, ctx: nat)
    requires Pool(mem, free, lo, hi) && root in mem && mem[root] == Zeros() && lo <= root < hi && root !in free
    ensures Sound(root, mem, free, map[root := Root], lo, hi)
    ensures Creating(root, ctx, 0, mem, free, map[root := Root], mem, free, map[root := Root])
  {
    assert !Valid(0);
    hide Valid;
    assert forall i: nat :: Sub(mem, root, i) == None;
    assert forall p: Path :: At(mem, root, p).Some? ==> p == Root;
  }

  /** A new address space: nothing but the kernel's regions and the trapframe is mapped,
      and all of that unless memory ran out.  No page in use is written. */
  method UvmCreate(m: Space, ctx: nat) returns (pt: Option<nat>)
    requires m.PoolOk() && ctx < 0x1000_0000_0000
    modifies m`mem, m`free, m`own
    ensures pt.None? <==> old(m.free) == {}
    ensures pt.None? ==> m.free == old(m.free) && m.mem == old(m.mem)
    ensures pt.Some? ==> m.Ok(pt.value) && KernelMap(pt.value, ctx, REGION_COUNT, m.mem, m.free)
    ensures pt.Some? ==> forall n: nat :: n < PAGE_COUNT && Xlate(m.mem, pt.value, n) != 0 ==>
                var v := Xlate(m.mem, pt.value, n);
                v % 8 == 7 && v / 16 % 2 == 0 && (v / 8 % 2 == 1 <==> 0x80000 <= n < 0x88000)
                && v / 1024 == if n == 0x3ffffff then ctx else n
    ensures pt.Some? && m.free != {} ==> forall n: nat :: n < PAGE_COUNT ==>
                (Xlate(m.mem, pt.value, n) != 0 <==>
                 0x80000 <= n < 0x88000 || n == 0x3ffffff || n == 0x10000 || n == 0x10001 || n == 0x100
                 || 0x2000 <= n < 0x2010 || 0xc000 <= n < 0xc400)
    ensures pt.Some? ==> m.free <= old(m.free) && m.own.Keys == old(m.free) - m.free
    ensures m.mem.Keys == old(m.mem).Keys
    ensures forall f: nat :: f in m.mem && f !in old(m.free) ==> m.mem[f] == old(m.mem)[f]
  {
    pt := m.Kalloc();
    if pt.None? {
      return;
    }
    var root := pt.value;
    m.ZeroPage(root);
    EmptyRoot(root, m.mem, m.free, m.lo, m.hi, ctx);
    m.own := map[root := Root];
    hide Creating;
    hide Sound;
    hide KernelMap;
    ghost var mem0, free0, own0 := m.mem, m.free, m.own;
    UvmMapKernel(m, root, ctx, mem0, free0, own0);
    MapRegion(m, root, ctx, 6, mem0, free0, own0);
    CreateDone(root, ctx, old(m.mem), old(m.free), mem0, free0, own0, m.mem, m.free, m.own);
    hide Xlate;
    forall n: nat | n < PAGE_COUNT {
      KernelAccess(root, ctx, m.mem, m.free, n);
    }
  }

  lemma CreateDone(root: nat, ctx: nat, mem: Memory, free: set<nat>, mem0: Memory, free0: set<nat>, own0: Owners,
                   mem': Memory, free': set<nat>, own': Owners)
    requires root in free && free0 == free - {root} && own0 == map[root := Root] && mem0.Keys == mem.Keys
    requires forall f: nat :: f in mem && f != root ==> mem0[f] == mem[f]
    requires Creating(root, ctx, 7, mem0, free0, own0, mem', free', own')
    ensures KernelMap(root, ctx, REGION_COUNT, mem', free') && free' <= free && own'.Keys == free - free'
    ensures mem'.Keys == mem.Keys && forall f: nat :: f in mem' && f !in free ==> mem'[f] == mem[f]
  {
    hide KernelMap;
  }

  lemma SevenRegions()
    ensures REGION_COUNT == 7
  {
  }

  method UvmMapKernel(m: Space, root: nat, ctx: nat, ghost mem0: Memory, ghost free0: set<nat>, ghost own0: Owners)
    requires m.Ok(root) && ctx < 0x1000_0000_0000
    requires Creating(root, ctx, 0, mem0, free0, own0, m.mem, m.free, m.own)
    modifies m`mem, m`free, m`own
    ensures m.Ok(root) && Creating(root, ctx, 6, mem0, free0, own0, m.mem, m.free, m.own)
  {
    hide *;
    SevenRegions();
    MapRegion(m, root, ctx, 0, mem0, free0, own0);
    MapRegion(m, root, ctx, 1, mem0, free0, own0);
    MapRegion(m, root, ctx, 2, mem0, free0, own0);
    MapRegion(m, root, ctx, 3, mem0, free0, own0);
    MapRegion(m, root, ctx, 4, mem0, free0, own0);
    MapRegion(m, root, ctx, 5, mem0, free0, own0);
  }

  // ------------------------------------------------------------------- teardown

  const USER_BASE: nat := 0x8800_0000
  const USER_PAGE: nat := 0x88000
  const STACK_PAGE: nat := 0x3fffffd

  /** PGROUNDUP(sz) as a page number, on 64-bit words. */
  function UpPage(sz: nat): nat { (sz + 4095) % WORD / 4096 }

  /** How many pages from USERBASE uvmfree releases. */
  function UserCount(sz: nat): nat {
    if sz > USER_BASE && UpPage(sz) > USER_PAGE then UpPage(sz) - USER_PAGE else 0
  }

  /** A page whose frame uvmfree returns. */
  predicate InUser(sz: nat, n: nat) {
    InRange(USER_PAGE, UserCount(sz), n) || n == STACK_PAGE
  }

  /** The user's pages by their addresses: the stack page, two below the trapframe's, and those
      from the end of RAM on that begin below sz. */
  lemma UserPages(sz: nat, n: nat)
    requires sz < WORD
    ensures InUser(sz, n) <==> n == 0x3fffffd || (0x88000 <= n <= 0x400_0000 && 4096 * n < sz <= 0xFFFF_FFFF_FFFF_F000)
  {
    UpPageLeast(sz, n);
  }

  /** PGROUNDUP: the pages below are those that begin below sz; none when rounding wraps. */
  lemma UpPageLeast(sz: nat, n: nat)
    requires sz < 0x1_0000_0000_0000_0000
    ensures n < UpPage(sz) <==> 4096 * n < sz <= 0xFFFF_FFFF_FFFF_F000
  {
    if sz <= 0xFFFF_FFFF_FFFF_F000 {
      assert (sz + 4095) % WORD == sz + 4095;
    } else {
      assert (sz + 4095) % WORD == sz + 4095 - WORD;
    }
  }

  /** A page uvmfree unmaps. */
  predicate Covered(sz: nat, n: nat) {
    InUser(sz, n) || InRegions(REGION_COUNT, n)
  }

  /** Frame f backs page n, which belongs to the user. */
  ghost predicate UserBacks(mem: Memory, root: nat, sz: nat, n: nat, f: nat) {
    InUser(sz, n) && Xlate(mem, root, n) != 0 && Ppn(Xlate(mem, root, n)) == f
  }

  ghost predicate UserFrame(mem: Memory, root: nat, sz: nat, f: nat) {
    exists n: nat :: UserBacks(mem, root, sz, n, f)
  }

  /** User frames are neither tables ... */
  ghost predicate UserNoTables(mem: Memory, root: nat, sz: nat, own: Owners) {
    forall n: nat, f: nat :: UserBacks(mem, root, sz, n, f) ==> f !in own
  }

  /** ... nor free, nor shared. */
  ghost predicate UserDistinct(mem: Memory, root: nat, sz: nat, free: set<nat>) {
    && (forall n: nat, f: nat :: UserBacks(mem, root, sz, n, f) ==> f !in free)
    && (forall n: nat, k: nat, f: nat :: UserBacks(mem, root, sz, n, f) && UserBacks(mem, root, sz, k, f) ==> n == k)
  }

  /** Every leaf grants some access. */
  ghost predicate LeafyMap(mem: Memory, root: nat) {
    forall n: nat :: n < PAGE_COUNT && Xlate(mem, root, n) != 0 ==> HasRWX(Xlate(mem, root, n))
  }

  /** Every leaf has some flag besides V: what uvmunmap asks of the pages it unmaps. */
  ghost predicate NoBare(mem: Memory, root: nat) {
    forall n: nat :: n < PAGE_COUNT && Xlate(mem, root, n) != 0 ==> Flags(Xlate(mem, root, n)) != 1
  }

  /** A leaf that is left for freewalk grants some access, so that it is not taken for a pointer. */
  ghost predicate LeafyOutside(mem: Memory, root: nat, sz: nat) {
    forall n: nat :: n < PAGE_COUNT && Xlate(mem, root, n) != 0 && !Covered(sz, n) ==> HasRWX(Xlate(mem, root, n))
  }

  ghost predicate EmptyMap(mem: Memory, root: nat) {
    forall n: nat :: n < PAGE_COUNT ==> Xlate(mem, root, n) == 0
  }

  lemma UserArith(sz: nat)
    requires USER_BASE < sz < WORD
    ensures UnmapCount(USER_BASE, (UpPage(sz) * 4096 + WORD - USER_BASE) % WORD / 4096) == UserCount(sz)
    ensures USER_BASE / 4096 == USER_PAGE && USER_BASE % 4096 == 0
  {
    var up := UpPage(sz) * 4096;
    assert (sz + 4095) % WORD == if sz + 4095 < WORD then sz + 4095 else sz + 4095 - WORD;
    if sz + 4095 < WORD {
      assert up >= USER_BASE;
      assert (up + WORD - USER_BASE) % WORD == up - USER_BASE;
    }
  }

  lemma NoBareAll(mem: Memory, root: nat, first: nat, k: nat)
    requires NoBare(mem, root)
    ensures AllLeaves(mem, root, first, k)
  {
    hide Flags;
    hide Xlate;
  }

  /** A slot of a last-level table is the slot of a page. */
  lemma SlotOfPage(mem: Memory, root: nat, own: Owners, g: nat, k: nat) returns (n: nat)
    requires Tree(mem, root, own) && g in own && own[g].Low? && k < 512
    ensures n < PAGE_COUNT && Xlate(mem, root, n) == if Valid(mem[g][k]) then mem[g][k] else 0
  {
    n := PageAt(own[g].i, own[g].j, k);
    assert At(mem, root, own[g]) == Some(g);
  }

  lemma LeafyTables(mem: Memory, root: nat, own: Owners)
    requires Tree(mem, root, own) && LeafyMap(mem, root)
    ensures Leafy(mem, own)
  {
    forall g: nat, k: nat | g in own && g in mem && own[g].Low? && k < |mem[g]| && Valid(mem[g][k])
      ensures HasRWX(mem[g][k])
    {
      var n := SlotOfPage(mem, root, own, g, k);
    }
  }

  /** No table holds a leaf iff nothing is mapped. */
  lemma NoLeafIffEmpty(mem: Memory, root: nat, own: Owners)
    requires Tree(mem, root, own)
    ensures NoLeaf(mem, own, Root, 512) <==> EmptyMap(mem, root)
  {
    if EmptyMap(mem, root) {
      forall g: nat, k: nat
        ensures !LeafAt(mem, own, Root, 512, g, k)
      {
        if LeafAt(mem, own, Root, 512, g, k) {
          var n := SlotOfPage(mem, root, own, g, k);
        }
      }
    }
    if NoLeaf(mem, own, Root, 512) {
      forall n: nat | n < PAGE_COUNT
        ensures Xlate(mem, root, n) == 0
      {
        if Xlate(mem, root, n) != 0 {
          var g := At(mem, root, LowOf(n)).value;
          assert LeafAt(mem, own, Root, 512, g, I0(n));
        }
      }
    }
  }

  /** After the user's pages and the first i regions are unmapped. */
  ghost predicate Freeing(root: nat, sz: nat, i: nat, mem0: Memory, free0: set<nat>, own: Owners, mem: Memory,
                          free: set<nat>, lo: nat, hi: nat) {
    && OnlyTables(mem0, mem, own)
    && (forall n: nat :: n < PAGE_COUNT ==>
          Xlate(mem, root, n) == if InUser(sz, n) || InRegions(i, n) then 0 else Xlate(mem0, root, n))
    && (forall f: nat :: f in free <==> f in free0 || (lo <= f < hi && UserFrame(mem0, root, sz, f)))
  }

  /** The frames of the range are user frames. */
  lemma RangeOfUser(mem: Memory, root: nat, sz: nat, free: set<nat>, own: Owners)
    ensures UserNoTables(mem, root, sz, own) ==> NoTables(mem, root, USER_PAGE, UserCount(sz), own)
    ensures UserDistinct(mem, root, sz, free) ==> Distinct(mem, root, free, USER_PAGE, UserCount(sz))
  {
    hide Xlate;
    hide UserCount;
    assert forall n: nat, f: nat :: Backs(mem, root, USER_PAGE, UserCount(sz), n, f) ==> UserBacks(mem, root, sz, n, f);
    hide Backs;
    hide UserBacks;
  }

  lemma StackOfUser(mem0: Memory, root: nat, sz: nat, free0: set<nat>, own: Owners, mem1: Memory, free1: set<nat>,
                    lo: nat, hi: nat)
    requires Removed(root, mem0, free0, own, mem1, free1, USER_PAGE, UserCount(sz), true, lo, hi)
    ensures UserNoTables(mem0, root, sz, own) ==> NoTables(mem1, root, STACK_PAGE, 1, own)
    ensures UserDistinct(mem0, root, sz, free0) ==> Distinct(mem1, root, free1, STACK_PAGE, 1)
  {
    hide Xlate;
    hide UserCount;
    forall n: nat, f: nat | Backs(mem1, root, STACK_PAGE, 1, n, f)
      ensures UserBacks(mem0, root, sz, n, f) && n == STACK_PAGE
      ensures UserDistinct(mem0, root, sz, free0) ==> f !in free1
    {
      if UserDistinct(mem0, root, sz, free0) && IsFrame(mem0, root, USER_PAGE, UserCount(sz), f) {
        var k: nat :| Backs(mem0, root, USER_PAGE, UserCount(sz), k, f);
        assert UserBacks(mem0, root, sz, k, f);
      }
    }
    hide Backs;
    hide UserBacks;
  }

  lemma UserFramesSplit(mem0: Memory, root: nat, sz: nat, mem1: Memory, f: nat)
    requires Unmapped(mem0, mem1, root, USER_PAGE, UserCount(sz))
    ensures UserFrame(mem0, root, sz, f)
            <==> IsFrame(mem0, root, USER_PAGE, UserCount(sz), f) || IsFrame(mem1, root, STACK_PAGE, 1, f)
  {
    hide Xlate;
    hide UserCount;
    var c := UserCount(sz);
    if UserFrame(mem0, root, sz, f) {
      var n: nat :| UserBacks(mem0, root, sz, n, f);
      assert if InRange(USER_PAGE, c, n)
        then Backs(mem0, root, USER_PAGE, c, n, f) else Backs(mem1, root, STACK_PAGE, 1, n, f);
    }
    if IsFrame(mem0, root, USER_PAGE, c, f) {
      var n: nat :| Backs(mem0, root, USER_PAGE, c, n, f);
      assert UserBacks(mem0, root, sz, n, f);
    }
    if IsFrame(mem1, root, STACK_PAGE, 1, f) {
      var n: nat :| Backs(mem1, root, STACK_PAGE, 1, n, f);
      assert UserBacks(mem0, root, sz, n, f);
    }
  }

  lemma UserGone(root: nat, sz: nat, mem0: Memory, free0: set<nat>, own: Owners, mem1: Memory, free1: set<nat>,
                 mem: Memory, free: set<nat>, lo: nat, hi: nat)
    requires Removed(root, mem0, free0, own, mem1, free1, USER_PAGE, UserCount(sz), true, lo, hi)
    requires Removed(root, mem1, free1, own, mem, free, STACK_PAGE, 1, true, lo, hi)
    ensures Freeing(root, sz, 0, mem0, free0, own, mem, free, lo, hi)
  {
    OnlyTablesTrans(mem0, mem1, mem, own);
    hide Xlate;
    hide UserCount;
    forall f: nat
      ensures UserFrame(mem0, root, sz, f)
              <==> IsFrame(mem0, root, USER_PAGE, UserCount(sz), f) || IsFrame(mem1, root, STACK_PAGE, 1, f)
    {
      UserFramesSplit(mem0, root, sz, mem1, f);
    }
    hide IsFrame;
    hide UserFrame;
  }

  lemma RegionGone(root: nat, sz: nat, i: nat, mem0: Memory, free0: set<nat>, own: Owners, mem: Memory, free: set<nat>,
                   mem': Memory, free': set<nat>, lo: nat, hi: nat)
    requires Freeing(root, sz, i, mem0, free0, own, mem, free, lo, hi) && i < REGION_COUNT
    requires Removed(root, mem, free, own, mem', free', First(i), Size(i), false, lo, hi)
    ensures Freeing(root, sz, i + 1, mem0, free0, own, mem', free', lo, hi)
  {
    OnlyTablesTrans(mem0, mem, mem', own);
    hide Xlate;
    hide UserFrame;
    hide InUser;
    forall n: nat | n < PAGE_COUNT
      ensures InRegions(i + 1, n) <==> InRegions(i, n) || InRange(First(i), Size(i), n)
    {
    }
    hide InRegions;
  }

  lemma StillNoBare(mem0: Memory, mem: Memory, root: nat)
    requires NoBare(mem0, root)
    requires forall n: nat :: n < PAGE_COUNT ==> Xlate(mem, root, n) == 0 || Xlate(mem, root, n) == Xlate(mem0, root, n)
    ensures NoBare(mem, root)
  {
    hide Xlate;
    hide Flags;
  }

  lemma FreeingNoBare(root: nat, sz: nat, i: nat, mem0: Memory, free0: set<nat>, own: Owners, mem: Memory,
                      free: set<nat>, lo: nat, hi: nat)
    requires Freeing(root, sz, i, mem0, free0, own, mem, free, lo, hi) && NoBare(mem0, root)
    ensures NoBare(mem, root)
  {
    hide Xlate;
    StillNoBare(mem0, mem, root);
  }

  lemma RemovedNoBare(root: nat, mem0: Memory, free0: set<nat>, own: Owners, mem: Memory, free: set<nat>, first: nat,
                      k: nat, doFree: bool, lo: nat, hi: nat)
    requires Removed(root, mem0, free0, own, mem, free, first, k, doFree, lo, hi) && NoBare(mem0, root)
    ensures NoBare(mem, root)
  {
    hide Xlate;
    StillNoBare(mem0, mem, root);
  }

  /** What is left after all unmapping are the pages not covered. */
  lemma FreeingLeafy(root: nat, sz: nat, mem0: Memory, free0: set<nat>, own: Owners, mem: Memory, free: set<nat>,
                     lo: nat, hi: nat)
    requires Freeing(root, sz, REGION_COUNT, mem0, free0, own, mem, free, lo, hi) && LeafyOutside(mem0, root, sz)
    ensures LeafyMap(mem, root)
  {
    hide Xlate;
    hide HasRWX;
    hide InRegions;
    hide InUser;
  }

  /** Steps 1 and 2 of uvmfree: the user's pages and the stack, with their frames. */
  method UnmapUser(m: Space, root: nat, sz: nat)
    requires m.Ok(root) && sz < WORD && NoBare(m.mem, root) && UserNoTables(m.mem, root, sz, m.own)
    modifies m
    ensures m.Ok(root) && m.own == old(m.own)
    ensures Freeing(root, sz, 0, old(m.mem), old(m.free), m.own, m.mem, m.free, m.lo, m.hi)
    ensures UserDistinct(old(m.mem), root, sz, old(m.free)) ==> m.again == old(m.again)
    ensures forall n: nat :: n < PAGE_COUNT && n != 0x3fffffd && (n < 0x88000 || sz <= 4096 * n) ==>
                Xlate(m.mem, root, n) == old(Xlate(m.mem, root, n))
  {
    hide *;
    RangeOfUser(m.mem, root, sz, m.free, m.own);
    UserConsts(sz);
    UnmapStart(m.mem, root, m.own, USER_PAGE, m.free, true, m.lo, m.hi);
    NoBareAll(m.mem, root, USER_PAGE, UserCount(sz));
    if sz > USER_BASE {
      UserArith(sz);
      var ok := m.UvmUnmap(root, USER_BASE, (UpPage(sz) * 4096 + WORD - USER_BASE) % WORD / 4096, true);
    }
    ghost var mem1, free1 := m.mem, m.free;
    StackOfUser(old(m.mem), root, sz, old(m.free), m.own, m.mem, m.free, m.lo, m.hi);
    RemovedNoBare(root, old(m.mem), old(m.free), m.own, m.mem, m.free, USER_PAGE, UserCount(sz), true, m.lo, m.hi);
    NoBareAll(m.mem, root, STACK_PAGE, 1);
    var ok := m.UvmUnmap(root, STACK_PAGE * 4096, 1, true);
    UserGone(root, sz, old(m.mem), old(m.free), m.own, mem1, free1, m.mem, m.free, m.lo, m.hi);
    OthersLeft(root, sz, old(m.mem), old(m.free), m.own, m.mem, m.free, m.lo, m.hi);
  }

  lemma OthersLeft(root: nat, sz: nat, mem0: Memory, free0: set<nat>, own: Owners, mem: Memory, free: set<nat>,
                   lo: nat, hi: nat)
    requires Freeing(root, sz, 0, mem0, free0, own, mem, free, lo, hi) && sz < WORD
    ensures forall n: nat :: n < PAGE_COUNT && n != 0x3fffffd && (n < 0x88000 || sz <= 4096 * n) ==>
                Xlate(mem, root, n) == Xlate(mem0, root, n)
  {
    hide Xlate;
    hide InUser;
    forall n: nat | n < PAGE_COUNT && n != 0x3fffffd && (n < 0x88000 || sz <= 4096 * n)
      ensures Xlate(mem, root, n) == Xlate(mem0, root, n)
    {
      UserPages(sz, n);
    }
  }

  lemma UserConsts(sz: nat)
    ensures sz <= USER_BASE ==> UserCount(sz) == 0
    ensures STACK_PAGE * 4096 < WORD && STACK_PAGE * 4096 / 4096 == STACK_PAGE && STACK_PAGE * 4096 % 4096 == 0
    ensures UnmapCount(STACK_PAGE * 4096, 1) == 1 && 0 < USER_BASE < WORD
  {
  }

  /** uvmunmap of one kernel region, without freeing. */
  method UnmapRegion(m: Space, root: nat, sz: nat, i: nat, ghost mem0: Memory, ghost free0: set<nat>)
    requires m.Ok(root) && i < REGION_COUNT && NoBare(mem0, root)
    requires Freeing(root, sz, i, mem0, free0, m.own, m.mem, m.free, m.lo, m.hi)
    modifies m
    ensures m.Ok(root) && m.own == old(m.own) && m.again == old(m.again)
    ensures Freeing(root, sz, i + 1, mem0, free0, m.own, m.mem, m.free, m.lo, m.hi)
  {
    hide *;
    RegionConsts(i);
    FreeingNoBare(root, sz, i, mem0, free0, m.own, m.mem, m.free, m.lo, m.hi);
    NoBareAll(m.mem, root, First(i), Size(i));
    var ok := m.UvmUnmap(root, First(i) * 4096, Size(i), false);
    RegionGone(root, sz, i, mem0, free0, m.own, old(m.mem), old(m.free), m.mem, m.free, m.lo, m.hi);
  }

  lemma RegionConsts(i: nat)
    requires i < REGION_COUNT
    ensures First(i) * 4096 < WORD && First(i) * 4096 / 4096 == First(i) && First(i) * 4096 % 4096 == 0
    ensures Size(i) < WORD
    ensures UnmapCount(First(i) * 4096, Size(i)) == Size(i)
  {
  }

  /** Steps 3 to 5 of uvmfree: the kernel's regions and the trapframe. */
  method UnmapKernel(m: Space, root: nat, sz: nat, ghost mem0: Memory, ghost free0: set<nat>)
    requires m.Ok(root) && NoBare(mem0, root)
    requires Freeing(root, sz, 0, mem0, free0, m.own, m.mem, m.free, m.lo, m.hi)
    modifies m
    ensures m.Ok(root) && m.own == old(m.own) && m.again == old(m.again)
    ensures Freeing(root, sz, REGION_COUNT, mem0, free0, m.own, m.mem, m.free, m.lo, m.hi)
  {
    hide *;
    SevenRegions();
    UnmapRegion(m, root, sz, 0, mem0, free0);
    UnmapRegion(m, root, sz, 1, mem0, free0);
    UnmapRegion(m, root, sz, 2, mem0, free0);
    UnmapRegion(m, root, sz, 3, mem0, free0);
    UnmapRegion(m, root, sz, 4, mem0, free0);
    UnmapRegion(m, root, sz, 5, mem0, free0);
    UnmapRegion(m, root, sz, 6, mem0, free0);
  }

  /** Every mapped page is one that uvmfree unmaps. */
  ghost predicate AllCovered(mem: Memory, root: nat, sz: nat) {
    forall n: nat :: n < PAGE_COUNT && Xlate(mem, root, n) != 0 ==> Covered(sz, n)
  }

  /** What teardown returns to the pool: the table pages and the user's frames. */
  ghost predicate TornApart(root: nat, sz: nat, mem0: Memory, free0: set<nat>, own0: Owners, free: set<nat>, lo: nat,
                            hi: nat) {
    forall f: nat :: f in free <==> f in free0 || f in own0 || (lo <= f < hi && UserFrame(mem0, root, sz, f))
  }

  lemma EmptyIffCovered(root: nat, sz: nat, mem0: Memory, free0: set<nat>, own: Owners, mem: Memory, free: set<nat>,
                        lo: nat, hi: nat)
    requires Freeing(root, sz, REGION_COUNT, mem0, free0, own, mem, free, lo, hi)
    ensures EmptyMap(mem, root) <==> AllCovered(mem0, root, sz)
  {
    hide Xlate;
    hide InRegions;
    hide InUser;
  }

  /** Once freewalk is through, only the root's own page was left of the tree. */
  lemma RootAlone(root: nat, mem0: Memory, own0: Owners, mem: Memory, own: Owners)
    requires TornDown(root, mem0, own0, mem, own, root, 512) && own0[root] == Root
    ensures own.Keys == {root} && OnlyTables(mem0, mem, own0)
  {
    LastSlot(mem0, root, own0, root, 0);
    assert forall g: nat :: g in own0 && g != root ==> own0[g] != Root;
    assert forall g: nat :: g in own0 ==> Bounded(own0[g]);
    hide Tree;
    hide Valid;
    assert forall g: nat :: g in own0 ==> (Cut(Root, own0[g], 512) <==> g != root);
  }

  lemma ApartAfter(root: nat, sz: nat, mem0: Memory, free0: set<nat>, own0: Owners, mem: Memory, free: set<nat>,
                   free': set<nat>, own: Owners, lo: nat, hi: nat)
    requires Freeing(root, sz, REGION_COUNT, mem0, free0, own0, mem, free, lo, hi)
    requires free' == free + (own0.Keys - own.Keys) + {root} && own.Keys == {root} && root in own0
    ensures TornApart(root, sz, mem0, free0, own0, free', lo, hi)
  {
    hide UserFrame;
    hide Xlate;
  }

  lemma RootOwned(mem: Memory, root: nat, own: Owners)
    requires Tree(mem, root, own)
    ensures root in own && own[root] == Root
  {
    assert At(mem, root, Root) == Some(root);
  }

  lemma SoundParts(root: nat, mem: Memory, free: set<nat>, own: Owners, lo: nat, hi: nat)
    requires Sound(root, mem, free, own, lo, hi)
    ensures Pool(mem, free, lo, hi) && Tree(mem, root, own) && Pointers(mem, own) && InUse(free, own, lo, hi)
  {
  }

  /** Teardown of an address space.  It gets past both panics iff every mapped page is
      one it unmaps; then exactly the table pages and the user's frames return to the
      pool, each of them once, and nothing but table pages was written. */
  method UvmFree(m: Space, root: nat, sz: nat) returns (ok: bool)
    requires m.Ok(root) && sz < WORD && NoBare(m.mem, root) && LeafyOutside(m.mem, root, sz)
    requires UserNoTables(m.mem, root, sz, m.own)
    modifies m
    ensures ok <==> AllCovered(old(m.mem), root, sz)
    ensures ok ==> TornApart(root, sz, old(m.mem), old(m.free), old(m.own), m.free, m.lo, m.hi)
    ensures ok ==> OnlyTables(old(m.mem), m.mem, old(m.own))
    ensures ok && UserDistinct(old(m.mem), root, sz, old(m.free)) ==> m.again == old(m.again)
  {
    hide Sound;
    hide Pool;
    hide Tree;
    hide Pointers;
    hide InUse;
    hide LeafyMap;
    hide NoBare;
    hide LeafyOutside;
    hide UserNoTables;
    hide UserDistinct;
    hide Freeing;
    hide TornDown;
    hide AllCovered;
    hide TornApart;
    hide OnlyTables;
    hide NoLeaf;
    hide Leafy;
    UnmapUser(m, root, sz);
    UnmapKernel(m, root, sz, old(m.mem), old(m.free));
    ghost var mem1, free1, own1 := m.mem, m.free, m.own;
    SoundParts(root, m.mem, m.free, m.own, m.lo, m.hi);
    RootOwned(m.mem, root, m.own);
    FreeingLeafy(root, sz, old(m.mem), old(m.free), m.own, m.mem, m.free, m.lo, m.hi);
    LeafyTables(m.mem, root, m.own);
    NoLeafIffEmpty(m.mem, root, m.own);
    EmptyIffCovered(root, sz, old(m.mem), old(m.free), m.own, m.mem, m.free, m.lo, m.hi);
    ok := m.FreeWalk(root, root);
    if ok {
      RootAlone(root, mem1, own1, m.mem, m.own);
      ApartAfter(root, sz, old(m.mem), old(m.free), own1, mem1, free1, m.free, m.own, m.lo, m.hi);
      FreeingOnly(root, sz, old(m.mem), old(m.free), own1, mem1, free1, m.lo, m.hi);
      OnlyTablesTrans(old(m.mem), mem1, m.mem, own1);
    }
  }

  lemma FreeingOnly(root: nat, sz: nat, mem0: Memory, free0: set<nat>, own: Owners, mem: Memory, free: set<nat>,
                    lo: nat, hi: nat)
    requires Freeing(root, sz, REGION_COUNT, mem0, free0, own, mem, free, lo, hi)
    ensures OnlyTables(mem0, mem, own)
  {
  }
}
