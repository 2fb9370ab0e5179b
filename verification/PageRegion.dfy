/**
  The regions every user page table maps (kernelspace/mm/pagetable.c): the identity map
  of RAM and devices and the trapframe page, and the pages that uvmfree goes through.
 */
module PageRegion {
  import opened PageTable
  import opened PageRange

  const REGION_COUNT: nat := 7

  // Page numbers: RAM, UART, VirtIO, CLINT, PLIC, SYSCON, TRAPFRAME.
  function First(i: nat): nat {
    if i == 0 then 0x80000 else if i == 1 then 0x10000 else if i == 2 then 0x10001 else if i == 3 then 0x2000
    else if i == 4 then 0xc000 else if i == 5 then 0x100 else 0x3ffffff
  }

  function Size(i: nat): nat {
    if i == 0 then 0x8000 else if i == 3 then 0x10 else if i == 4 then 0x400 else 1
  }

  /** R|W|X for RAM, R|W for the rest; never U. */
  function Perm(i: nat): (p: nat)
    ensures p < 1024
  {
    if i == 0 then 14 else 6
  }

  /** Identity, except that the last region is the trapframe's frame. */
  function Frame(ctx: nat, i: nat): nat {
    if i == 6 then ctx else First(i)
  }

  predicate InRegion(i: nat, n: nat) {
    First(i) <= n < First(i) + Size(i)
  }

  predicate InRegions(i: nat, n: nat) {
    i > 0 && (InRegion(i - 1, n) || InRegions(i - 1, n))
  }

  /** The entry of page n when the first i regions are mapped. */
  function KernelEntry(ctx: nat, i: nat, n: nat): nat {
    if i == 0 then 0
    else if InRegion(i - 1, n) then Entry(Frame(ctx, i - 1) + (n - First(i - 1)), Perm(i - 1))
    else KernelEntry(ctx, i - 1, n)
  }

  /** The seven regions as numbers: RAM with V, R, W and X, every device page with V, R and W, all
      of them leading to their own frame, the trapframe page with V, R and W to its frame. */
  lemma KernelEntryIs(ctx: nat, n: nat)
    ensures KernelEntry(ctx, REGION_COUNT, n)
            == if 0x80000 <= n < 0x88000 then 1024 * n + 15
               else if n == 0x3ffffff then 1024 * ctx + 7
               else if n == 0x10000 || n == 0x10001 || n == 0x100 || 0x2000 <= n < 0x2010 || 0xc000 <= n < 0xc400
               then 1024 * n + 7
               else 0
    ensures InRegions(REGION_COUNT, n) <==>
            0x80000 <= n < 0x88000 || n == 0x3ffffff || n == 0x10000 || n == 0x10001 || n == 0x100
            || 0x2000 <= n < 0x2010 || 0xc000 <= n < 0xc400
  {
    RegionStep(ctx, 0, n);
    RegionStep(ctx, 1, n);
    RegionStep(ctx, 2, n);
    RegionStep(ctx, 3, n);
    RegionStep(ctx, 4, n);
    RegionStep(ctx, 5, n);
    RegionStep(ctx, 6, n);
    assert KernelEntry(ctx, 0, n) == 0 && !InRegions(0, n);
    hide KernelEntry;
    hide InRegions;
    hide Entry;
  }

  lemma RegionStep(ctx: nat, i: nat, n: nat)
    requires i < REGION_COUNT
    ensures var f := if i == 6 then ctx + (n - First(i)) else n;
            KernelEntry(ctx, i + 1, n)
            == if InRegion(i, n) then 1024 * f + (if i == 0 then 15 else 7) else KernelEntry(ctx, i, n)
    ensures InRegions(i + 1, n) <==> InRegion(i, n) || InRegions(i, n)
  {
  }

  /** The bits of an entry: V, R, W, X, U and the frame behind them. */
  lemma EntryBits(f: nat, v: nat)
    requires v == 1024 * f + 15 || v == 1024 * f + 7
    ensures v / 1024 == f && v % 8 == 7 && v / 16 % 2 == 0 && (v / 8 % 2 == 1 <==> v == 1024 * f + 15)
  {
    var h := 128 * f + (if v == 1024 * f + 15 then 1 else 0);
    Eighth(h, v);
    assert h == 2 * (64 * f) + (h - 128 * f) && f == v / 1024;
  }

  lemma Eighth(h: nat, v: nat)
    requires v == 8 * h + 7
    ensures v / 8 == h && v % 8 == 7 && v / 16 == h / 2
  {
  }

  /** What the kernel's pages grant: none to the user; RAM can be read, written and executed, a
      device or the trapframe read and written.  All of them are there unless memory ran out. */
  lemma KernelAccess(root: nat, ctx: nat, mem: Memory, free: set<nat>, n: nat)
    requires KernelMap(root, ctx, REGION_COUNT, mem, free) && n < PAGE_COUNT
    ensures var v := Xlate(mem, root, n);
            && (v != 0 ==> v % 8 == 7 && v / 16 % 2 == 0)
            && (v != 0 && 0x80000 <= n < 0x88000 ==> v / 1024 == n && v / 8 % 2 == 1)
            && (v != 0 && !(0x80000 <= n < 0x88000) ==>
                  v / 8 % 2 == 0 && v / 1024 == (if n == 0x3ffffff then ctx else n)
                  && (n == 0x3ffffff || n == 0x10000 || n == 0x10001 || n == 0x100
                      || 0x2000 <= n < 0x2010 || 0xc000 <= n < 0xc400))
    ensures free != {} ==>
              (Xlate(mem, root, n) != 0 <==>
               0x80000 <= n < 0x88000 || n == 0x3ffffff || n == 0x10000 || n == 0x10001 || n == 0x100
               || 0x2000 <= n < 0x2010 || 0xc000 <= n < 0xc400)
  {
    KernelEntryIs(ctx, n);
    var v := Xlate(mem, root, n);
    hide Xlate;
    hide KernelEntry;
    if v != 0 {
      EntryBits(if n == 0x3ffffff then ctx else n, v);
    }
  }

  lemma RegionsApart(i: nat, n: nat)
    requires i < REGION_COUNT && InRegion(i, n)
    ensures !InRegions(i, n) && n <= MAX_PAGE
  {
    RegionsBelow(i, n);
  }

  lemma RegionsBelow(i: nat, n: nat)
    requires i < REGION_COUNT
    ensures InRegions(i, n) ==> exists j: nat :: j < i && InRegion(j, n)
  {
    if i > 0 {
      RegionsBelow(i - 1, n);
    }
  }

  lemma NoEntryOutside(ctx: nat, i: nat, n: nat)
    requires !InRegions(i, n)
    ensures KernelEntry(ctx, i, n) == 0
  {
    if i > 0 {
      NoEntryOutside(ctx, i - 1, n);
    }
  }

  /** The map after mapping the first i regions: nothing but them, and all of them
      unless memory ran out. */
  ghost predicate KernelMap(root: nat, ctx: nat, i: nat, mem: Memory, free: set<nat>) {
    && (forall n: nat :: n < PAGE_COUNT ==> Xlate(mem, root, n) == 0 || Xlate(mem, root, n) == KernelEntry(ctx, i, n))
    && (free != {} ==> forall n: nat :: n < PAGE_COUNT ==> Xlate(mem, root, n) == KernelEntry(ctx, i, n))
  }

  /** mappages on the next region. */
  lemma RegionMapped(root: nat, ctx: nat, i: nat, mem: Memory, free: set<nat>, mem': Memory, free': set<nat>, ok: bool,
                     k: nat)
    requires KernelMap(root, ctx, i, mem, free) && i < REGION_COUNT && ctx < 0x1000_0000_0000 && free' <= free
    requires Mapped(mem, mem', root, First(i), k, Frame(ctx, i), Perm(i))
    requires ok ==> k == Size(i)
    requires !ok ==> k < Size(i) && (First(i) + k > MAX_PAGE || free' == {} || Xlate(mem, root, First(i) + k) != 0)
    ensures KernelMap(root, ctx, i + 1, mem', free')
  {
    if !ok {
      RegionsApart(i, First(i) + k);
      NoEntryOutside(ctx, i, First(i) + k);
      assert free' == {};
    }
    hide Xlate;
    hide Mapped;
    var i' := i + 1;
    forall n: nat | n < PAGE_COUNT
      ensures Xlate(mem', root, n) == 0 || Xlate(mem', root, n) == KernelEntry(ctx, i', n)
      ensures free' != {} ==> Xlate(mem', root, n) == KernelEntry(ctx, i', n)
    {
      OnePage(root, ctx, i, mem, mem', k, n);
    }
  }

  lemma OnePage(root: nat, ctx: nat, i: nat, mem: Memory, mem': Memory, k: nat, n: nat)
    requires i < REGION_COUNT && ctx < 0x1000_0000_0000 && n < PAGE_COUNT && k <= Size(i)
    requires Mapped(mem, mem', root, First(i), k, Frame(ctx, i), Perm(i))
    ensures First(i) <= n < First(i) + k ==> Xlate(mem', root, n) == KernelEntry(ctx, i + 1, n)
    ensures !(First(i) <= n < First(i) + k) ==> Xlate(mem', root, n) == Xlate(mem, root, n)
    ensures !InRegion(i, n) ==> KernelEntry(ctx, i + 1, n) == KernelEntry(ctx, i, n)
    ensures InRegion(i, n) ==> KernelEntry(ctx, i, n) == 0
  {
    hide Xlate;
    hide Entry;
    if InRegion(i, n) {
      RegionsApart(i, n);
      NoEntryOutside(ctx, i, n);
      assert FrameAt(Frame(ctx, i), n - First(i)) == Frame(ctx, i) + (n - First(i));
    }
  }
}
