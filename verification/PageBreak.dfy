/**
  Runs of growproc on one process, at every size and with every argument: how the end of its
  heap moves, and when uvmfree will be able to take the address space down.
 */
module PageBreak {
  import opened Wrappers
  import opened PageTable
  import opened PageRange
  import opened PageCost
  import opened PageRegion
  import opened PageLife
  import opened PageGrow

  /** The address space of one process between two calls. */
  datatype Brk = Brk(mem: Memory, sz: nat)

  /** A call: the argument, and how many pages are free when it is made. */
  datatype Call = Call(room: nat, n: int)

  ghost predicate Step(root: nat, s: Brk, c: Call, s': Brk) {
    && s.sz < WORD && -0x8000_0000 <= c.n < 0x8000_0000
    && exists k: nat :: Called(root, s.mem, c.room, s.sz, s'.mem, s'.sz, c.n, k)
  }

  ghost predicate Covers(root: nat, s: Brk) { AllCovered(s.mem, root, s.sz) }

  /** A page that is neither the stack's nor the kernel's. */
  predicate Heap(p: nat) { p < PAGE_COUNT && p != STACK_PAGE && !InRegions(REGION_COUNT, p) }

  /** A heap page that uvmfree unmaps at size sz. */
  predicate Within(sz: nat, p: nat) { USER_PAGE <= p < UpPage(sz) && p <= MAX_PAGE }

  ghost predicate HasPage(root: nat, s: Brk, p: nat) { Xlate(s.mem, root, p) != 0 }

  /** The call will map page p: the page is in its range, and all pages up to it are vacant and
      can be paid for. */
  ghost predicate Adds(root: nat, s: Brk, c: Call, p: nat) {
    var first := UpPage(s.sz);
    && c.n > 0 && Resized(s.sz, c.n) < HEAP_END && first <= p < UpPage(Resized(s.sz, c.n))
    && Vacant(s.mem, root, first, p + 1 - first) && c.room >= GrowNeed(s.mem, root, first, p + 1 - first)
  }

  // -------------------------------------------------------------------- one call

  lemma CoveredIff(sz: nat, p: nat)
    requires sz < WORD && p < PAGE_COUNT
    ensures Covered(sz, p) <==> !Heap(p) || Within(sz, p)
  {
    UserRange(sz, p);
  }

  lemma CoversIff(root: nat, s: Brk)
    requires s.sz < WORD
    ensures Covers(root, s) <==> forall p: nat :: Heap(p) && HasPage(root, s, p) ==> Within(s.sz, p)
  {
    hide Xlate;
    forall p: nat | p < PAGE_COUNT
      ensures Covered(s.sz, p) <==> !Heap(p) || Within(s.sz, p)
    {
      CoveredIff(s.sz, p);
    }
    assert forall p: nat :: Heap(p) ==> p < PAGE_COUNT;
    hide Heap;
    hide Covered;
    hide Within;
  }

  lemma SizeAfter(root: nat, s: Brk, c: Call, s': Brk)
    requires Step(root, s, c, s')
    ensures s'.sz == (if CanGrow(s.mem, root, c.room, s.sz, c.n) then Resized(s.sz, c.n) else s.sz) && s'.sz < WORD
  {
    hide CanGrow;
    hide Extended;
  }

  /** A longer stretch is vacant and paid for only if a shorter one is. */
  lemma Shorter(root: nat, mem: Memory, room: nat, first: nat, a: nat, b: nat)
    requires a <= b && Vacant(mem, root, first, b) && room >= GrowNeed(mem, root, first, b)
    ensures Vacant(mem, root, first, a) && room >= GrowNeed(mem, root, first, a)
  {
    GrowNeedMono(mem, root, first, a, b);
    VacantPrefix(mem, root, first, a, b);
    hide GrowNeed;
    hide Vacant;
  }

  lemma VacantPrefix(mem: Memory, root: nat, first: nat, a: nat, b: nat)
    requires a <= b && Vacant(mem, root, first, b)
    ensures Vacant(mem, root, first, a)
  {
    hide Xlate;
    if b > 0 {
      VacantAt(mem, root, first, b, b - 1);
    }
  }

  /** How many pages a call adds, told from the state before it. */
  lemma CountIs(root: nat, s: Brk, c: Call, s': Brk, k: nat, p: nat)
    requires s.sz < WORD && Called(root, s.mem, c.room, s.sz, s'.mem, s'.sz, c.n, k)
    ensures UpPage(s.sz) <= p < UpPage(s.sz) + k <==> Adds(root, s, c, p)
  {
    var first := UpPage(s.sz);
    hide Extended;
    hide Vacant;
    hide GrowNeed;
    hide UpPage;
    hide Resized;
    if first <= p < first + k {
      Shorter(root, s.mem, c.room, first, p + 1 - first, k);
    }
    if Adds(root, s, c, p) && first + k <= p {
      var b := p + 1 - first;
      Shorter(root, s.mem, c.room, first, k + 1, b);
      VacantAt(s.mem, root, first, k + 1, k);
    }
  }

  lemma VacantAt(mem: Memory, root: nat, first: nat, k: nat, i: nat)
    requires Vacant(mem, root, first, k) && i < k
    ensures Xlate(mem, root, first + i) == 0 && first + i <= MAX_PAGE
  {
    assert Xlate(mem, root, first + i) == 0;
  }

  /** A call adds exactly those pages, and takes none away. */
  lemma AddsExact(root: nat, s: Brk, c: Call, s': Brk, p: nat)
    requires Step(root, s, c, s') && p < PAGE_COUNT
    ensures HasPage(root, s', p) <==> HasPage(root, s, p) || Adds(root, s, c, p)
    ensures Adds(root, s, c, p) ==> !HasPage(root, s, p) && p < STACK_PAGE
  {
    var k: nat :| Called(root, s.mem, c.room, s.sz, s'.mem, s'.sz, c.n, k);
    CountIs(root, s, c, s', k, p);
    if Adds(root, s, c, p) {
      AddsBelow(root, s, c, p);
    }
    hide Adds;
    hide Xlate;
    hide Flags;
    hide UpPage;
    hide CanGrow;
    hide GrowsBy;
  }

  lemma AddsBelow(root: nat, s: Brk, c: Call, p: nat)
    requires Adds(root, s, c, p)
    ensures p < STACK_PAGE
  {
    hide Vacant;
    hide GrowNeed;
  }

  /** The call puts a page beyond what uvmfree will unmap: one that is given up by the new size,
      or one it adds outside of it. */
  ghost predicate Strands(root: nat, s: Brk, c: Call, sz': nat) {
    exists p: nat :: Heap(p) && !Within(sz', p) && ((HasPage(root, s, p) && Within(s.sz, p)) || Adds(root, s, c, p))
  }

  /** A page that uvmfree would not have unmapped before is still there. */
  ghost predicate Astray(root: nat, s: Brk, sz': nat) {
    exists p: nat :: Heap(p) && !Within(sz', p) && HasPage(root, s, p) && !Within(s.sz, p)
  }

  /** One call, at every size: uvmfree can take the space down afterwards iff the call strands no
      page and no page astray before stays so. */
  lemma CoverStep(root: nat, s: Brk, c: Call, s': Brk)
    requires Step(root, s, c, s')
    ensures Covers(root, s') <==> !Strands(root, s, c, s'.sz) && !Astray(root, s, s'.sz)
  {
    SizeAfter(root, s, c, s');
    CoversIff(root, s');
    forall p: nat | Heap(p)
      ensures HasPage(root, s', p) <==> HasPage(root, s, p) || Adds(root, s, c, p)
    {
      AddsExact(root, s, c, s', p);
    }
    hide Step;
    hide Covers;
    hide Heap;
    hide Within;
    hide HasPage;
    hide Adds;
  }

  /** A size that moves within the heap takes no page back: growing over a mapped page fails. */
  lemma TakenWereVacant(root: nat, s: Brk, c: Call, s': Brk, p: nat)
    requires Step(root, s, c, s') && s.sz <= HEAP_END && s.sz + c.n >= 0
    requires Within(s'.sz, p) && !Within(s.sz, p)
    ensures !HasPage(root, s, p)
  {
    SizeAfter(root, s, c, s');
    ResizedIs(s.sz, c.n);
    UpMono(s'.sz, s.sz);
    hide UpPage;
    hide Resized;
    VacantAt(s.mem, root, UpPage(s.sz), GrowPages(s.sz, c.n), p - UpPage(s.sz));
  }

  lemma ResizedIs(sz: nat, n: int)
    requires sz <= HEAP_END && sz + n >= 0 && n < 0x8000_0000
    ensures Resized(sz, n) == sz + n
  {
  }

  lemma UpMono(sz: nat, sz': nat)
    requires sz' <= HEAP_END
    ensures sz <= sz' ==> UpPage(sz) <= UpPage(sz') <= STACK_PAGE
  {
  }

  /** One call within the heap: uvmfree can take the space down afterwards iff it could before and
      the call strands no page. */
  lemma HeapStep(root: nat, s: Brk, c: Call, s': Brk)
    requires Step(root, s, c, s') && s.sz <= HEAP_END && s.sz + c.n >= 0
    ensures s'.sz <= HEAP_END
    ensures Covers(root, s') <==> Covers(root, s) && !Strands(root, s, c, s'.sz)
  {
    StaysInHeap(root, s, c, s');
    CoverStep(root, s, c, s');
    CoversIff(root, s);
    forall p: nat | HasPage(root, s, p) && !Within(s.sz, p)
      ensures !Within(s'.sz, p)
    {
      if Within(s'.sz, p) {
        TakenWereVacant(root, s, c, s', p);
      }
    }
    hide Step;
    hide Covers;
    hide Heap;
    hide Within;
    hide HasPage;
    hide Adds;
  }

  lemma StaysInHeap(root: nat, s: Brk, c: Call, s': Brk)
    requires Step(root, s, c, s') && s.sz <= HEAP_END && s.sz + c.n >= 0
    ensures s'.sz <= HEAP_END
  {
    SizeAfter(root, s, c, s');
    ResizedIs(s.sz, c.n);
    hide Resized;
    hide Vacant;
    hide GrowNeed;
  }

  /** When a call strands a page, told from the state before it: when the new size gives up a
      mapped one, or the call adds one below USERBASE, or adds one and fails. */
  lemma StrandsWhen(root: nat, s: Brk, c: Call, s': Brk)
    requires Step(root, s, c, s')
    ensures Strands(root, s, c, s'.sz) <==> GivesUp(root, s, s'.sz) || AddsAstray(root, s, c)
  {
    SizeAfter(root, s, c, s');
    forall p: nat | Heap(p) && Adds(root, s, c, p)
      ensures Within(s'.sz, p) <==> USER_PAGE <= p && CanGrow(s.mem, root, c.room, s.sz, c.n)
    {
      AddsBelow(root, s, c, p);
      hide CanGrow;
      hide Vacant;
      hide GrowNeed;
    }
    hide Step;
    hide CanGrow;
    hide Adds;
    hide Heap;
    hide Within;
    hide HasPage;
  }

  /** The call adds a page below USERBASE, or adds one and fails. */
  ghost predicate AddsAstray(root: nat, s: Brk, c: Call) {
    exists p: nat ::
      Heap(p) && Adds(root, s, c, p) && (p < USER_PAGE || !CanGrow(s.mem, root, c.room, s.sz, c.n))
  }

  /** From USERBASE on the first page decides: it can be added, and not all can. */
  lemma AstrayWhen(root: nat, s: Brk, c: Call)
    requires USER_PAGE <= UpPage(s.sz)
    ensures AddsAstray(root, s, c)
            <==> !CanGrow(s.mem, root, c.room, s.sz, c.n) && Adds(root, s, c, UpPage(s.sz))
  {
    var first := UpPage(s.sz);
    hide CanGrow;
    if Adds(root, s, c, first) {
      AddsBelow(root, s, c, first);
      NotARegion(first);
      assert Heap(first);
    }
    forall p: nat | Adds(root, s, c, p)
      ensures USER_PAGE <= p && Adds(root, s, c, first)
    {
      AddsFirst(root, s, c, p);
    }
    hide Adds;
    hide Heap;
    hide UpPage;
  }

  lemma AddsFirst(root: nat, s: Brk, c: Call, p: nat)
    requires Adds(root, s, c, p)
    ensures Adds(root, s, c, UpPage(s.sz))
  {
    hide UpPage;
    hide Resized;
    Shorter(root, s.mem, c.room, UpPage(s.sz), 1, p + 1 - UpPage(s.sz));
  }

  /** A mapped heap page that the new size no longer covers. */
  ghost predicate GivesUp(root: nat, s: Brk, sz': nat) {
    exists p: nat :: Heap(p) && !Within(sz', p) && HasPage(root, s, p) && Within(s.sz, p)
  }

  // ------------------------------------------------------------------- whole runs

  ghost predicate StepAt(root: nat, r: seq<Brk>, cs: seq<Call>, i: nat)
    requires i + 1 < |r| && i < |cs|
  {
    Step(root, r[i], cs[i], r[i + 1])
  }

  /** Any run of calls, the size below 2^64 being all that is known of the start. */
  ghost predicate Run(root: nat, r: seq<Brk>, cs: seq<Call>) {
    |r| == |cs| + 1 && r[0].sz < WORD && forall i: nat :: i < |cs| ==> StepAt(root, r, cs, i)
  }

  ghost predicate AddsAt(root: nat, r: seq<Brk>, cs: seq<Call>, i: nat, p: nat)
    requires i < |r| && i < |cs|
  {
    Adds(root, r[i], cs[i], p)
  }

  /** Page p was there at the start or was added by one of the first j calls. */
  ghost predicate Ever(root: nat, r: seq<Brk>, cs: seq<Call>, j: nat, p: nat)
    requires |r| == |cs| + 1 && j <= |cs|
  {
    HasPage(root, r[0], p) || exists i: nat :: i < j && AddsAt(root, r, cs, i, p)
  }

  /** Over every run the map is what it was plus what the calls added. */
  lemma {:induction false} MapIs(root: nat, r: seq<Brk>, cs: seq<Call>, j: nat, p: nat)
    requires Run(root, r, cs) && j <= |cs| && p < PAGE_COUNT
    ensures r[j].sz < WORD && (HasPage(root, r[j], p) <==> Ever(root, r, cs, j, p))
    decreases j
  {
    hide Step;
    hide HasPage;
    hide Adds;
    if j > 0 {
      MapIs(root, r, cs, j - 1, p);
      assert StepAt(root, r, cs, j - 1);
      SizeAfter(root, r[j - 1], cs[j - 1], r[j]);
      AddsExact(root, r[j - 1], cs[j - 1], r[j], p);
      assert AddsAt(root, r, cs, j - 1, p) == Adds(root, r[j - 1], cs[j - 1], p);
    }
  }

  /** Over every run of calls, whatever their arguments and whatever becomes of the size: uvmfree
      can take the space down iff the size now covers every heap page that was ever there. */
  lemma TeardownIff(root: nat, r: seq<Brk>, cs: seq<Call>, j: nat)
    requires Run(root, r, cs) && j <= |cs|
    ensures Covers(root, r[j]) <==> forall p: nat :: Heap(p) && Ever(root, r, cs, j, p) ==> Within(r[j].sz, p)
  {
    MapIs(root, r, cs, j, 0);
    CoversIff(root, r[j]);
    forall p: nat | Heap(p)
      ensures HasPage(root, r[j], p) <==> Ever(root, r, cs, j, p)
    {
      MapIs(root, r, cs, j, p);
    }
    hide Ever;
    hide HasPage;
    hide Heap;
    hide Within;
    hide Covers;
  }

  ghost predicate StrandsAt(root: nat, r: seq<Brk>, cs: seq<Call>, i: nat)
    requires i + 1 < |r| && i < |cs|
  {
    Strands(root, r[i], cs[i], r[i + 1].sz)
  }

  /** Over every run in which no call asks for less than nothing: iff no call stranded a page. */
  lemma {:induction false} HeapTeardownIff(root: nat, r: seq<Brk>, cs: seq<Call>, j: nat)
    requires Run(root, r, cs) && j <= |cs| && r[0].sz <= HEAP_END && Covers(root, r[0])
    requires forall i: nat :: i < j ==> r[i].sz + cs[i].n >= 0
    ensures r[j].sz <= HEAP_END
    ensures Covers(root, r[j]) <==> forall i: nat :: i < j ==> !StrandsAt(root, r, cs, i)
    decreases j
  {
    hide Step;
    hide Strands;
    hide Covers;
    if j > 0 {
      HeapTeardownIff(root, r, cs, j - 1);
      assert StepAt(root, r, cs, j - 1);
      HeapStep(root, r[j - 1], cs[j - 1], r[j]);
      assert StrandsAt(root, r, cs, j - 1) == Strands(root, r[j - 1], cs[j - 1], r[j].sz);
    }
  }

  /** Over every run, once the size has wrapped below nothing: it covers all heap pages from
      USERBASE on, or, in the last page of the address space, none at all. */
  lemma WrappedTeardownIff(root: nat, r: seq<Brk>, cs: seq<Call>, j: nat)
    requires Run(root, r, cs) && j <= |cs| && r[j].sz > HEAP_END
    requires forall p: nat :: Heap(p) && HasPage(root, r[0], p) ==> p < STACK_PAGE
    ensures Covers(root, r[j])
            <==> forall p: nat :: Heap(p) && Ever(root, r, cs, j, p) ==> USER_PAGE <= p && r[j].sz <= TOP
  {
    TeardownIff(root, r, cs, j);
    MapIs(root, r, cs, j, 0);
    forall p: nat | Heap(p) && Ever(root, r, cs, j, p)
      ensures Within(r[j].sz, p) <==> USER_PAGE <= p && r[j].sz <= TOP
    {
      if !HasPage(root, r[0], p) {
        var i: nat :| i < j && AddsAt(root, r, cs, i, p);
        AddsBelow(root, r[i], cs[i], p);
      }
      WrappedSize(r[j].sz, p);
    }
    hide Ever;
    hide HasPage;
    hide Heap;
    hide Within;
    hide Covers;
  }

  lemma WrappedSize(sz: nat, p: nat)
    requires HEAP_END < sz < WORD && p < STACK_PAGE
    ensures Within(sz, p) <==> USER_PAGE <= p && sz <= TOP
  {
  }

  // -------------------------------------------------------------------- teardown

  /** In a space in order uvmfree's demands are met at every size, up to its leaves: those are
      in order too if all are covered, or if all grant some access. */
  lemma FreeReady(root: nat, sz: nat, mem: Memory, free: set<nat>, own: Owners, lo: nat, hi: nat)
    requires UserOk(root, mem, free, own, lo, hi) && sz < WORD
    ensures NoBare(mem, root) && UserNoTables(mem, root, sz, own) && UserDistinct(mem, root, sz, free)
    ensures AllCovered(mem, root, sz) || LeafyMap(mem, root) ==> LeafyOutside(mem, root, sz)
  {
    forall n: nat, f: nat | UserBacks(mem, root, sz, n, f)
      ensures UserBacks(mem, root, TOP, n, f)
    {
      UserRange(sz, n);
      UserRange(TOP, n);
    }
    hide UserBacks;
    hide Covered;
    hide Xlate;
  }

  lemma LeafyKept(mem: Memory, mem': Memory, root: nat, first: nat, k: nat)
    requires Extended(mem, mem', root, first, k) && LeafyMap(mem, root)
    ensures LeafyMap(mem', root)
  {
    hide Xlate;
  }

  /** Over every run all leaves go on granting some access. */
  lemma {:induction false} LeafyForever(root: nat, r: seq<Brk>, cs: seq<Call>, j: nat)
    requires Run(root, r, cs) && j <= |cs| && LeafyMap(r[0].mem, root)
    ensures LeafyMap(r[j].mem, root)
    decreases j
  {
    hide LeafyMap;
    hide Called;
    if j > 0 {
      LeafyForever(root, r, cs, j - 1);
      assert StepAt(root, r, cs, j - 1);
      var s, s', c := r[j - 1], r[j], cs[j - 1];
      var k: nat :| Called(root, s.mem, c.room, s.sz, s'.mem, s'.sz, c.n, k);
      CalledExtends(root, s, c, s', k);
      LeafyKept(s.mem, s'.mem, root, UpPage(s.sz), k);
    }
  }

  lemma CalledExtends(root: nat, s: Brk, c: Call, s': Brk, k: nat)
    requires Called(root, s.mem, c.room, s.sz, s'.mem, s'.sz, c.n, k)
    ensures Extended(s.mem, s'.mem, root, UpPage(s.sz), k)
  {
  }

  /** What uvmfree returns to the pool includes the trapframe iff the size reaches beyond its page;
      wait() then returns it again. */
  lemma TrapframeFreed(root: nat, sz: nat, mem: Memory, free: set<nat>, own: Owners, free': set<nat>, lo: nat, hi: nat,
                       f: nat)
    requires TornApart(root, sz, mem, free, own, free', lo, hi) && sz < WORD && f !in free && f !in own && lo <= f < hi
    requires Xlate(mem, root, TRAPFRAME_PAGE) != 0 && Ppn(Xlate(mem, root, TRAPFRAME_PAGE)) == f
    requires UserDistinct(mem, root, TOP, free)
    ensures f in free' <==> TRAPFRAME_PAGE < UpPage(sz)
  {
    UserRange(sz, TRAPFRAME_PAGE);
    UserRange(TOP, TRAPFRAME_PAGE);
    assert UserBacks(mem, root, TOP, TRAPFRAME_PAGE, f);
    assert InUser(sz, TRAPFRAME_PAGE) ==> UserBacks(mem, root, sz, TRAPFRAME_PAGE, f);
    forall n: nat | UserBacks(mem, root, sz, n, f)
      ensures n == TRAPFRAME_PAGE
    {
      UserRange(sz, n);
      UserRange(TOP, n);
      assert UserBacks(mem, root, TOP, n, f);
    }
  }

  // -------------------------------------------------------------------- examples

  /** A space with the first heap page mapped, or not, and nothing else. */
  function Small(leaf: nat): Memory {
    map[1 := Zeros()[2 := 2 * 1024 + 1], 2 := Zeros()[64 := 3 * 1024 + 1], 3 := Zeros()[0 := leaf]]
  }

  lemma SmallMap(leaf: nat, n: nat)
    requires n < PAGE_COUNT && (leaf == 0 || leaf % 2 == 1)
    ensures Xlate(Small(leaf), 1, n) == if n == USER_PAGE then leaf else 0
    ensures At(Small(leaf), 1, Mid(2)) == Some(2) && At(Small(leaf), 1, Low(2, 64)) == Some(3)
  {
    assert I2(USER_PAGE) == 2 && I1(USER_PAGE) == 64 && I0(USER_PAGE) == 0;
    if I2(n) == 2 && I1(n) == 64 && I0(n) == 0 {
      IndicesDetermine(n, USER_PAGE);
    }
  }

  const LEAF: nat := 4 * 1024 + 23

  lemma SmallCovers(leaf: nat, sz: nat)
    requires (leaf == 0 || leaf % 2 == 1) && sz < WORD
    ensures Covers(1, Brk(Small(leaf), sz)) <==> leaf == 0 || Within(sz, USER_PAGE)
  {
    var s := Brk(Small(leaf), sz);
    CoversIff(1, s);
    NotARegion(USER_PAGE);
    forall p: nat | p < PAGE_COUNT
      ensures HasPage(1, s, p) <==> p == USER_PAGE && leaf != 0
    {
      SmallMap(leaf, p);
    }
    assert Heap(USER_PAGE) && forall p: nat :: Heap(p) ==> p < PAGE_COUNT;
    hide Covers;
    hide HasPage;
    hide Small;
    hide Within;
    hide Heap;
  }

  lemma Shrinks(mem: Memory, root: nat, sz: nat, n: int)
    requires sz < WORD && -0x8000_0000 <= n <= 0
    ensures Step(root, Brk(mem, sz), Call(0, n), Brk(mem, (sz + n) % WORD))
  {
    ExtendedNone(mem, root, UpPage(sz));
    hide Extended;
    assert Called(root, mem, 0, sz, mem, (sz + n) % WORD, n, 0);
  }

  /** Giving up a mapped page strands it; two more calls wrap the size below nothing, and it is
      covered again. */
  lemma ShrinkStrands() returns (r: seq<Brk>, cs: seq<Call>)
    ensures cs == [Call(0, -0x1000), Call(0, -0x8000_0000), Call(0, -0x8000_0000)] && Run(1, r, cs)
    ensures r[0].sz == 0x8800_1000 && r[3].sz == 0xFFFF_FFFF_8800_0000
    ensures Covers(1, r[0]) && !Covers(1, r[1]) && !Covers(1, r[2]) && Covers(1, r[3])
  {
    var m := Small(LEAF);
    r := [Brk(m, 0x8800_1000), Brk(m, 0x8800_0000), Brk(m, 0x800_0000), Brk(m, 0xFFFF_FFFF_8800_0000)];
    cs := [Call(0, -0x1000), Call(0, -0x8000_0000), Call(0, -0x8000_0000)];
    Shrinks(m, 1, 0x8800_1000, -0x1000);
    Shrinks(m, 1, 0x8800_0000, -0x8000_0000);
    Shrinks(m, 1, 0x800_0000, -0x8000_0000);
    forall i: nat | i < 4
      ensures Covers(1, r[i]) <==> Within(r[i].sz, USER_PAGE)
    {
      SmallCovers(LEAF, r[i].sz);
    }
    hide Covers;
    hide Step;
    hide Small;
    forall i: nat | i < 3
      ensures StepAt(1, r, cs, i)
    {
      assert i == 0 || i == 1 || i == 2;
    }
  }

  /** With one free page, growing by two pages fails and strands the first. */
  lemma HalfGrown(s': Brk)
    requires Step(1, Brk(Small(0), USER_BASE), Call(1, 0x2000), s')
    ensures s'.sz == USER_BASE && Covers(1, Brk(Small(0), USER_BASE)) && !Covers(1, s')
  {
    hide *;
    var s, c := Brk(Small(0), USER_BASE), Call(1, 0x2000);
    HalfSizes();
    SmallCovers(0, USER_BASE);
    SizeAfter(1, s, c, s');
    HalfAdds();
    AstrayWhen(1, s, c);
    StrandsWhen(1, s, c, s');
    CoverStep(1, s, c, s');
  }

  lemma HalfSizes()
    ensures USER_BASE < WORD && UpPage(USER_BASE) == USER_PAGE && Resized(USER_BASE, 0x2000) == USER_BASE + 0x2000
    ensures UpPage(USER_BASE + 0x2000) == USER_PAGE + 2 && USER_BASE + 0x2000 < HEAP_END
    ensures GrowPages(USER_BASE, 0x2000) == 2
  {
  }

  lemma HalfAdds()
    ensures !CanGrow(Small(0), 1, 1, USER_BASE, 0x2000)
    ensures Adds(1, Brk(Small(0), USER_BASE), Call(1, 0x2000), USER_PAGE)
  {
    HalfSizes();
    SmallNeed();
    SmallVacant();
    hide Small;
    hide UpPage;
    hide Resized;
    hide GrowPages;
    hide GrowNeed;
    hide Vacant;
  }

  lemma SmallVacant()
    ensures Vacant(Small(0), 1, USER_PAGE, 1)
  {
    SmallMap(0, USER_PAGE);
    hide Small;
    hide Xlate;
  }

  /** All tables on the way are there. */
  lemma SmallNeed()
    ensures GrowNeed(Small(0), 1, USER_PAGE, 1) == 1 && GrowNeed(Small(0), 1, USER_PAGE, 2) == 2
  {
    var m := Small(0);
    NoNewTables(USER_PAGE);
    NoNewTables(USER_PAGE + 1);
    hide Small;
    hide NewTables;
    assert TableNeed(m, 1, USER_PAGE, 0) == 0;
    assert TableNeed(m, 1, USER_PAGE, 1) == TableNeed(m, 1, USER_PAGE, 0) + NewTables(m, 1, USER_PAGE, USER_PAGE);
    assert TableNeed(m, 1, USER_PAGE, 2) == TableNeed(m, 1, USER_PAGE, 1) + NewTables(m, 1, USER_PAGE, USER_PAGE + 1);
  }

  lemma NoNewTables(n: nat)
    requires n == USER_PAGE || n == USER_PAGE + 1
    ensures NewTables(Small(0), 1, USER_PAGE, n) == 0
  {
    SmallMap(0, USER_PAGE);
    hide Small;
    assert I2(n) == 2 && I1(n) == 64;
  }
}
