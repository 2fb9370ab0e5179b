/**
  What mapping costs: how many free pages walk, mappages and growproc turn into tables, read
  off the tree before the call.
 */
module PageCost {
  import opened PageTable

  /** The table that walk reaches for page n once `level` levels are left. */
  function PathAt(n: nat, level: nat): (p: Path)
    ensures Bounded(p)
  {
    if level >= 2 then Root else if level == 1 then Mid(I2(n)) else LowOf(n)
  }

  /** The tables are those of before and the one at q. */
  ghost predicate AddsTable(mem0: Memory, mem: Memory, root: nat, q: Path) {
    forall p: Path :: Bounded(p) ==> (At(mem, root, p).Some? <==> At(mem0, root, p).Some? || p == q)
  }

  ghost function CostOf(mem: Memory, root: nat, q: Path): nat {
    if At(mem, root, q).Some? then 0 else 1
  }

  /** One level of walk: a missing table was paid for with a free page. */
  ghost predicate Paid(mem0: Memory, free0: set<nat>, mem: Memory, free: set<nat>, root: nat, q: Path) {
    AddsTable(mem0, mem, root, q) && |free| + CostOf(mem0, root, q) == |free0|
  }

  /** The tables missing on the way to page n, down to `level`. */
  ghost function Missing(mem: Memory, root: nat, n: nat, level: nat): nat {
    (if level < 2 then CostOf(mem, root, Mid(I2(n))) else 0) + (if level < 1 then CostOf(mem, root, LowOf(n)) else 0)
  }

  /** walk down to `level`: the tables on the way exist, and the missing ones were paid for. */
  ghost predicate Reached(mem0: Memory, free0: set<nat>, mem: Memory, free: set<nat>, root: nat, n: nat, level: nat) {
    && (forall p: Path :: Bounded(p) ==>
          (At(mem, root, p).Some?
           <==> At(mem0, root, p).Some? || (level < 2 && p == Mid(I2(n))) || (level < 1 && p == LowOf(n))))
    && |free| + Missing(mem0, root, n, level) == |free0|
  }

  lemma ReachedStart(mem: Memory, free: set<nat>, root: nat, n: nat)
    ensures Reached(mem, free, mem, free, root, n, 2)
  {
  }

  lemma ReachedNext(mem0: Memory, free0: set<nat>, mem1: Memory, free1: set<nat>, mem: Memory, free: set<nat>,
                    root: nat, n: nat, level: nat)
    requires Reached(mem0, free0, mem1, free1, root, n, level) && 0 < level <= 2
    requires Paid(mem1, free1, mem, free, root, PathAt(n, level - 1))
    ensures Reached(mem0, free0, mem, free, root, n, level - 1)
  {
    hide At;
  }

  /** A table that cannot be made is one too many. */
  lemma ReachedNoFurther(mem0: Memory, free0: set<nat>, mem: Memory, free: set<nat>, root: nat, n: nat, level: nat)
    requires Reached(mem0, free0, mem, free, root, n, level) && 0 < level <= 2
    requires At(mem, root, PathAt(n, level - 1)).None? && free == {}
    ensures |free0| < Missing(mem0, root, n, 0)
  {
    NoLowWithoutMid(mem0, root, n);
    hide At;
  }

  lemma NoLowWithoutMid(mem: Memory, root: nat, n: nat)
    ensures At(mem, root, Mid(I2(n))).None? ==> At(mem, root, LowOf(n)).None?
  {
  }

  // ----------------------------------------------------------------------- ranges

  /** The table at p is on the way to one of the k pages from `first`. */
  predicate OnTheWay(first: nat, k: nat, p: Path) {
    k > 0 && match p
             case Root => false
             case Mid(i) => I2(first) <= i <= I2(first + k - 1)
             case Low(i, j) => first / 512 <= i * 512 + j <= (first + k - 1) / 512
  }

  /** The tables needed first for page n, when the pages from `first` come in order. */
  ghost function NewTables(mem: Memory, root: nat, first: nat, n: nat): nat {
    (if n == first || n % 0x40000 == 0 then CostOf(mem, root, Mid(I2(n))) else 0)
    + (if n == first || n % 512 == 0 then CostOf(mem, root, LowOf(n)) else 0)
  }

  /** The tables missing for the k pages from `first`. */
  ghost function TableNeed(mem: Memory, root: nat, first: nat, k: nat): nat {
    if k == 0 then 0 else TableNeed(mem, root, first, k - 1) + NewTables(mem, root, first, first + k - 1)
  }

  /** After k pages: exactly the tables on the way were added. */
  ghost predicate Tabled(mem0: Memory, mem: Memory, root: nat, first: nat, k: nat) {
    forall p: Path :: Bounded(p) ==> (At(mem, root, p).Some? <==> At(mem0, root, p).Some? || OnTheWay(first, k, p))
  }

  lemma TabledNone(mem: Memory, root: nat, first: nat)
    ensures Tabled(mem, mem, root, first, 0)
  {
  }

  lemma PageIndex(n: nat)
    requires n < PAGE_COUNT
    ensures I2(n) == n / 0x40000 && I2(n) * 512 + I1(n) == n / 512
  {
    assert n / 512 == n / 0x40000 * 512 + n / 512 % 512;
  }

  /** One page more, one pair of tables more. */
  lemma WayMore(first: nat, k: nat, p: Path)
    requires first + k < PAGE_COUNT && Bounded(p)
    ensures OnTheWay(first, k + 1, p) <==> OnTheWay(first, k, p) || p == Mid(I2(first + k)) || p == LowOf(first + k)
  {
    var n := first + k;
    PageIndex(n);
    PageIndex(first);
    if k > 0 {
      PageIndex(n - 1);
    }
    hide I1;
    hide I2;
    match p
    case Root =>
    case Mid(i) =>
    case Low(i, j) =>
      LowIndex(i, j, n);
  }

  lemma LowIndex(i: nat, j: nat, n: nat)
    requires i < 512 && j < 512 && n < PAGE_COUNT
    ensures i * 512 + j == n / 512 <==> i == I2(n) && j == I1(n)
  {
    PageIndex(n);
  }

  /** The tables of page first + k are already there exactly if an earlier page shares them. */
  lemma WayOfNext(first: nat, k: nat)
    requires first + k < PAGE_COUNT
    ensures OnTheWay(first, k, Mid(I2(first + k))) <==> k > 0 && (first + k) % 0x40000 != 0
    ensures OnTheWay(first, k, LowOf(first + k)) <==> k > 0 && (first + k) % 512 != 0
  {
    var n := first + k;
    PageIndex(n);
    PageIndex(first);
    if k > 0 {
      PageIndex(n - 1);
      SameBlock(n, 512);
      SameBlock(n, 0x40000);
    }
    hide I1;
    hide I2;
  }

  lemma SameBlock(n: nat, m: nat)
    requires n > 0 && (m == 512 || m == 0x40000)
    ensures (n - 1) / m == n / m <==> n % m != 0
    ensures (n - 1) / m <= n / m
  {
  }

  /** What the next page costs in the tree so far, in terms of the tree at first. */
  lemma NextCost(mem0: Memory, mem: Memory, root: nat, first: nat, k: nat)
    requires Tabled(mem0, mem, root, first, k) && first + k < PAGE_COUNT
    ensures Missing(mem, root, first + k, 0) == NewTables(mem0, root, first, first + k)
  {
    WayOfNext(first, k);
    hide OnTheWay;
    hide At;
  }

  lemma TabledMore(mem0: Memory, free1: set<nat>, mem1: Memory, mem: Memory, free: set<nat>, root: nat, first: nat,
                   k: nat)
    requires Tabled(mem0, mem1, root, first, k) && first + k < PAGE_COUNT
    requires Reached(mem1, free1, mem, free, root, first + k, 0)
    ensures Tabled(mem0, mem, root, first, k + 1)
    ensures |free| + NewTables(mem0, root, first, first + k) == |free1|
  {
    NextCost(mem0, mem1, root, first, k);
    hide NewTables;
    hide Missing;
    forall p: Path | Bounded(p)
      ensures At(mem, root, p).Some? <==> At(mem0, root, p).Some? || OnTheWay(first, k + 1, p)
    {
      WayMore(first, k, p);
    }
  }
}
