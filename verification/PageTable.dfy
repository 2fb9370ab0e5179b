/**
  The three-level page tables of kernelspace/mm/pagetable.c (Sv39) as values: physical
  memory maps a frame number to the 512 entries of that frame, and a tree of tables
  denotes a partial map from page numbers to leaf entries.
 */
module PageTable {
  import opened Wrappers

  /** An entry is ppn * 1024 + flags; bit 0 is V, bits 1-3 are R, W, X, bit 4 is U. */
  predicate Valid(e: nat) { e % 2 == 1 }

  predicate HasRWX(e: nat) { e / 2 % 8 != 0 }

  /** An entry grants access iff one of the bits R, W and X is set. */
  lemma AccessBits(e: nat)
    ensures HasRWX(e) <==> e / 2 % 2 == 1 || e / 4 % 2 == 1 || e / 8 % 2 == 1
  {
    assert e / 4 == e / 2 / 2 && e / 8 == e / 2 / 4;
    ThreeBits(e / 2);
  }

  lemma ThreeBits(x: nat)
    ensures x % 8 != 0 <==> x % 2 == 1 || x / 2 % 2 == 1 || x / 4 % 2 == 1
  {
    var q, y := x / 8, x % 8;
    assert x == 2 * (4 * q) + y && x / 2 == 2 * (2 * q) + y / 2 && x / 4 == 2 * q + y / 4;
  }

  function Flags(e: nat): nat { e % 1024 }

  function Ppn(e: nat): nat { e / 1024 }

  /** perm | PTE_V. */
  function SetV(perm: nat): (f: nat)
    ensures f % 2 == 1 && f / 2 == perm / 2
  {
    if perm % 2 == 1 then perm else perm + 1
  }

  /** PA2PTE(pa) | perm | PTE_V. */
  function Entry(ppn: nat, perm: nat): (e: nat)
    requires perm < 1024
  {
    ppn * 1024 + SetV(perm)
  }

  lemma EntryFields(ppn: nat, perm: nat)
    requires perm < 1024
    ensures var e := Entry(ppn, perm);
            Valid(e) && Ppn(e) == ppn && (HasRWX(e) <==> HasRWX(perm)) && (Flags(e) == 1 <==> perm <= 1)
  {
    var f := SetV(perm);
    Fields(ppn, f);
    Halves(ppn * 512 + f / 2, ppn * 1024 + f);
    Eights(ppn * 64, f / 2);
  }

  lemma Fields(q: nat, f: nat)
    requires f < 1024
    ensures (q * 1024 + f) / 1024 == q && (q * 1024 + f) % 1024 == f
  {
  }

  lemma Halves(g: nat, e: nat)
    requires e == 2 * g + 1
    ensures e / 2 == g && e % 2 == 1
  {
  }

  lemma Eights(q: nat, g: nat)
    ensures (q * 8 + g) % 8 == g % 8
  {
  }

  type Memory = map<nat, seq<nat>>

  ghost predicate Pages(mem: Memory) {
    forall f: nat :: f in mem ==> |mem[f]| == 512
  }

  function Zeros(): (s: seq<nat>)
    ensures |s| == 512 && forall i :: 0 <= i < 512 ==> s[i] == 0
  {
    seq(512, _ => 0)
  }

  // ---------------------------------------------------------------------- the tree

  /** Where a table hangs: the root, entry i of the root, entry j of that. */
  datatype Path = Root | Mid(i: nat) | Low(i: nat, j: nat)

  predicate Bounded(p: Path) {
    match p
    case Root => true
    case Mid(i) => i < 512
    case Low(i, j) => i < 512 && j < 512
  }

  function Ext(p: Path, i: nat): Path {
    match p
    case Root => Mid(i)
    case Mid(k) => Low(k, i)
    case Low(k, j) => Low(k, j)
  }

  function Sub(mem: Memory, f: nat, i: nat): Option<nat>
  {
    if f in mem && i < |mem[f]| && Valid(mem[f][i]) then Some(Ppn(mem[f][i])) else None
  }

  /** The table at a path. */
  function At(mem: Memory, root: nat, p: Path): Option<nat>
  {
    match p
    case Root => Some(root)
    case Mid(i) => Sub(mem, root, i)
    case Low(i, j) =>
      match Sub(mem, root, i)
      case None => None
      case Some(g) => Sub(mem, g, j)
  }

  type Owners = map<nat, Path>

  /** `own` lists the table pages, each under the one path that leads to it. */
  ghost predicate Tree(mem: Memory, root: nat, own: Owners) {
    && Pages(mem)
    && (forall f: nat :: f in own ==> f in mem && Bounded(own[f]) && At(mem, root, own[f]) == Some(f))
    && (forall p: Path :: Bounded(p) && At(mem, root, p).Some? ==>
          At(mem, root, p).value in own && own[At(mem, root, p).value] == p)
  }

  /** Entries of the upper tables are plain pointers. */
  ghost predicate Pointers(mem: Memory, own: Owners) {
    forall f: nat, i: nat :: f in own && f in mem && !own[f].Low? && i < |mem[f]| && Valid(mem[f][i]) ==>
      !HasRWX(mem[f][i])
  }

  // --------------------------------------------------------------- the partial map

  const PAGE_COUNT: nat := 0x800_0000

  function I2(n: nat): (r: nat) ensures r < 512 { n / 0x40000 % 512 }
  function I1(n: nat): (r: nat) ensures r < 512 { n / 512 % 512 }
  function I0(n: nat): (r: nat) ensures r < 512 { n % 512 }

  function LowOf(n: nat): (p: Path) ensures Bounded(p) { Low(I2(n), I1(n)) }

  /** The leaf entry of page n, or 0 when n is not mapped. */
  function Xlate(mem: Memory, root: nat, n: nat): nat
  {
    match At(mem, root, LowOf(n))
    case None => 0
    case Some(f) => if f in mem && I0(n) < |mem[f]| && Valid(mem[f][I0(n)]) then mem[f][I0(n)] else 0
  }

  lemma IndicesDetermine(n: nat, m: nat)
    requires n < PAGE_COUNT && m < PAGE_COUNT && I2(n) == I2(m) && I1(n) == I1(m) && I0(n) == I0(m)
    ensures n == m
  {
    assert n / 512 == n / 0x40000 * 512 + n / 512 % 512;
    assert m / 512 == m / 0x40000 * 512 + m / 512 % 512;
  }

  /** Every triple of indices is the one of a page. */
  lemma PageAt(i: nat, j: nat, k: nat) returns (n: nat)
    requires i < 512 && j < 512 && k < 512
    ensures n < PAGE_COUNT && I2(n) == i && I1(n) == j && I0(n) == k
  {
    n := i * 0x40000 + j * 512 + k;
    var m := i * 512 + j;
    assert n == m * 512 + k;
    assert n / 512 == m && n % 512 == k;
    assert m / 512 == i && m % 512 == j;
    assert n / 0x40000 == n / 512 / 512;
  }

  /** Distinct pages never share a PTE slot. */
  lemma SlotsDistinct(mem: Memory, root: nat, own: Owners, n: nat, m: nat)
    requires Tree(mem, root, own) && n < PAGE_COUNT && m < PAGE_COUNT && n != m
    requires At(mem, root, LowOf(n)).Some? && At(mem, root, LowOf(m)).Some?
    ensures At(mem, root, LowOf(n)) != At(mem, root, LowOf(m)) || I0(n) != I0(m)
  {
    if At(mem, root, LowOf(n)) == At(mem, root, LowOf(m)) && I0(n) == I0(m) {
      assert LowOf(n) == LowOf(m);
      IndicesDetermine(n, m);
    }
  }

  ghost predicate SameMap(mem: Memory, mem': Memory, root: nat)
  {
    forall n: nat :: n < PAGE_COUNT ==> Xlate(mem', root, n) == Xlate(mem, root, n)
  }

  // ---------------------------------------------------------------- writing a leaf

  function WithEntry(mem: Memory, f: nat, i: nat, e: nat): (r: Memory)
    requires Pages(mem) && f in mem && i < 512
    ensures Pages(r) && r.Keys == mem.Keys
    ensures r[f] == mem[f][i := e] && forall g: nat :: g in mem && g != f ==> r[g] == mem[g]
  {
    var page: seq<nat> := mem[f][i := e];
    mem[f := page]
  }

  /** Writing into a last-level table moves no table. */
  lemma LeafKeepsPaths(mem: Memory, root: nat, own: Owners, f: nat, k: nat, e: nat)
    requires Tree(mem, root, own) && f in own && own[f].Low? && k < 512
    ensures forall p: Path :: Bounded(p) ==> At(WithEntry(mem, f, k, e), root, p) == At(mem, root, p)
  {
    assert At(mem, root, Root) == Some(root);
    forall p: Path | Bounded(p)
      ensures At(WithEntry(mem, f, k, e), root, p) == At(mem, root, p)
    {
      if p.Low? {
        assert At(mem, root, Mid(p.i)).Some? ==> own[At(mem, root, Mid(p.i)).value] == Mid(p.i);
      }
    }
  }

  lemma LeafKeepsTree(mem: Memory, root: nat, own: Owners, f: nat, k: nat, e: nat)
    requires Tree(mem, root, own) && Pointers(mem, own) && f in own && own[f].Low? && k < 512
    ensures Tree(WithEntry(mem, f, k, e), root, own) && Pointers(WithEntry(mem, f, k, e), own)
  {
    LeafKeepsPaths(mem, root, own, f, k, e);
    hide At;
    hide HasRWX;
    hide Valid;
  }

  /** Writing a leaf slot changes the translation of exactly one page. */
  lemma LeafWrite(mem: Memory, root: nat, own: Owners, f: nat, n: nat, e: nat)
    requires Tree(mem, root, own) && f in own && n < PAGE_COUNT && own[f] == LowOf(n)
    requires Valid(e) || e == 0
    ensures var mem' := WithEntry(mem, f, I0(n), e);
            forall m: nat :: m < PAGE_COUNT ==> Xlate(mem', root, m) == if m == n then e else Xlate(mem, root, m)
  {
    var mem' := WithEntry(mem, f, I0(n), e);
    LeafKeepsPaths(mem, root, own, f, I0(n), e);
    hide At;
    hide Bounded;
    forall m: nat | m < PAGE_COUNT
      ensures Xlate(mem', root, m) == if m == n then e else Xlate(mem, root, m)
    {
      if m != n && At(mem, root, LowOf(m)) == Some(f) {
        if I0(m) == I0(n) {
          IndicesDetermine(n, m);
        }
      }
    }
  }

  // -------------------------------------------------------------- hanging a new table

  /** A zeroed page t becomes the table behind entry i of table g. */
  function WithTable(mem: Memory, g: nat, i: nat, t: nat): (r: Memory)
    requires Pages(mem) && g in mem && t in mem && i < 512
    ensures Pages(r) && r.Keys == mem.Keys
  {
    WithEntry(mem[t := Zeros()], g, i, Entry(t, 0))
  }

  ghost predicate Hangs(mem: Memory, root: nat, own: Owners, g: nat, i: nat, t: nat) {
    && Tree(mem, root, own) && g in own && !own[g].Low? && i < 512
    && !Valid(mem[g][i]) && t in mem && t !in own
  }

  lemma HangPaths(mem: Memory, root: nat, own: Owners, g: nat, i: nat, t: nat)
    requires Hangs(mem, root, own, g, i, t)
    ensures forall p: Path :: Bounded(p) ==>
              At(WithTable(mem, g, i, t), root, p) == if p == Ext(own[g], i) then Some(t) else At(mem, root, p)
    ensures At(mem, root, Ext(own[g], i)) == None
  {
    var mem' := WithTable(mem, g, i, t);
    assert At(mem, root, Root) == Some(root);
    assert At(mem, root, own[g]) == Some(g);
    HangSub(mem, g, i, t);
    forall p: Path | Bounded(p)
      ensures At(mem', root, p) == if p == Ext(own[g], i) then Some(t) else At(mem, root, p)
    {
      if p.Low? {
        assert At(mem, root, Mid(p.i)).Some? ==> own[At(mem, root, Mid(p.i)).value] == Mid(p.i);
      }
    }
  }

  lemma HangSub(mem: Memory, g: nat, i: nat, t: nat)
    requires Pages(mem) && g in mem && t in mem && g != t && i < 512
    ensures var mem' := WithTable(mem, g, i, t);
            forall f: nat, k: nat :: k < 512 ==>
              Sub(mem', f, k) == if f == g && k == i then Some(t) else if f == t then None else Sub(mem, f, k)
  {
    EntryFields(t, 0);
    hide Entry;
  }

  lemma HangKeepsTree(mem: Memory, root: nat, own: Owners, g: nat, i: nat, t: nat)
    requires Hangs(mem, root, own, g, i, t)
    ensures Tree(WithTable(mem, g, i, t), root, own[t := Ext(own[g], i)])
  {
    HangPaths(mem, root, own, g, i, t);
    hide At;
    hide WithTable;
    var own' := own[t := Ext(own[g], i)];
    var mem' := WithTable(mem, g, i, t);
    forall p: Path | Bounded(p) && At(mem', root, p).Some?
      ensures At(mem', root, p).value in own' && own'[At(mem', root, p).value] == p
    {
    }
  }

  lemma HangKeepsPointers(mem: Memory, root: nat, own: Owners, g: nat, i: nat, t: nat)
    requires Hangs(mem, root, own, g, i, t) && Pointers(mem, own)
    ensures Pointers(WithTable(mem, g, i, t), own[t := Ext(own[g], i)])
  {
    EntryFields(t, 0);
    hide Entry;
    hide Valid;
    hide Tree;
    hide HasRWX;
  }

  /** Creating a table changes no translation. */
  lemma HangKeepsMap(mem: Memory, root: nat, own: Owners, g: nat, i: nat, t: nat)
    requires Hangs(mem, root, own, g, i, t)
    ensures SameMap(mem, WithTable(mem, g, i, t), root)
  {
    var mem' := WithTable(mem, g, i, t);
    HangPaths(mem, root, own, g, i, t);
    assert !Valid(0);
    hide At;
    hide Valid;
    forall n: nat | n < PAGE_COUNT
      ensures Xlate(mem', root, n) == Xlate(mem, root, n)
    {
      var p := LowOf(n);
      if p != Ext(own[g], i) && At(mem, root, p).Some? {
        var f := At(mem, root, p).value;
        assert own[f] == p && f != t && f != g;
      }
    }
  }

  // -------------------------------------------------------------- dropping a table

  /** Entry i of table g leads to an empty table c: clearing the entry takes exactly c
      out of the tree. */
  ghost predicate Drops(mem: Memory, root: nat, own: Owners, g: nat, i: nat, c: nat) {
    && Tree(mem, root, own) && g in own && !own[g].Low? && i < 512
    && c in own && own[c] == Ext(own[g], i)
    && forall k: nat :: k < 512 ==> !Valid(mem[c][k])
  }

  lemma DropPaths(mem: Memory, root: nat, own: Owners, g: nat, i: nat, c: nat)
    requires Drops(mem, root, own, g, i, c)
    ensures forall p: Path :: Bounded(p) ==>
              At(WithEntry(mem, g, i, 0), root, p) == if p == own[c] then None else At(mem, root, p)
    ensures At(mem, root, own[c]) == Some(c)
  {
    var mem' := WithEntry(mem, g, i, 0);
    assert At(mem, root, Root) == Some(root);
    assert At(mem, root, own[g]) == Some(g);
    assert At(mem, root, own[c]) == Some(c);
    forall p: Path | Bounded(p)
      ensures At(mem', root, p) == if p == own[c] then None else At(mem, root, p)
    {
      if p.Low? {
        assert At(mem, root, Mid(p.i)).Some? ==> own[At(mem, root, Mid(p.i)).value] == Mid(p.i);
      }
    }
  }

  lemma DropKeepsTree(mem: Memory, root: nat, own: Owners, g: nat, i: nat, c: nat)
    requires Drops(mem, root, own, g, i, c) && Pointers(mem, own)
    ensures Tree(WithEntry(mem, g, i, 0), root, own - {c})
    ensures Pointers(WithEntry(mem, g, i, 0), own - {c})
  {
    DropPaths(mem, root, own, g, i, c);
    hide At;
    hide HasRWX;
  }

  // ---------------------------------------------------------------- other address spaces

  /** Whatever is written outside the table pages of a tree leaves its map alone. */
  lemma OtherTreeSame(mem: Memory, mem': Memory, root: nat, own: Owners)
    requires Tree(mem, root, own) && Pages(mem') && mem'.Keys == mem.Keys
    requires forall f: nat :: f in own ==> mem'[f] == mem[f]
    ensures Tree(mem', root, own) && SameMap(mem, mem', root)
    ensures forall p: Path :: Bounded(p) ==> At(mem', root, p) == At(mem, root, p)
  {
    assert At(mem, root, Root) == Some(root);
    forall p: Path | Bounded(p)
      ensures At(mem', root, p) == At(mem, root, p)
    {
      if p.Low? {
        assert At(mem, root, Mid(p.i)).Some? ==> At(mem, root, Mid(p.i)).value in own;
      }
    }
    hide At;
    forall n: nat | n < PAGE_COUNT
      ensures Xlate(mem', root, n) == Xlate(mem, root, n)
    {
      assert At(mem, root, LowOf(n)).Some? ==> At(mem, root, LowOf(n)).value in own;
    }
  }
}
