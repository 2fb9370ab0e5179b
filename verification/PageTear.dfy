/**
  Tearing down a tree of page tables, entry by entry, as freewalk does: what is left of
  the tree after the first entries of a table have been worked off.
 */
module PageTear {
  import opened Wrappers
  import opened PageTable

  /** p lies strictly below path. */
  predicate Strict(path: Path, p: Path) {
    match path
    case Root => !p.Root?
    case Mid(i) => p.Low? && p.i == i
    case Low(_, _) => false
  }

  /** The entry through which a path strictly below goes. */
  function Branch(path: Path, p: Path): nat {
    match p
    case Root => 0
    case Mid(i) => i
    case Low(i, j) => if path.Root? then i else j
  }

  /** p hangs on one of the first i entries of path. */
  predicate Cut(path: Path, p: Path, i: nat) {
    Strict(path, p) && Branch(path, p) < i
  }

  function Without(own: Owners, path: Path, i: nat): Owners {
    map g: nat | g in own && !Cut(path, own[g], i) :: own[g]
  }

  function Height(p: Path): nat {
    match p
    case Root => 2
    case Mid(_) => 1
    case Low(_, _) => 0
  }

  /** The first i entries of table f have been torn down. */
  ghost predicate Torn(mem0: Memory, own0: Owners, mem: Memory, own: Owners, f: nat, i: nat)
    requires Pages(mem0) && Pages(mem) && f in own0 && f in mem0
  {
    own == Without(own0, own0[f], i) && TornPages(mem0, own0, mem, f, i)
  }

  ghost predicate TornPages(mem0: Memory, own0: Owners, mem: Memory, f: nat, i: nat)
    requires Pages(mem0) && Pages(mem) && f in own0 && f in mem0
  {
    && mem.Keys == mem0.Keys
    && (forall k: nat :: k < i && k < 512 ==> !Valid(mem[f][k]))
    && (forall k: nat :: i <= k < 512 ==> mem[f][k] == mem0[f][k])
    && (forall g: nat :: g in mem && g != f && (g in own0 ==> !Cut(own0[f], own0[g], i)) ==> mem[g] == mem0[g])
  }

  /** A valid leaf in slot k of table g, within the first i entries of path. */
  ghost predicate LeafAt(mem: Memory, own: Owners, path: Path, i: nat, g: nat, k: nat)
  {
    && g in own && g in mem && own[g].Low? && k < |mem[g]| && Valid(mem[g][k])
    && ((own[g] == path && k < i) || Cut(path, own[g], i))
  }

  ghost predicate NoLeaf(mem: Memory, own: Owners, path: Path, i: nat)
  {
    forall g: nat, k: nat :: !LeafAt(mem, own, path, i, g, k)
  }

  /** Every leaf grants some access, so freewalk does not take it for a pointer. */
  ghost predicate Leafy(mem: Memory, own: Owners)
  {
    forall g: nat, k: nat :: g in own && g in mem && own[g].Low? && k < |mem[g]| && Valid(mem[g][k]) ==>
      HasRWX(mem[g][k])
  }

  /** An invalid entry has nothing below it. */
  lemma SkipEntry(mem0: Memory, root: nat, own0: Owners, mem: Memory, own: Owners, f: nat, i: nat)
    requires Tree(mem0, root, own0) && f in own0 && i < 512 && Pages(mem)
    requires Torn(mem0, own0, mem, own, f, i) && !Valid(mem[f][i])
    ensures Torn(mem0, own0, mem, own, f, i + 1) && !Valid(mem0[f][i])
  {
    NothingBelow(mem0, root, own0, f, i);
    assert mem0[f][i] == mem[f][i];
    hide Tree;
    hide Valid;
    hide Strict;
    hide Branch;
    assert forall g: nat :: g in own0 ==> (Cut(own0[f], own0[g], i + 1) <==> Cut(own0[f], own0[g], i));
    hide Cut;
  }

  lemma SkipLeaf(mem: Memory, root: nat, own: Owners, f: nat, i: nat)
    requires Tree(mem, root, own) && f in own && i < 512 && !Valid(mem[f][i])
    requires NoLeaf(mem, own, own[f], i)
    ensures NoLeaf(mem, own, own[f], i + 1)
  {
    NothingBelow(mem, root, own, f, i);
    LastSlot(mem, root, own, f, i);
    hide Tree;
    hide Valid;
    hide Strict;
    hide Branch;
    var j := i + 1;
    forall g: nat, k: nat
      ensures !LeafAt(mem, own, own[f], j, g, k)
    {
      assert !LeafAt(mem, own, own[f], i, g, k);
    }
  }

  lemma NothingBelow(mem: Memory, root: nat, own: Owners, f: nat, i: nat)
    requires Tree(mem, root, own) && f in own && i < 512 && !Valid(mem[f][i])
    ensures forall g: nat :: g in own && Strict(own[f], own[g]) ==> Branch(own[f], own[g]) != i
  {
    assert At(mem, root, own[f]) == Some(f);
    forall g: nat | g in own && Strict(own[f], own[g])
      ensures Branch(own[f], own[g]) != i
    {
      assert At(mem, root, own[g]) == Some(g);
    }
  }

  /** Among the tables at f's own path there is only f. */
  lemma LastSlot(mem: Memory, root: nat, own: Owners, f: nat, i: nat)
    requires Tree(mem, root, own) && f in own && i < 512
    ensures forall g: nat :: g in own && own[g] == own[f] ==> g == f
  {
    assert At(mem, root, own[f]) == Some(f);
    hide At;
  }

  /** Below an entry's table is the same as strictly below, through that entry. */
  lemma BelowEntry(path: Path, i: nat, p: Path)
    requires !path.Low?
    ensures (p == Ext(path, i) || Strict(Ext(path, i), p)) <==> (Strict(path, p) && Branch(path, p) == i)
  {
  }

  /** Tearing down the child and clearing its entry finishes one more entry. */
  lemma CutEntry(mem0: Memory, root: nat, own0: Owners, mem1: Memory, own1: Owners, mem2: Memory, own2: Owners, f: nat,
                 i: nat, c: nat)
    requires Tree(mem0, root, own0) && f in own0 && i < 512 && !own0[f].Low? && Pages(mem1) && Pages(mem2)
    requires Torn(mem0, own0, mem1, own1, f, i) && c in own1 && own1[c] == Ext(own0[f], i) && c in mem1
    requires Torn(mem1, own1, mem2, own2, c, 512)
    ensures f in mem2 && Torn(mem0, own0, WithEntry(mem2, f, i, 0), own2 - {c}, f, i + 1)
  {
    LastSlot(mem0, root, own0, c, i);
    CutOne(own0, f, i, c);
    hide Tree;
    hide Cut;
    hide TornPages;
    CutOwners(own0, own1, own2, f, i, c);
    assert f in mem2 by {
      assert TornPages(mem0, own0, mem1, f, i) && TornPages(mem1, own1, mem2, c, 512);
      ReadPages(mem0, own0, mem1, f, i);
      ReadPages(mem1, own1, mem2, c, 512);
    }
    CutPages(mem0, own0, mem1, own1, mem2, f, i, c);
  }

  lemma ReadPages(mem0: Memory, own0: Owners, mem: Memory, f: nat, i: nat)
    requires Pages(mem0) && Pages(mem) && f in own0 && f in mem0 && TornPages(mem0, own0, mem, f, i)
    ensures mem.Keys == mem0.Keys
  {
  }

  lemma CutOwners(own0: Owners, own1: Owners, own2: Owners, f: nat, i: nat, c: nat)
    requires f in own0 && c in own0 && own1 == Without(own0, own0[f], i) && c in own1
    requires own2 == Without(own1, own1[c], 512)
    requires forall g: nat :: g in own0 ==>
                (Cut(own0[f], own0[g], i + 1) <==> Cut(own0[f], own0[g], i) || g == c || Cut(own0[c], own0[g], 512))
    ensures own2 - {c} == Without(own0, own0[f], i + 1)
  {
    hide Cut;
  }

  lemma CutPages(mem0: Memory, own0: Owners, mem1: Memory, own1: Owners, mem2: Memory, f: nat, i: nat, c: nat)
    requires Pages(mem0) && Pages(mem1) && Pages(mem2) && f in own0 && f in mem0 && c in own0 && i < 512 && f != c
    requires TornPages(mem0, own0, mem1, f, i) && own1 == Without(own0, own0[f], i) && c in own1 && c in mem1
    requires f in mem2
    requires TornPages(mem1, own1, mem2, c, 512)
    requires forall g: nat :: g in own0 ==>
                (Cut(own0[f], own0[g], i + 1) <==> Cut(own0[f], own0[g], i) || g == c || Cut(own0[c], own0[g], 512))
    requires !Cut(own0[c], own0[f], 512)
    ensures TornPages(mem0, own0, WithEntry(mem2, f, i, 0), f, i + 1)
  {
    hide Cut;
    assert mem2[f] == mem1[f];
    assert !Valid(0);
    hide Valid;
  }

  lemma CutOne(own: Owners, f: nat, i: nat, c: nat)
    requires f in own && !own[f].Low? && c in own && own[c] == Ext(own[f], i)
    requires forall g: nat :: g in own ==> Bounded(own[g])
    requires forall g: nat :: g in own && own[g] == own[c] ==> g == c
    ensures forall g: nat :: g in own ==>
                (Cut(own[f], own[g], i + 1) <==> Cut(own[f], own[g], i) || g == c || Cut(own[c], own[g], 512))
    ensures !Cut(own[c], own[f], 512) && f != c
  {
    forall g: nat | g in own
      ensures Cut(own[f], own[g], i + 1) <==> Cut(own[f], own[g], i) || g == c || Cut(own[c], own[g], 512)
    {
      BelowEntry(own[f], i, own[g]);
      WithinBound(own[c], own[g]);
    }
  }

  lemma WithinBound(path: Path, p: Path)
    requires Bounded(p)
    ensures Cut(path, p, 512) <==> Strict(path, p)
  {
  }

  /** The leaves below entry i are those of its table, which is still whole. */
  lemma CutLeaf(mem0: Memory, root: nat, own0: Owners, mem1: Memory, own1: Owners, f: nat, i: nat, c: nat)
    requires Tree(mem0, root, own0) && f in own0 && i < 512 && !own0[f].Low? && Pages(mem1)
    requires Torn(mem0, own0, mem1, own1, f, i) && c in own1 && own1[c] == Ext(own0[f], i)
    ensures NoLeaf(mem0, own0, own0[f], i) && NoLeaf(mem1, own1, own1[c], 512) ==> NoLeaf(mem0, own0, own0[f], i + 1)
    ensures !NoLeaf(mem1, own1, own1[c], 512) ==> !NoLeaf(mem0, own0, own0[f], 512)
  {
    LastSlot(mem0, root, own0, c, i);
    CutOne(own0, f, i, c);
    CutMore(own0[f], i);
    hide Tree;
    hide Valid;
    hide Strict;
    hide Branch;
    var j := i + 1;
    forall g: nat, k: nat | LeafAt(mem0, own0, own0[f], j, g, k) && !LeafAt(mem0, own0, own0[f], i, g, k)
      ensures LeafAt(mem1, own1, own1[c], 512, g, k)
    {
    }
    forall g: nat, k: nat | LeafAt(mem1, own1, own1[c], 512, g, k)
      ensures LeafAt(mem0, own0, own0[f], 512, g, k)
    {
    }
  }

  lemma CutMore(path: Path, i: nat)
    requires i < 512
    ensures forall p: Path :: Cut(path, p, i + 1) ==> Cut(path, p, 512)
  {
  }

  /** A leaf met in slot i. */
  lemma MetLeaf(mem0: Memory, own0: Owners, mem: Memory, own: Owners, f: nat, i: nat)
    requires Pages(mem0) && Pages(mem) && f in own0 && f in mem0 && own0[f].Low? && i < 512
    requires Torn(mem0, own0, mem, own, f, i) && Valid(mem[f][i])
    ensures !NoLeaf(mem0, own0, own0[f], 512)
  {
    assert LeafAt(mem0, own0, own0[f], 512, f, i);
  }

  lemma TornStart(mem: Memory, own: Owners, f: nat)
    requires Pages(mem) && f in own && f in mem
    ensures Torn(mem, own, mem, own, f, 0) && NoLeaf(mem, own, own[f], 0)
  {
  }
}
