/**
  The slab allocator of kernelspace/mm/kmalloc.c.  A block's first eight bytes are one
  word: the link of the free list while it is free, and size + magic * 2^32 while it is
  live.
 */
module Slab {

  const TWO_32: nat := 0x1_0000_0000
  const MAGIC: nat := 0xdead_beef
  const PAGE_SIZE: nat := 4096

  type Words = map<nat, nat>

  function MagicOf(w: nat): nat { w / TWO_32 }
  function SizeOf(w: nat): nat { w % TWO_32 }
  function LiveWord(size: nat): nat { size + MAGIC * TWO_32 }

  /** ALIGN_UP(objsize + sizeof(struct header)). */
  function Actual(objsize: nat): (n: nat)
    ensures n % 16 == 0 && objsize + 8 <= n < objsize + 24
  {
    (objsize + 8 + 15) / 16 * 16
  }

  datatype Cache = Cache(objsize: nat, freelist: nat, slabs: seq<nat>)

  // ------------------------------------------------------------------- free lists

  /** The list from `head` runs through the blocks of chain and ends in null. */
  ghost predicate Chain(words: Words, head: nat, chain: seq<nat>)
    decreases |chain|
  {
    if chain == [] then head == 0
    else head == chain[0] && head > 0 && head in words && Chain(words, words[head], chain[1..])
  }

  lemma {:induction false} ChainSame(words: Words, words': Words, head: nat, chain: seq<nat>)
    requires Chain(words, head, chain)
    requires forall i :: 0 <= i < |chain| && chain[i] in words ==>
                chain[i] in words' && words'[chain[i]] == words[chain[i]]
    ensures Chain(words', head, chain)
    decreases |chain|
  {
    if chain != [] {
      ChainSame(words, words', words[head], chain[1..]);
    }
  }

  lemma ChainPush(words: Words, head: nat, chain: seq<nat>, a: nat)
    requires Chain(words, head, chain) && a !in chain && a > 0
    ensures Chain(words[a := head], a, [a] + chain)
  {
    ChainSame(words, words[a := head], head, chain);
    assert ([a] + chain)[1..] == chain;
  }

  ghost predicate NoRepeat(s: seq<nat>) {
    forall i, j :: 0 <= i < j < |s| ==> s[i] != s[j]
  }

  // ---------------------------------------------------------------- one cache

  /** Block a lies inside one of the cache's pages and is 16-aligned. */
  ghost predicate InSlab(c: Cache, a: nat) {
    && a % 16 == 0
    && 0 < a
    && exists k :: 0 <= k < |c.slabs| && c.slabs[k] <= a && a + Actual(c.objsize) <= c.slabs[k] + PAGE_SIZE
  }

  /** Free blocks (chain) and live blocks together are the carved ones: each in a page, no
      two overlapping, with the right words. */
  ghost predicate CacheOk(words: Words, c: Cache, chain: seq<nat>, live: set<nat>) {
    && c.objsize < TWO_32 && Chain(words, c.freelist, chain) && NoRepeat(chain)
    && (forall a: nat :: a in chain ==> a !in live)
    && (forall a: nat :: a in chain || a in live ==> a + Actual(c.objsize) <= TWO_32 && InSlab(c, a))
    && (forall a: nat, b: nat :: (a in chain || a in live) && (b in chain || b in live) && a < b ==>
          a + Actual(c.objsize) <= b)
    && (forall a: nat :: a in live ==> a in words && words[a] == LiveWord(c.objsize))
  }

  /** An object is its block without the 8-byte header: it lies in a page of the cache, is aligned
      to 8 bytes, and touches neither the object nor the header of another block. */
  lemma ObjectsApart(words: Words, c: Cache, chain: seq<nat>, live: set<nat>, a: nat, b: nat)
    requires CacheOk(words, c, chain, live) && (a in chain || a in live) && (b in chain || b in live)
    ensures (a + 8) % 8 == 0
    ensures exists k :: 0 <= k < |c.slabs| && c.slabs[k] <= a && a + 8 + c.objsize <= c.slabs[k] + 4096
    ensures a != b ==> a + 8 + c.objsize <= b || b + 8 + c.objsize <= a
  {
    hide Chain;
    assert InSlab(c, a);
    assert a != b ==> a + Actual(c.objsize) <= b || b + Actual(c.objsize) <= a;
    hide CacheOk;
    var k :| 0 <= k < |c.slabs| && c.slabs[k] <= a && a + Actual(c.objsize) <= c.slabs[k] + PAGE_SIZE;
    HalfAligned(a);
    hide InSlab;
  }

  lemma HalfAligned(a: nat)
    requires a % 16 == 0
    ensures (a + 8) % 8 == 0
  {
  }

  /** The header of a live block: the size below, the magic above. */
  lemma HeaderWord(size: nat)
    requires size < 0x1_0000_0000
    ensures LiveWord(size) % 0x1_0000_0000 == size && LiveWord(size) / 0x1_0000_0000 == 0xdead_beef
    ensures SizeOf(LiveWord(size)) == size && MagicOf(LiveWord(size)) == 0xdead_beef
  {
  }

  lemma {:induction false} ChainWords(words: Words, head: nat, chain: seq<nat>, i: nat)
    requires Chain(words, head, chain) && i < |chain|
    ensures chain[i] in words && words[chain[i]] == if i + 1 < |chain| then chain[i + 1] else 0
    decreases |chain|
  {
    if i > 0 {
      ChainWords(words, words[head], chain[1..], i - 1);
    }
  }

  /** A free block never carries the magic, because the link stored over it is below 2^32. */
  lemma FreeHasNoMagic(words: Words, c: Cache, chain: seq<nat>, live: set<nat>, a: nat)
    requires CacheOk(words, c, chain, live) && (a in chain || a in live)
    ensures a in words && (MagicOf(words[a]) == MAGIC <==> a in live) && (a in live ==> SizeOf(words[a]) == c.objsize)
  {
    if a in chain {
      var i: nat :| i < |chain| && chain[i] == a;
      ChainWords(words, c.freelist, chain, i);
      assert i + 1 < |chain| ==> chain[i + 1] in chain;
      assert words[a] < TWO_32;
    }
  }

  /** Words outside the cache's own blocks do not matter to it. */
  lemma CacheSame(words: Words, words': Words, c: Cache, chain: seq<nat>, live: set<nat>)
    requires CacheOk(words, c, chain, live)
    requires forall a: nat :: (a in chain || a in live) && a in words ==> a in words' && words'[a] == words[a]
    ensures CacheOk(words', c, chain, live)
  {
    ChainSame(words, words', c.freelist, chain);
    hide Chain;
  }

  /** kmem_cache_free on a live block. */
  lemma FreeKeeps(words: Words, c: Cache, chain: seq<nat>, live: set<nat>, a: nat)
    requires CacheOk(words, c, chain, live) && a in live
    ensures CacheOk(words[a := c.freelist], c.(freelist := a), [a] + chain, live - {a})
  {
    assert a !in chain && InSlab(c, a);
    ChainPush(words, c.freelist, chain, a);
    hide Chain;
    assert forall b: nat :: b in [a] + chain <==> b == a || b in chain;
  }

  /** kmem_cache_alloc on a non-empty free list. */
  lemma AllocKeeps(words: Words, c: Cache, chain: seq<nat>, live: set<nat>)
    requires CacheOk(words, c, chain, live) && chain != []
    ensures var a := chain[0];
            && a in words && a == c.freelist && a !in live
            && CacheOk(words[a := LiveWord(c.objsize)], c.(freelist := words[a]), chain[1..], live + {a})
  {
    var a := chain[0];
    var words' := words[a := LiveWord(c.objsize)];
    assert forall b: nat :: b in chain <==> b == a || b in chain[1..];
    ChainSame(words, words', words[a], chain[1..]);
    hide Chain;
  }

  // ---------------------------------------------------------------------- carving

  /** The blocks leave the page from offset j on untouched. */
  ghost predicate CarvedTo(c: Cache, chain: seq<nat>, live: set<nat>, page: nat, j: nat) {
    forall a: nat :: a in chain || a in live ==> a + Actual(c.objsize) <= page + j || page + PAGE_SIZE <= a
  }

  ghost predicate FreshPage(page: nat) {
    page % PAGE_SIZE == 0 && 0 < page && page + PAGE_SIZE <= TWO_32
  }

  /** One more block is split off the page. */
  lemma CarveKeeps(words: Words, c: Cache, chain: seq<nat>, live: set<nat>, page: nat, j: nat)
    requires CacheOk(words, c, chain, live) && CarvedTo(c, chain, live, page, j) && FreshPage(page)
    requires |c.slabs| > 0 && c.slabs[0] == page && j % 16 == 0 && j + Actual(c.objsize) <= PAGE_SIZE
    ensures var a := page + j;
            && a !in chain && a !in live
            && CacheOk(words[a := c.freelist], c.(freelist := a), [a] + chain, live)
            && CarvedTo(c.(freelist := a), [a] + chain, live, page, j + Actual(c.objsize))
  {
    var a := page + j;
    assert a !in chain && a !in live;
    var c', chain' := c.(freelist := a), [a] + chain;
    assert c'.slabs[0] <= a && a + Actual(c'.objsize) <= c'.slabs[0] + PAGE_SIZE;
    assert InSlab(c', a);
    assert forall b: nat :: InSlab(c, b) ==> InSlab(c', b);
    ChainPush(words, c.freelist, chain, a);
    hide Chain;
    hide InSlab;
    assert forall b: nat :: b in chain' <==> b == a || b in chain;
    assert NoRepeat(chain');
    hide NoRepeat;
  }

  /** A new page belongs to the cache before any block is carved from it. */
  lemma AddPage(words: Words, c: Cache, chain: seq<nat>, live: set<nat>, page: nat)
    requires CacheOk(words, c, chain, live) && FreshPage(page)
    requires forall k :: 0 <= k < |c.slabs| ==> c.slabs[k] % PAGE_SIZE == 0 && c.slabs[k] != page
    ensures var c' := c.(slabs := [page] + c.slabs);
            CacheOk(words, c', chain, live) && CarvedTo(c', chain, live, page, 0)
  {
    var c' := c.(slabs := [page] + c.slabs);
    forall a: nat | InSlab(c, a)
      ensures InSlab(c', a) && (a + Actual(c.objsize) <= page || page + PAGE_SIZE <= a)
    {
      OutsidePage(c, page, a);
    }
    hide InSlab;
    hide Chain;
    hide NoRepeat;
  }

  lemma OutsidePage(c: Cache, page: nat, a: nat)
    requires InSlab(c, a) && page % PAGE_SIZE == 0
    requires forall k :: 0 <= k < |c.slabs| ==> c.slabs[k] % PAGE_SIZE == 0 && c.slabs[k] != page
    ensures InSlab(c.(slabs := [page] + c.slabs), a) && (a + Actual(c.objsize) <= page || page + PAGE_SIZE <= a)
  {
    var c' := c.(slabs := [page] + c.slabs);
    var k :| 0 <= k < |c.slabs| && c.slabs[k] <= a && a + Actual(c.objsize) <= c.slabs[k] + PAGE_SIZE;
    assert c'.slabs[k + 1] == c.slabs[k];
    PagesApart(c.slabs[k], page);
  }

  lemma PagesApart(p: nat, q: nat)
    requires p % PAGE_SIZE == 0 && q % PAGE_SIZE == 0 && p != q
    ensures p + PAGE_SIZE <= q || q + PAGE_SIZE <= p
  {
    assert p == 4096 * (p / 4096) && q == 4096 * (q / 4096);
  }

  // ------------------------------------------------------------------- all caches

  function PageOf(a: nat): nat { a / PAGE_SIZE * PAGE_SIZE }

  /** `pages` says which cache a slab page belongs to. */
  ghost predicate PagesOk(c: Cache, pages: map<nat, nat>, i: nat) {
    forall k :: 0 <= k < |c.slabs| ==> c.slabs[k] % PAGE_SIZE == 0 && c.slabs[k] in pages && pages[c.slabs[k]] == i
  }

  ghost predicate HeapOk(words: Words, caches: seq<Cache>, chains: seq<seq<nat>>, lives: seq<set<nat>>,
                         pages: map<nat, nat>) {
    && |chains| == |caches| && |lives| == |caches|
    && (forall i: nat :: i < |caches| ==> CacheOk(words, caches[i], chains[i], lives[i]))
    && (forall i: nat :: i < |caches| ==> PagesOk(caches[i], pages, i))
  }

  /** Only words in pages of cache i changed. */
  ghost predicate OnlyIn(words: Words, words': Words, pages: map<nat, nat>, i: nat) {
    forall a: nat :: a in words && !(PageOf(a) in pages && pages[PageOf(a)] == i) ==>
      a in words' && words'[a] == words[a]
  }

  lemma BlockPage(c: Cache, pages: map<nat, nat>, i: nat, a: nat)
    requires PagesOk(c, pages, i) && InSlab(c, a)
    ensures PageOf(a) in pages && pages[PageOf(a)] == i
  {
    var k :| 0 <= k < |c.slabs| && c.slabs[k] <= a && a + Actual(c.objsize) <= c.slabs[k] + PAGE_SIZE;
    PageIs(a, c.slabs[k]);
  }

  lemma PageIs(a: nat, p: nat)
    requires p % PAGE_SIZE == 0 && p <= a < p + PAGE_SIZE
    ensures PageOf(a) == p
  {
    var q := p / PAGE_SIZE;
    assert p == 4096 * q && a == 4096 * q + (a - p);
  }

  /** A step of cache i that stays in its own pages leaves the others in order. */
  lemma UpdateOne(words: Words, caches: seq<Cache>, chains: seq<seq<nat>>, lives: seq<set<nat>>, pages: map<nat, nat>,
                  words': Words, i: nat, c': Cache, chain': seq<nat>, live': set<nat>, pages': map<nat, nat>)
    requires HeapOk(words, caches, chains, lives, pages) && i < |caches|
    requires CacheOk(words', c', chain', live') && PagesOk(c', pages', i) && OnlyIn(words, words', pages', i)
    requires forall s: nat :: s in pages ==> s in pages' && pages'[s] == pages[s]
    ensures HeapOk(words', caches[i := c'], chains[i := chain'], lives[i := live'], pages')
  {
    forall k: nat | k < |caches| && k != i
      ensures CacheOk(words', caches[k], chains[k], lives[k]) && PagesOk(caches[k], pages', k)
    {
      OtherCache(words, words', caches[k], chains[k], lives[k], pages, pages', i, k);
    }
    hide CacheOk;
    hide PagesOk;
  }

  lemma OtherCache(words: Words, words': Words, c: Cache, chain: seq<nat>, live: set<nat>, pages: map<nat, nat>,
                   pages': map<nat, nat>, i: nat, k: nat)
    requires CacheOk(words, c, chain, live) && PagesOk(c, pages, k) && i != k && OnlyIn(words, words', pages', i)
    requires forall s: nat :: s in pages ==> s in pages' && pages'[s] == pages[s]
    ensures CacheOk(words', c, chain, live) && PagesOk(c, pages', k)
  {
    forall a: nat | (a in chain || a in live) && a in words
      ensures a in words' && words'[a] == words[a]
    {
      BlockPage(c, pages, k, a);
    }
    CacheSame(words, words', c, chain, live);
  }
}
