/**
  kmem_cache_alloc, kmem_cache_free, kmalloc and kmfree of kernelspace/mm/kmalloc.c over
  one memory shared by any number of caches, of which the first nine are kmalloc's
  buckets.
 */
module Kmalloc {
  import opened Wrappers
  import opened Slab

  const BUCKETS: nat := 9

  /** bucket_sizes. */
  function BucketSize(i: nat): nat {
    if i == 0 then 8 else if i == 1 then 16 else if i == 2 then 32 else if i == 3 then 64 else if i == 4 then 128
    else if i == 5 then 256 else if i == 6 then 512 else if i == 7 then 1024 else 2048
  }

  /** get_bucket_idx: the smallest bucket that holds the size. */
  method BucketIdx(size: nat) returns (idx: int)
    ensures idx == -1 <==> size > 2048
    ensures idx != -1 ==>
              0 <= idx < BUCKETS && size <= BucketSize(idx) && forall k: nat :: k < idx ==> BucketSize(k) < size
  {
    var i := 0;
    while i < 9
      invariant i <= 9 && forall k: nat :: k < i ==> BucketSize(k) < size
    {
      if size <= BucketSize(i) {
        return i;
      }
      i := i + 1;
    }
    assert BucketSize(8) < size;
    return -1;
  }

  lemma BucketsGrow(i: nat, k: nat)
    requires k < i < BUCKETS
    ensures BucketSize(k) < BucketSize(i)
  {
  }

  /** The sizes are the powers of two from 8 to 2048. */
  lemma BucketPowers(i: nat)
    ensures BucketSize(0) == 8 && BucketSize(8) == 2048 && (i < 8 ==> BucketSize(i + 1) == 2 * BucketSize(i))
  {
  }

  /** Bucket b is the smallest that holds the size. */
  ghost predicate Smallest(size: nat, b: nat) {
    size <= BucketSize(b) && forall k: nat :: k < b ==> BucketSize(k) < size
  }

  lemma SmallestIs(size: nat, idx: nat)
    requires Smallest(size, idx)
    ensures forall b: nat :: Smallest(size, b) ==> b == idx
  {
  }

  datatype AllocResult = Got(addr: nat) | NoMemory | NullDeref

  /** Where kmfree sends an address. */
  datatype Route = Nothing | ToPool(page: nat) | ToBucket(i: nat)

  class KHeap {
    var words: Words
    var caches: seq<Cache>
    ghost var chains: seq<seq<nat>>
    ghost var lives: seq<set<nat>>
    ghost var pages: map<nat, nat>

    ghost predicate BucketsOk()
      reads this
    {
      BUCKETS <= |caches| && forall i: nat :: i < BUCKETS ==> caches[i].objsize == BucketSize(i)
    }

    /** Splits a fresh page into blocks, as many as fit. */
    method Carve(i: nat, page: nat)
      requires HeapOk(words, caches, chains, lives, pages) && i < |caches| && FreshPage(page) && page !in pages
      requires chains[i] == []
      modifies this
      ensures HeapOk(words, caches, chains, lives, pages) && lives == old(lives) && pages == old(pages)[page := i]
      ensures |caches| == |old(caches)| && caches[i].objsize == old(caches[i].objsize) && |chains| == |old(chains)|
      ensures forall k: nat :: k < |caches| && k != i ==> caches[k] == old(caches)[k] && chains[k] == old(chains)[k]
      ensures |chains[i]| == Fits(PAGE_SIZE, Actual(caches[i].objsize))
      ensures forall a: nat :: a in chains[i] ==> page <= a < page + PAGE_SIZE
    {
      CarveFacts(words, caches, chains, lives, pages, i, page);
      hide *;
      var c := caches[i].(slabs := [page] + caches[i].slabs);
      ghost var pages' := pages[page := i];
      ghost var live := lives[i];
      var w;
      ghost var chain;
      c, w, chain := SplitPage(c, words, page, live);
      CarvedPages(caches[i], c, pages, page, i);
      CarvedOnly(words, w, page, pages', i);
      UpdateOne(words, caches, chains, lives, pages, w, i, c, chain, live, pages');
      words := w;
      caches := caches[i := c];
      chains := chains[i := chain];
      pages := pages';
      assert lives == lives[i := live];
    }

    /** The splitting loop of kmem_cache_alloc. */
    method SplitPage(c0: Cache, w0: Words, page: nat, ghost live: set<nat>)
      returns (c: Cache, w: Words, ghost chain: seq<nat>)
      requires FreshPage(page) && |c0.slabs| > 0 && c0.slabs[0] == page && page > 0
      requires CacheOk(w0, c0, [], live) && CarvedTo(c0, [], live, page, 0)
      ensures CacheOk(w, c, chain, live) && c.objsize == c0.objsize && c.slabs == c0.slabs
      ensures |chain| == Fits(PAGE_SIZE, Actual(c.objsize))
      ensures forall a: nat :: a in chain ==> page <= a < page + PAGE_SIZE
      ensures ChangedIn(w0, w, page)
    {
      hide *;
      c, w, chain := c0, w0, [];
      var actual := Actual(c.objsize);
      var j := 0;
      ChangedNone(w, page);
      while j + actual <= PAGE_SIZE
        invariant c.objsize == c0.objsize && c.slabs == c0.slabs && j % 16 == 0 && j <= PAGE_SIZE
        invariant CacheOk(w, c, chain, live) && CarvedTo(c, chain, live, page, j)
        invariant |chain| + Fits(PAGE_SIZE - j, actual) == Fits(PAGE_SIZE, actual)
        invariant forall a: nat :: a in chain ==> page <= a < page + PAGE_SIZE
        invariant ChangedIn(w0, w, page)
        decreases PAGE_SIZE - j
      {
        CarveKeeps(w, c, chain, live, page, j);
        FitsOne(PAGE_SIZE - j, actual);
        ChangedMore(w0, w, page, page + j, c.freelist);
        w := w[page + j := c.freelist];
        c := c.(freelist := page + j);
        chain := [page + j] + chain;
        j := j + actual;
      }
      FitsNone(PAGE_SIZE - j, actual);
    }

    /** kmem_cache_alloc; `page` and `sp` are what the two calls of kalloc return.  A block
        that was not live becomes live.  With no block that fits a page, an empty cache
        hands the null pointer on. */
    method CacheAlloc(i: nat, page: Option<nat>, sp: Option<nat>) returns (r: AllocResult)
      requires HeapOk(words, caches, chains, lives, pages) && i < |caches|
      requires page.Some? ==> FreshPage(page.value) && page.value !in pages
      modifies this
      ensures r == NoMemory <==> old(chains[i]) == [] && (page.None? || sp.None?)
      ensures r == NullDeref
              <==> old(chains[i]) == [] && page.Some? && sp.Some? && Actual(old(caches[i].objsize)) > PAGE_SIZE
      ensures r == NoMemory ==>
                words == old(words) && caches == old(caches) && chains == old(chains) && lives == old(lives)
                && pages == old(pages)
      ensures HeapOk(words, caches, chains, lives, pages)
      ensures |caches| == |old(caches)| && forall k: nat :: k < |caches| ==> caches[k].objsize == old(caches)[k].objsize
      ensures r.Got? ==> r.addr >= 8 && r.addr % 16 == 8 && Gained(old(lives), lives, i, r.addr - 8)
      ensures r.Got? ==> r.addr - 8 in words && words[r.addr - 8] == LiveWord(caches[i].objsize)
      ensures r.Got? && old(chains[i]) != [] ==> chains == old(chains)[i := old(chains[i])[1..]] && pages == old(pages)
      ensures r.Got? && old(chains[i]) == [] ==> |chains[i]| + 1 == Fits(PAGE_SIZE, Actual(caches[i].objsize))
    {
      hide *;
      HeapFacts(words, caches, chains, lives, pages, i);
      if caches[i].freelist == 0 {
        if page.None? {
          return NoMemory;
        }
        if sp.None? {
          return NoMemory;
        }
        Carve(i, page.value);
        HeapFacts(words, caches, chains, lives, pages, i);
        FitsSome(PAGE_SIZE, Actual(caches[i].objsize));
        if caches[i].freelist == 0 {
          return NullDeref;
        }
      }
      var a := caches[i].freelist;
      GainedOne(lives, i, a);
      HeadTaken(words, caches, chains, lives, pages, i);
      caches := caches[i := caches[i].(freelist := words[a])];
      words := words[a := LiveWord(caches[i].objsize)];
      chains := chains[i := chains[i][1..]];
      lives := lives[i := lives[i] + {a}];
      return Got(a + 8);
    }

    /** kmem_cache_free of a block that this cache once handed out: it panics iff the block
        is on the free list, and otherwise the block joins it. */
    method CacheFree(i: nat, addr: nat) returns (panic: bool)
      requires HeapOk(words, caches, chains, lives, pages) && i < |caches| && i < |chains| && i < |lives|
      requires addr >= 8 && (addr - 8 in chains[i] || addr - 8 in lives[i])
      modifies this
      ensures HeapOk(words, caches, chains, lives, pages)
      ensures panic <==> addr - 8 in old(chains[i])
      ensures panic ==> words == old(words) && caches == old(caches) && chains == old(chains) && lives == old(lives)
      ensures !panic ==>
                chains == old(chains)[i := [addr - 8] + old(chains[i])]
                && lives == old(lives)[i := old(lives[i]) - {addr - 8}]
      ensures |caches| == |old(caches)| && forall k: nat :: k < |caches| ==> caches[k].objsize == old(caches)[k].objsize
      ensures pages == old(pages)
    {
      hide *;
      var a := addr - 8;
      BlockFreed(words, caches, chains, lives, pages, i, a);
      if MagicOf(words[a]) != MAGIC {
        return true;
      }
      words := words[a := caches[i].freelist];
      caches := caches[i := caches[i].(freelist := a)];
      chains := chains[i := [a] + chains[i]];
      lives := lives[i := lives[i] - {a}];
      return false;
    }

    /** kmalloc: nothing for size 0, one page above the largest bucket, and otherwise an
        object of the smallest bucket that holds the size. */
    method Kmalloc(size: nat, page: Option<nat>, sp: Option<nat>) returns (p: Option<nat>, ghost bucket: Option<nat>)
      requires HeapOk(words, caches, chains, lives, pages) && BucketsOk()
      requires page.Some? ==> FreshPage(page.value) && page.value !in pages
      modifies this
      ensures HeapOk(words, caches, chains, lives, pages) && BucketsOk()
      ensures size == 0 ==> p == None
      ensures size > 2048 ==> p == page && bucket == None && lives == old(lives)
      ensures 0 < size <= 2048 && p.Some? ==> bucket.Some? && bucket.value < BUCKETS && size <= BucketSize(bucket.value)
      ensures bucket.Some? ==> forall b: nat :: b < bucket.value ==> BucketSize(b) < size
      ensures bucket.Some? ==>
                p.Some? && p.value >= 8 && p.value % 16 == 8 && Gained(old(lives), lives, bucket.value, p.value - 8)
      ensures 0 < size <= 2048 ==> forall b: nat :: b < BUCKETS && b < |old(chains)| && Smallest(size, b) ==>
                  (p.None? <==> old(chains)[b] == [] && (page.None? || sp.None?))
      ensures p.None? ==> lives == old(lives) && words == old(words) && chains == old(chains)
    {
      bucket := None;
      if size == 0 {
        return None, None;
      }
      if size > 2048 {
        return page, None;
      }
      var idx := BucketIdx(size);
      BucketFits(idx);
      SmallestIs(size, idx);
      assert |chains| == |caches|;
      hide HeapOk;
      hide Actual;
      hide BucketSize;
      hide Fits;
      hide FreshPage;
      hide LiveWord;
      hide Smallest;
      var r := CacheAlloc(idx, page, sp);
      match r
      case Got(a) => return Some(a), Some(idx);
      case NoMemory => return None, None;
      case NullDeref => return None, None;
    }

    /** kmfree: a page goes back to the page pool, a live object to the bucket it came from;
        an object that is free already is left alone. */
    method Kmfree(addr: nat, ghost i: nat) returns (route: Route)
      requires HeapOk(words, caches, chains, lives, pages) && BucketsOk() && i < BUCKETS && i < |chains| && i < |lives|
      requires addr % PAGE_SIZE != 0 ==> addr >= 8 && (addr - 8 in chains[i] || addr - 8 in lives[i])
      modifies this
      ensures HeapOk(words, caches, chains, lives, pages) && BucketsOk()
      ensures addr == 0 ==> route == Nothing
      ensures addr != 0 && addr % PAGE_SIZE == 0 ==> route == ToPool(addr)
      ensures addr % PAGE_SIZE != 0 ==> route == if addr - 8 in old(lives[i]) then ToBucket(i) else Nothing
      ensures route.ToBucket? ==>
                chains == old(chains)[i := [addr - 8] + old(chains[i])]
                && lives == old(lives)[i := old(lives[i]) - {addr - 8}]
      ensures !route.ToBucket? ==> words == old(words) && chains == old(chains) && lives == old(lives)
    {
      if addr == 0 {
        return Nothing;
      }
      if addr % PAGE_SIZE == 0 {
        return ToPool(addr);
      }
      hide HeapOk;
      hide MagicOf;
      hide SizeOf;
      BlockFreed(words, caches, chains, lives, pages, i, addr - 8);
      var w := words[addr - 8];
      if MagicOf(w) != MAGIC {
        return Nothing;
      }
      var idx := BucketIdx(SizeOf(w));
      SameBucket(i, idx);
      hide BucketSize;
      if idx == -1 {
        return Nothing;
      }
      var panic := CacheFree(idx, addr);
      return ToBucket(idx);
    }
  }

  /** A bucket's own size leads back to it. */
  lemma SameBucket(i: nat, idx: int)
    requires i < BUCKETS && (idx == -1 <==> BucketSize(i) > 2048)
    requires idx != -1 ==>
              && 0 <= idx < BUCKETS
              && BucketSize(i) <= BucketSize(idx)
              && forall k: nat :: k < idx ==> BucketSize(k) < BucketSize(i)
    ensures idx == i
  {
    if idx != -1 && idx < i {
      BucketsGrow(i, idx);
    }
  }

  /** Every bucket's block fits a page. */
  lemma BucketFits(i: nat)
    ensures Actual(BucketSize(i)) <= PAGE_SIZE
  {
  }

  /** Block a of cache i, which was not live, is. */
  ghost predicate Gained(lives: seq<set<nat>>, lives': seq<set<nat>>, i: nat, a: nat) {
    |lives'| == |lives| && i < |lives| && a !in lives[i] && lives' == lives[i := lives[i] + {a}]
  }

  lemma GainedOne(lives: seq<set<nat>>, i: nat, a: nat)
    requires i < |lives|
    ensures a !in lives[i] ==> Gained(lives, lives[i := lives[i] + {a}], i, a)
  {
  }

  lemma FitsSome(left: nat, n: nat)
    ensures Fits(left, n) > 0 <==> 0 < n <= left
    ensures n > 0 ==> (Fits(left, n) > 0 <==> n <= left)
  {
  }

  lemma HeapFacts(words: Words, caches: seq<Cache>, chains: seq<seq<nat>>, lives: seq<set<nat>>, pages: map<nat, nat>,
                  i: nat)
    requires HeapOk(words, caches, chains, lives, pages) && i < |caches|
    ensures |chains| == |caches| && |lives| == |caches| && (caches[i].freelist == 0 <==> chains[i] == [])
    ensures PAGE_SIZE > 0
  {
    assert CacheOk(words, caches[i], chains[i], lives[i]);
  }

  lemma HeadTaken(words: Words, caches: seq<Cache>, chains: seq<seq<nat>>, lives: seq<set<nat>>, pages: map<nat, nat>,
                  i: nat)
    requires HeapOk(words, caches, chains, lives, pages) && i < |caches| && i < |chains| && i < |lives|
    requires chains[i] != []
    ensures var a := caches[i].freelist;
            && a in words && a !in lives[i] && a % 16 == 0
            && HeapOk(words[a := LiveWord(caches[i].objsize)], caches[i := caches[i].(freelist := words[a])],
                      chains[i := chains[i][1..]], lives[i := lives[i] + {a}], pages)
  {
    var c := caches[i];
    assert CacheOk(words, c, chains[i], lives[i]) && PagesOk(c, pages, i);
    AllocKeeps(words, c, chains[i], lives[i]);
    var a := c.freelist;
    assert a in chains[i] && InSlab(c, a);
    BlockPage(c, pages, i, a);
    hide CacheOk;
    UpdateOne(words, caches, chains, lives, pages, words[a := LiveWord(c.objsize)], i, c.(freelist := words[a]),
              chains[i][1..], lives[i] + {a}, pages);
  }

  lemma BlockFreed(words: Words, caches: seq<Cache>, chains: seq<seq<nat>>, lives: seq<set<nat>>, pages: map<nat, nat>,
                   i: nat, a: nat)
    requires HeapOk(words, caches, chains, lives, pages) && i < |caches| && i < |chains| && i < |lives|
    requires a in chains[i] || a in lives[i]
    ensures |chains| == |caches| && |lives| == |caches|
    ensures a in words && (MagicOf(words[a]) == MAGIC <==> a in lives[i]) && (a in lives[i] <==> a !in chains[i])
    ensures a in lives[i] ==> SizeOf(words[a]) == caches[i].objsize
    ensures a in lives[i] ==>
              HeapOk(words[a := caches[i].freelist], caches[i := caches[i].(freelist := a)],
                     chains[i := [a] + chains[i]], lives[i := lives[i] - {a}], pages)
  {
    var c := caches[i];
    assert CacheOk(words, c, chains[i], lives[i]) && PagesOk(c, pages, i);
    FreeHasNoMagic(words, c, chains[i], lives[i], a);
    assert InSlab(c, a);
    BlockPage(c, pages, i, a);
    if a in lives[i] {
      FreeKeeps(words, c, chains[i], lives[i], a);
      hide CacheOk;
      UpdateOne(words, caches, chains, lives, pages, words[a := c.freelist], i, c.(freelist := a), [a] + chains[i],
                lives[i] - {a}, pages);
    }
  }

  /** How many blocks of n bytes fit into `left` bytes. */
  function Fits(left: nat, n: nat): nat
    decreases left
  {
    if n == 0 || left < n then 0 else 1 + Fits(left - n, n)
  }

  lemma {:induction false} FitsIsQuotient(left: nat, n: nat)
    requires n > 0
    ensures Fits(left, n) == left / n
    decreases left
  {
    if left >= n {
      FitsIsQuotient(left - n, n);
      QuotientStep(left, n, (left - n) / n);
    }
  }

  lemma QuotientStep(left: nat, n: nat, q: nat)
    requires 0 < n <= left && q == (left - n) / n
    ensures left / n == q + 1
  {
    var r := (left - n) % n;
    assert left - n == n * q + r;
    assert left == n * (q + 1) + r;
    QuotientIs(left, n, q + 1, r);
  }

  lemma QuotientIs(x: nat, n: nat, q: nat, r: nat)
    requires 0 < n && x == n * q + r && r < n
    ensures x / n == q
  {
    var d := x / n - q;
    assert x == n * (x / n) + x % n;
    assert n * d == r - x % n;
  }

  lemma FitsOne(left: nat, n: nat)
    requires 0 < n <= left
    ensures Fits(left, n) == 1 + Fits(left - n, n)
  {
  }

  lemma FitsNone(left: nat, n: nat)
    requires left < n
    ensures Fits(left, n) == 0
  {
  }

  lemma ChangedNone(w: Words, page: nat)
    ensures ChangedIn(w, w, page)
  {
  }

  lemma ChangedMore(w: Words, w': Words, page: nat, a: nat, x: nat)
    requires ChangedIn(w, w', page) && page <= a < page + PAGE_SIZE
    ensures ChangedIn(w, w'[a := x], page)
  {
  }

  /** Only words inside the page changed. */
  ghost predicate ChangedIn(w: Words, w': Words, page: nat) {
    forall a: nat :: a in w && !(page <= a < page + PAGE_SIZE) ==> a in w' && w'[a] == w[a]
  }

  lemma CarveFacts(words: Words, caches: seq<Cache>, chains: seq<seq<nat>>, lives: seq<set<nat>>, pages: map<nat, nat>,
                   i: nat, page: nat)
    requires HeapOk(words, caches, chains, lives, pages) && i < |caches| && FreshPage(page) && page !in pages
    ensures |chains| == |caches| && |lives| == |caches| && page % PAGE_SIZE == 0 && page > 0
    ensures PagesOk(caches[i], pages, i)
    ensures var c' := caches[i].(slabs := [page] + caches[i].slabs);
            CacheOk(words, c', chains[i], lives[i]) && CarvedTo(c', chains[i], lives[i], page, 0)
  {
    assert PagesOk(caches[i], pages, i) && CacheOk(words, caches[i], chains[i], lives[i]);
    AddPage(words, caches[i], chains[i], lives[i], page);
  }

  lemma CarvedPages(c: Cache, c': Cache, pages: map<nat, nat>, page: nat, i: nat)
    requires PagesOk(c, pages, i) && c'.slabs == [page] + c.slabs && page % PAGE_SIZE == 0
    ensures PagesOk(c', pages[page := i], i)
  {
  }

  lemma CarvedOnly(w: Words, w': Words, page: nat, pages': map<nat, nat>, i: nat)
    requires ChangedIn(w, w', page) && page % PAGE_SIZE == 0 && page in pages' && pages'[page] == i
    ensures OnlyIn(w, w', pages', i)
  {
    forall a: nat | page <= a < page + PAGE_SIZE
      ensures PageOf(a) == page
    {
      PageIs(a, page);
    }
  }
}
