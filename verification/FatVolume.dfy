/**
  The mounted volume: the cluster-level operations of kernelspace/fs/fs.c on a
  disk of sectors, and the byte-level file operations above them.
 */
module FatVolume {
  import opened FatDisk
  import opened FatChain
  import opened FatPartition
  import opened FatBytes
  import opened FatData
  import opened FatClear
  import opened FatWrite

  /** Entry j of FAT sector s belongs to cluster 128 * s + j. */
  lemma EntryPlace(s: nat, j: nat)
    requires j < 128
    ensures EntrySector(s * 128 + j) == s && EntryOffset(s * 128 + j) == 4 * j
  {
  }

  /** Every chain of a partition consists of distinct clusters of the volume. */
  lemma ChainClusters(g: Geometry, d: Disk, ch: Chains, k: nat)
    requires Fits(g, d) && Partition(Fat(g, d), ch) && k in ch
    ensures Clusters(g, ch[k]) && Distinct(ch[k]) && IsChain(Fat(g, d), ch[k]) && ch[k][0] == k
  {
    ChainDistinct(Fat(g, d), ch[k]);
  }

  /** At most n bytes of b from position o on. */
  function Part(b: seq<Byte>, o: nat, n: nat): (r: seq<Byte>)
    ensures |r| <= n
  {
    if o >= |b| then [] else if o + n <= |b| then b[o..o + n] else b[o..]
  }

  /** What reading `len` bytes at `offset` of a file means: the requested piece of
      the string its chain denotes, cut at the recorded size. */
  function ReadSpec(text: seq<Byte>, size: nat, offset: nat, len: nat): (r: seq<Byte>)
    ensures |r| <= len
  {
    Part(if size <= |text| then text[..size] else text, offset, len)
  }

  lemma ReadSpecPart(text: seq<Byte>, size: nat, offset: nat, len: nat, n: nat)
    requires offset < size && n == if offset + len > size then size - offset else len
    ensures ReadSpec(text, size, offset, len) == Part(text, offset, n)
  {
  }

  /** What `ReadSpec` gives, byte by byte: nothing at or behind the end, and otherwise the bytes
      from the offset on, cut short by the request, the recorded size and the string alone. */
  lemma ReadInBytes(text: seq<Byte>, size: nat, offset: nat, len: nat)
    ensures offset >= size ==> ReadSpec(text, size, offset, len) == []
    ensures var out := ReadSpec(text, size, offset, len);
            && (out == [] || (|out| <= size - offset && offset + |out| <= |text|))
            && (|out| == len || offset + |out| >= size || offset + |out| >= |text|)
            && forall i {:trigger out[i]} :: 0 <= i < |out| ==> out[i] == text[offset + i]
  {
  }

  /** cs is the chain of a file: that of its first cluster, or none at all. */
  ghost predicate IsFile(fat: seq<nat>, first: nat, size: nat, cs: seq<nat>) {
    if cs == [] then size == 0 else IsChain(fat, cs) && cs[0] == first
  }

  lemma SliceJoin(b: seq<Byte>, i: nat, j: nat, k: nat)
    requires i <= j <= k <= |b|
    ensures b[i..j] + b[j..k] == b[i..k]
  {
  }

  /** Position Start(skip) lies past the end of a chain of n <= skip clusters. */
  lemma PastEnd(g: Geometry, n: nat, skip: nat, i: nat)
    requires i + 1 == n <= skip
    ensures Start(g, n) <= Start(g, skip)
  {
    if n < skip {
      TimesStep(n, skip, ClusterSize(g));
    }
  }

  /** Clusters of a chain are numbers between 2 and the end markers. */
  lemma FirstLink(g: Geometry, d: Disk, cs: seq<nat>, i: nat)
    requires Fits(g, d) && IsChain(Fat(g, d), cs) && i < |cs|
    ensures Clusters(g, cs) && 2 <= cs[i] < g.Clusters() <= EOC_MIN
  {
  }

  lemma SpliceNone(b: seq<Byte>, o: nat, s: seq<Byte>)
    requires o <= |b|
    ensures Splice(b, o, s[..0]) == b
  {
    assert s[..0] == [];
  }

  lemma PartIs(b: seq<Byte>, o: nat, len: nat, n: nat)
    requires n <= len && o + n <= |b| && (n < len ==> o + n == |b|)
    ensures Part(b, o, len) == b[o..o + n]
  {
  }

  class Volume {
    const g: Geometry
    var d: Disk
    /** The chains the clusters in use form, by first cluster. */
    ghost var chains: Chains

    /** The ownership invariant. */
    ghost predicate Valid()
      reads this
    {
      Fits(g, d) && Partition(Fat(g, d), chains)
    }

    constructor (g: Geometry, d: Disk, ghost chains: Chains)
      requires Fits(g, d) && Partition(Fat(g, d), chains)
      ensures Valid() && this.g == g && this.d == d && this.chains == chains
    {
      this.g, this.d, this.chains := g, d, chains;
    }

    method GetNextCluster(c: nat) returns (next: nat)
      requires Fits(g, d) && c < g.Clusters()
      ensures next == Fat(g, d)[c]
    {
      FatSectorOnDisk(g, d, c);
      var buf := d[g.fatSector + EntrySector(c)];
      next := Word(buf, EntryOffset(c)) % FAT_MASK;
    }

    method SetNextCluster(c: nat, next: nat)
      requires Fits(g, d) && c < g.Clusters() && next < FAT_MASK
      modifies this`d
      ensures d == WithFatEntry(g, old(d), c, next)
      ensures Fits(g, d) && Fat(g, d) == old(Fat(g, d))[c := next] && SameData(g, old(d), d)
    {
      FatSectorOnDisk(g, d, c);
      WithFatEntryExact(g, d, c, next);
      var k := g.fatSector + EntrySector(c);
      d := d[k := PutWord(d[k], EntryOffset(c), next)];
    }

    /** The scan of one FAT sector in `alloc_cluster`. */
    method ScanFatSector(s: nat) returns (c: nat)
      requires Fits(g, d) && s < g.fatSize
      ensures c == 0 ==> forall x :: 2 <= x && 128 * s <= x < 128 * s + 128 ==> Fat(g, d)[x] != 0
      ensures c != 0 ==> 2 <= c && 128 * s <= c < 128 * s + 128 && Fat(g, d)[c] == 0
      ensures c != 0 ==> forall x :: 2 <= x && 128 * s <= x < c ==> Fat(g, d)[x] != 0
    {
      hide Word;
      hide Times;
      var buf := d[g.fatSector + s];
      var j := 0;
      while j < 128
        invariant j <= 128
        invariant forall x :: 2 <= x && 128 * s <= x < 128 * s + j ==> Fat(g, d)[x] != 0
      {
        EntryPlace(s, j);
        assert Fat(g, d)[128 * s + j] == FatEntry(g, d, 128 * s + j);
        var val := Word(buf, 4 * j) % FAT_MASK;
        if val == 0 {
          var cluster := (s * SECTOR_SIZE + 4 * j) / 4;
          if cluster >= 2 {
            return cluster;
          }
        }
        j := j + 1;
      }
      return 0;
    }

    /** The scan of `alloc_cluster`: the lowest free cluster, or 0. */
    method FindFreeCluster() returns (c: nat)
      requires Fits(g, d)
      ensures c == 0 ==> forall x :: 2 <= x < g.Clusters() ==> Fat(g, d)[x] != 0
      ensures c != 0 ==> 2 <= c < g.Clusters() && Fat(g, d)[c] == 0
      ensures c != 0 ==> forall x :: 2 <= x < c ==> Fat(g, d)[x] != 0
    {
      for s := 0 to g.fatSize
        invariant forall x :: 2 <= x < 128 * s ==> Fat(g, d)[x] != 0
      {
        c := ScanFatSector(s);
        if c != 0 {
          return;
        }
      }
      return 0;
    }

    /** The second half of `alloc_cluster`: clear every sector of the cluster. */
    method ZeroCluster(c: nat)
      requires Fits(g, d) && 2 <= c < g.Clusters()
      modifies this`d
      ensures Fits(g, d) && Fat(g, d) == old(Fat(g, d))
      ensures TouchesOnly(g, old(d), d, c)
      ensures ClusterText(g, d, c) == Zeros(ClusterSize(g))
    {
      var sector := g.ClusterToSector(c);
      ghost var d0 := d;
      for j := 0 to g.spc
        invariant Fits(g, d) && Fat(g, d) == Fat(g, d0)
        invariant TouchesOnly(g, d0, d, c)
        invariant forall k :: sector <= k < sector + j && k < |d| ==> d[k] == ZERO_SECTOR
      {
        ClusterOnDisk(g, d, c, j);
        DataWriteKeepsFat(g, d, sector + j, ZERO_SECTOR);
        d := d[sector + j := ZERO_SECTOR];
      }
      ZeroedText(g, d, c);
    }

    /** `alloc_cluster`: the lowest free cluster becomes a zeroed chain of its own. */
    method AllocCluster() returns (c: nat)
      requires Fits(g, d)
      modifies this`d
      ensures Fits(g, d)
      ensures c == 0 ==> d == old(d) && forall x :: 2 <= x < g.Clusters() ==> Fat(g, d)[x] != 0
      ensures c != 0 ==> 2 <= c < g.Clusters() && old(Fat(g, d))[c] == 0
      ensures c != 0 ==> forall x :: 2 <= x < c ==> old(Fat(g, d))[x] != 0
      ensures c != 0 ==> Fat(g, d) == old(Fat(g, d))[c := EOC] && Fat(g, d)[c] == 0x0FFF_FFFF
      ensures c != 0 ==> TouchesOnly(g, old(d), d, c)
      ensures c != 0 ==> ClusterText(g, d, c) == Zeros(ClusterSize(g))
    {
      c := FindFreeCluster();
      if c != 0 {
        SetNextCluster(c, EOC);
        ZeroCluster(c);
      }
    }

    /** `clear_cluster_chain`, which stops on every FAT whose links stay in range. */
    method ClearClusterChain(first: nat)
      requires Fits(g, d) && InRange(Fat(g, d)) && (first < g.Clusters() || EOC_MIN <= first)
      modifies this`d
      ensures Fits(g, d) && SameData(g, old(d), d)
      ensures Fat(g, d) == ClearChain(old(Fat(g, d)), first)
    {
      var cluster: nat := first;
      ghost var fat, goal := Fat(g, d), ClearChain(Fat(g, d), first);
      while 2 <= cluster < EOC_MIN
        invariant Fits(g, d) && SameData(g, old(d), d) && fat == Fat(g, d) && InRange(fat)
        invariant cluster < |fat| || EOC_MIN <= cluster
        invariant ClearChain(fat, cluster) == goal
        decreases UsedCount(fat), if 2 <= cluster < EOC_MIN then 1 else 0
      {
        ClearStep(fat, cluster);
        var next := GetNextCluster(cluster);
        SetNextCluster(cluster, 0);
        fat := fat[cluster := 0];
        cluster := next;
      }
    }

    // ------------------------------------------------------------- reading

    /** Part of one sector, read through the cache page. */
    method ReadSector(c: nat, s: nat, skip: nat, n: nat) returns (chunk: seq<Byte>)
      requires Fits(g, d) && 2 <= c < g.Clusters() && s < g.spc && skip + n <= SECTOR_SIZE
      ensures |chunk| == n && s * SECTOR_SIZE + skip + n <= ClusterSize(g)
      ensures chunk == ClusterText(g, d, c)[s * SECTOR_SIZE + skip..s * SECTOR_SIZE + skip + n]
    {
      SectorSlice(g, d, c, s, skip, skip + n);
      chunk := d[g.ClusterToSector(c) + s][skip..skip + n];
    }

    /** The inner loop of both readers: up to `want` bytes of one cluster. */
    method ReadCluster(c: nat, start: nat, want: nat) returns (out: seq<Byte>)
      requires Fits(g, d) && 2 <= c < g.Clusters() && start < ClusterSize(g)
      ensures out == Part(ClusterText(g, d, c), start, want)
    {
      out := [];
      ghost var text := ClusterText(g, d, c);
      var offsetInCluster, s := start, start / SECTOR_SIZE;
      while s < g.spc && |out| < want
        invariant |out| <= want && start + |out| <= |text|
        invariant |out| < want ==> start + |out| == s * SECTOR_SIZE + offsetInCluster % SECTOR_SIZE
        invariant s <= g.spc && (s == g.spc ==> offsetInCluster == 0)
        invariant out == text[start..start + |out|]
      {
        var skip := offsetInCluster % SECTOR_SIZE;
        var canRead := SECTOR_SIZE - skip;
        if canRead > want - |out| {
          canRead := want - |out|;
        }
        var chunk := ReadSector(c, s, skip, canRead);
        SliceJoin(text, start, start + |out|, start + |out| + canRead);
        out := out + chunk;
        offsetInCluster, s := 0, s + 1;
      }
    }

    /** Where position `offset` of a file lies: how many clusters to skip, and the
        place in the next one. */
    method Locate(offset: nat) returns (skip: nat, inCluster: nat)
      requires g.Valid()
      ensures offset == Start(g, skip) + inCluster && inCluster < ClusterSize(g)
    {
      var size := ClusterSize(g);
      DivisionAsTimes(offset, size);
      skip, inCluster := offset / size, offset % size;
    }

    /** One turn of the outer loop of both readers: the rest of the j-th cluster. */
    method ReadStep(cluster: nat, start: nat, want: nat, ghost cs: seq<nat>, ghost j: nat)
      returns (chunk: seq<Byte>, next: nat)
      requires Fits(g, d) && IsChain(Fat(g, d), cs) && j < |cs| && cluster == cs[j] && start < ClusterSize(g)
      ensures |chunk| == if start + want <= ClusterSize(g) then want else ClusterSize(g) - start
      ensures Start(g, j) + start + |chunk| <= Start(g, |cs|)
      ensures chunk == Text(g, d, cs)[Start(g, j) + start..Start(g, j) + start + |chunk|]
      ensures if j + 1 < |cs| then next == cs[j + 1] else EOC_MIN <= next
    {
      chunk := ReadCluster(cluster, start, want);
      ClusterSlice(g, d, cs, j, start, start + |chunk|);
      next := GetNextCluster(cluster);
    }

    /** The outer loop of both readers, from the i-th cluster of a chain on. */
    method ReadChain(cluster0: nat, inCluster: nat, len: nat, ghost cs: seq<nat>, ghost i: nat) returns (out: seq<Byte>)
      requires Fits(g, d) && IsChain(Fat(g, d), cs) && i < |cs| && cluster0 == cs[i]
      requires inCluster < ClusterSize(g)
      ensures out == Part(Text(g, d, cs), Start(g, i) + inCluster, len)
    {
      hide Text;
      hide Fat;
      hide IsChain;
      hide Part;
      hide ClusterSize;
      FirstLink(g, d, cs, i);
      ghost var text, offset, j := Text(g, d, cs), Start(g, i) + inCluster, i;
      var cluster, offsetInCluster: nat := cluster0, inCluster;
      out := [];
      TimesStep(i, |cs|, ClusterSize(g));
      while |out| < len && 2 <= cluster < EOC_MIN
        invariant j <= |cs| && if j < |cs| then cluster == cs[j] else EOC_MIN <= cluster
        invariant |out| <= len && offset + |out| <= |text| && out == text[offset..offset + |out|]
        invariant |out| < len ==> offset + |out| == Start(g, j) + offsetInCluster
        invariant offsetInCluster < ClusterSize(g) && (j == |cs| ==> offsetInCluster == 0)
        decreases |cs| - j
      {
        var chunk, next := ReadStep(cluster, offsetInCluster, len - |out|, cs, j);
        SliceJoin(text, offset, offset + |out|, offset + |out| + |chunk|);
        out := out + chunk;
        cluster, offsetInCluster, j := next, 0, j + 1;
      }
      PartIs(text, offset, len, |out|);
    }

    /** The link after the i-th cluster of a chain. */
    method NextInChain(cluster: nat, ghost cs: seq<nat>, ghost i: nat) returns (next: nat)
      requires Fits(g, d) && IsChain(Fat(g, d), cs) && i < |cs| && cluster == cs[i]
      ensures if i + 1 < |cs| then next == cs[i + 1] && next < EOC_MIN else EOC_MIN <= next
    {
      next := GetNextCluster(cluster);
    }

    /** `ReadFile`: skips whole clusters by division. */
    method ReadFile(first: nat, size: nat, offset: nat, len: nat, ghost cs: seq<nat>) returns (out: seq<Byte>)
      requires Fits(g, d) && IsFile(Fat(g, d), first, size, cs)
      ensures out == ReadSpec(Text(g, d, cs), size, offset, len)
      ensures |out| <= len && (offset >= size ==> out == [])
      ensures out == [] || (offset + |out| <= size && offset + |out| <= |Text(g, d, cs)|)
      ensures |out| == len || offset + |out| >= size || offset + |out| >= |Text(g, d, cs)|
      ensures forall i {:trigger out[i]} :: 0 <= i < |out| ==> out[i] == Text(g, d, cs)[offset + i]
    {
      ReadInBytes(Text(g, d, cs), size, offset, len);
      if offset >= size {
        return [];
      }
      var n := if offset + len > size then size - offset else len;
      ReadSpecPart(Text(g, d, cs), size, offset, len, n);
      var skip, inCluster := Locate(offset);
      var cluster: nat := first;
      for i := 0 to skip
        invariant i < |cs| && cluster == cs[i]
      {
        cluster := NextInChain(cluster, cs, i);
        if cluster >= EOC_MIN {
          PastEnd(g, |cs|, skip, i);
          return [];
        }
      }
      out := ReadChain(cluster, inCluster, n, cs, skip);
    }

    /** `fs_read_file_offset`: skips whole clusters by repeated subtraction. */
    method ReadFileOffset(first: nat, size: nat, offset: nat, maxLen: nat, ghost cs: seq<nat>) returns (out: seq<Byte>)
      requires Fits(g, d) && IsFile(Fat(g, d), first, size, cs)
      ensures out == ReadSpec(Text(g, d, cs), size, offset, maxLen)
      ensures |out| <= maxLen && (offset >= size ==> out == [])
      ensures out == [] || (offset + |out| <= size && offset + |out| <= |Text(g, d, cs)|)
      ensures |out| == maxLen || offset + |out| >= size || offset + |out| >= |Text(g, d, cs)|
      ensures forall i {:trigger out[i]} :: 0 <= i < |out| ==> out[i] == Text(g, d, cs)[offset + i]
    {
      ReadInBytes(Text(g, d, cs), size, offset, maxLen);
      if offset >= size {
        return [];
      }
      var n := size - offset;
      if n > maxLen {
        n := maxLen;
      }
      ReadSpecPart(Text(g, d, cs), size, offset, maxLen, n);
      ghost var i := 0;
      var cluster, toSkip: nat := first, offset;
      while toSkip >= ClusterSize(g)
        invariant i < |cs| && cluster == cs[i] && offset == Start(g, i) + toSkip
        decreases toSkip
      {
        cluster := NextInChain(cluster, cs, i);
        if cluster >= EOC_MIN {
          return [];
        }
        toSkip := toSkip - ClusterSize(g);
        i := i + 1;
      }
      out := ReadChain(cluster, toSkip, n, cs, i);
    }

    // ------------------------------------------------------------- writing

    /** One sector of the write loop: read, patch and write back, or write whole. */
    method WriteSector(c: nat, s: nat, skip: nat, chunk: seq<Byte>)
      requires Fits(g, d) && 2 <= c < g.Clusters() && s < g.spc && skip + |chunk| <= SECTOR_SIZE
      modifies this`d
      ensures Fits(g, d) && Fat(g, d) == old(Fat(g, d)) && TouchesOnly(g, old(d), d, c)
      ensures s * SECTOR_SIZE + skip + |chunk| <= ClusterSize(g)
      ensures ClusterText(g, d, c) == Splice(old(ClusterText(g, d, c)), s * SECTOR_SIZE + skip, chunk)
    {
      var x := g.ClusterToSector(c) + s;
      SectorSplice(g, d, c, s, skip, chunk);
      if skip != 0 || |chunk| < SECTOR_SIZE {
        DataWriteKeepsFat(g, d, x, Splice(d[x], skip, chunk));
        d := d[x := Splice(d[x], skip, chunk)];
      } else {
        SpliceAll(d[x], chunk);
        DataWriteKeepsFat(g, d, x, chunk);
        d := d[x := chunk];
      }
    }

    /** The inner loop of `WriteFile`: as much of buf as fits the cluster. */
    method WriteCluster(c: nat, start: nat, buf: seq<Byte>) returns (n: nat)
      requires Fits(g, d) && 2 <= c < g.Clusters() && start < ClusterSize(g)
      modifies this`d
      ensures Fits(g, d) && Fat(g, d) == old(Fat(g, d)) && TouchesOnly(g, old(d), d, c)
      ensures n == if start + |buf| <= ClusterSize(g) then |buf| else ClusterSize(g) - start
      ensures ClusterText(g, d, c) == Splice(old(ClusterText(g, d, c)), start, buf[..n])
    {
      hide ClusterText;
      hide Fat;
      hide Splice;
      n := 0;
      ghost var text := ClusterText(g, d, c);
      var offsetInCluster, s := start, start / SECTOR_SIZE;
      SpliceNone(text, start, buf);
      while s < g.spc && n < |buf|
        invariant Fits(g, d) && Fat(g, d) == old(Fat(g, d)) && TouchesOnly(g, old(d), d, c)
        invariant n <= |buf| && start + n <= ClusterSize(g)
        invariant n < |buf| ==> start + n == s * SECTOR_SIZE + offsetInCluster % SECTOR_SIZE
        invariant s <= g.spc && (s == g.spc ==> offsetInCluster == 0)
        invariant ClusterText(g, d, c) == Splice(text, start, buf[..n])
      {
        var skip := offsetInCluster % SECTOR_SIZE;
        var canWrite := SECTOR_SIZE - skip;
        if canWrite > |buf| - n {
          canWrite := |buf| - n;
        }
        ghost var before := d;
        WriteSector(c, s, skip, buf[n..n + canWrite]);
        SpliceThen(text, start, buf, n, n + canWrite);
        n := n + canWrite;
        offsetInCluster, s := 0, s + 1;
      }
    }

    /** `alloc_cluster` followed by `set_next_cluster(last, ...)`. */
    method LinkNewCluster(last: nat) returns (c: nat)
      requires Fits(g, d) && last < g.Clusters()
      modifies this`d
      ensures Fits(g, d)
      ensures c == 0 ==> d == old(d)
      ensures c == 0 <==> |FreeClusters(old(Fat(g, d)))| == 0
      ensures c != 0 ==> Linked(g, old(d), d, last, c)
    {
      NoneFree(Fat(g, d));
      c := AllocCluster();
      if c != 0 {
        ghost var d1 := d;
        SetNextCluster(last, c);
        TextSameData(g, d1, d, [c]);
        TextOne(g, d, c);
        TextOne(g, d1, c);
      }
    }

    /** The step to the next cluster in `WriteFile`, which lengthens the chain at its end. */
    method NextOrLink(cluster: nat, ghost k: nat, ghost i: nat, ghost d0: Disk, ghost ch0: Chains,
                      ghost o: nat, ghost s: seq<Byte>)
      returns (next: nat)
      requires Valid() && Written(g, d0, ch0, d, chains, k, o, s)
      requires i < |chains[k]| && cluster == chains[k][i]
      modifies this
      ensures Valid() && Written(g, d0, ch0, d, chains, k, o, s)
      ensures old(chains[k]) <= chains[k]
      ensures next == 0 ==> i + 1 == |chains[k]| && |FreeClusters(Fat(g, d))| == 0
      ensures next != 0 ==> i + 1 < |chains[k]| && next == chains[k][i + 1]
    {
      hide Partition;
      hide Overlaid;
      hide OthersSame;
      hide TouchesOnly;
      hide ClusterText;
      hide Lengthened;
      ChainClusters(g, d, chains, k);
      next := NextInChain(cluster, chains[k], i);
      if next >= EOC_MIN {
        ghost var d1, ch1 := d, chains;
        next := LinkNewCluster(cluster);
        if next != 0 {
          PartitionExtend(Fat(g, d1), ch1, k, next);
          WroteExtend(g, d0, ch0, d1, ch1, d, k, cluster, next, o, s);
          LengthenedMore(Fat(g, d0), ch0[k], Fat(g, d1), ch1[k], next);
          chains := ch1[k := ch1[k] + [next]];
        }
      }
    }

    /** One turn of the outer loop of `WriteFile`. */
    method WriteStep(cluster: nat, start: nat, buf: seq<Byte>, n: nat, ghost k: nat, ghost i: nat,
                     ghost d0: Disk, ghost ch0: Chains, ghost o: nat)
      returns (m: nat)
      requires n < |buf| && Valid() && Written(g, d0, ch0, d, chains, k, o, buf[..n])
      requires i < |chains[k]| && cluster == chains[k][i] && start < ClusterSize(g) && o + n == Start(g, i) + start
      modifies this`d
      ensures m == if start + (|buf| - n) <= ClusterSize(g) then |buf| else n + ClusterSize(g) - start
      ensures Valid() && Written(g, d0, ch0, d, chains, k, o, buf[..m])
    {
      hide Partition;
      hide Overlaid;
      hide OthersSame;
      hide TouchesOnly;
      hide ClusterText;
      hide Lengthened;
      ghost var d1 := d;
      ChainClusters(g, d, chains, k);
      PartitionDisjoint(Fat(g, d), chains);
      var w := WriteCluster(cluster, start, buf[n..]);
      m := n + w;
      assert buf[n..][..w] == buf[n..m];
      WroteMore(g, d0, ch0, d1, chains, d, k, i, o, buf, n, m, start);
    }

    /** The outer loop of `WriteFile`, from the i0-th cluster of the chain on.  It falls short
        only at the end of the chain, with no free cluster left. */
    method WriteFrom(cluster0: nat, inCluster: nat, buf: seq<Byte>, ghost k: nat, ghost i0: nat,
                     ghost d0: Disk, ghost ch0: Chains, ghost o: nat)
      returns (n: nat)
      requires Valid() && Written(g, d0, ch0, d, chains, k, o, [])
      requires i0 < |chains[k]| && cluster0 == chains[k][i0]
      requires o == Start(g, i0) + inCluster && inCluster < ClusterSize(g)
      modifies this
      ensures Valid() && n <= |buf| && Written(g, d0, ch0, d, chains, k, o, buf[..n])
      ensures old(chains[k]) <= chains[k]
      ensures n < |buf| ==> |FreeClusters(Fat(g, d))| == 0 && Start(g, |chains[k]|) == o + n
    {
      hide Partition;
      hide Overlaid;
      hide OthersSame;
      hide Lengthened;
      n := 0;
      assert buf[..0] == [];
      ghost var i: nat := i0;
      var cluster: nat, offsetInCluster: nat := cluster0, inCluster;
      while n < |buf|
        invariant n <= |buf| && Valid() && Written(g, d0, ch0, d, chains, k, o, buf[..n])
        invariant i < |chains[k]| && cluster == chains[k][i] && old(chains[k]) <= chains[k]
        invariant n < |buf| ==> o + n == Start(g, i) + offsetInCluster && offsetInCluster < ClusterSize(g)
      {
        n := WriteStep(cluster, offsetInCluster, buf, n, k, i, d0, ch0, o);
        if n < |buf| {
          cluster := NextOrLink(cluster, k, i, d0, ch0, o, buf[..n]);
          if cluster == 0 {
            break;
          }
          offsetInCluster, i := 0, i + 1;
        }
      }
    }

    /** `WriteFile` on a file whose chain begins at `first`.  Fewer bytes than asked are
        written only when the volume has no free cluster left and the chain is written to
        its end; `reached` says whether the chain could be made to reach the offset. */
    method WriteChain(first: nat, offset: nat, buf: seq<Byte>) returns (n: nat, reached: bool)
      requires Valid() && first in chains
      modifies this
      ensures Valid() && n <= |buf| && (!reached ==> n == 0)
      ensures Written(g, old(d), old(chains), d, chains, first, offset, buf[..n])
      ensures n < |buf| || !reached ==> |FreeClusters(Fat(g, d))| == 0 && |Text(g, d, chains[first])| <= offset + n
      ensures reached <==> offset < |Text(g, d, chains[first])|
    {
      hide Partition;
      hide Overlaid;
      hide OthersSame;
      hide Lengthened;
      ghost var d0, ch0 := d, chains;
      ChainClusters(g, d, chains, first);
      WrittenNothing(g, d, chains, first, offset);
      assert buf[..0] == [];
      var skip: nat, inCluster: nat := Locate(offset);
      var cluster: nat := first;
      for i := 0 to skip
        invariant Valid() && Written(g, d0, ch0, d, chains, first, offset, [])
        invariant i < |chains[first]| && cluster == chains[first][i]
      {
        cluster := NextOrLink(cluster, first, i, d0, ch0, offset, []);
        if cluster == 0 {
          PastEnd(g, |chains[first]|, skip, i);
          return 0, false;
        }
      }
      n := WriteFrom(cluster, inCluster, buf, first, skip, d0, ch0, offset);
      PastStart(g, skip, |chains[first]|);
      reached := true;
    }
  }

  /** What a write did to the strings, and that the FAT changed only by lengthening. */
  ghost predicate Written(g: Geometry, d: Disk, ch: Chains, d': Disk, ch': Chains, k: nat, o: nat, s: seq<Byte>) {
    Wrote(g, d, ch, d', ch', k, o, s) && Lengthened(Fat(g, d), ch[k], Fat(g, d'), ch'[k])
  }

  lemma WrittenNothing(g: Geometry, d: Disk, ch: Chains, k: nat, o: nat)
    requires Fits(g, d) && k in ch && Clusters(g, ch[k])
    ensures Written(g, d, ch, d, ch, k, o, [])
  {
    WroteNothing(g, d, ch, k, o);
  }

  /** A chain of n > skip clusters reaches into cluster `skip`. */
  lemma PastStart(g: Geometry, skip: nat, n: nat)
    requires skip < n
    ensures Start(g, skip) + ClusterSize(g) <= Start(g, n)
  {
    TimesStep(skip, n, ClusterSize(g));
  }
}
