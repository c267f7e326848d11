// The allocator: its state in memory, and the operations on it (luajit/src/lj_alloc.c).

module AllocHeap {
  import opened AllocSizes
  import opened AllocBits
  import opened AllocRing
  import opened AllocTrie
  import opened AllocSearch
  import opened AllocSmall
  import opened AllocTile
  import opened AllocState
  import opened AllocRegion
  import opened AllocSegment
  import opened AllocFree
  import opened AllocRelease
  import opened AllocView
  import opened AllocClient
  import opened AllocFrame
  import opened AllocDirect

  /** lj_ffs of a bitmap whose bits below i are masked out: its lowest bit. */
  function Ffs(m: set<nat>, i: nat): (r: nat)
    requires exists j :: j in m && i <= j < 32
    ensures r in m && i <= r < 32
    ensures forall j :: j in m && i <= j ==> r <= j
    decreases 32 - i
  {
    if i in m then i else Ffs(m, i + 1)
  }

  function Min(a: nat, b: nat): nat { if a < b then a else b }

  /** The head word at p, whatever is there. */
  function HeadAt(head: Heads, p: int): Head { if p in head then head[p] else Head(0, false, false) }

  /** set_inuse on both parts of a block amounts to cutting it in two. */
  lemma CutInTwoWrites(head: Heads, p: int, nb: nat, n: nat)
    requires p in head && nb > 0 && n > 0 && p + nb + n in head
    ensures var h := head[p := Head(nb, head[p].pinuse, true)];
      var h1 := h[p + nb := HeadAt(h, p + nb).(pinuse := true)];
      var h2 := h1[p + nb := Head(n, h1[p + nb].pinuse, true)];
      && CutInTwo(head, p, p + nb, p + nb + n) == h2[p + nb + n := HeadAt(h2, p + nb + n).(pinuse := true)]
  {
  }

  /** chunk2mem */
  function ChunkToMem(p: int): int { p + 16 }

  /** mem2chunk */
  function MemToChunk(mem: int): int { mem - 16 }

  /** The live blocks of y', other than those of y: one for a request of req bytes. */
  ghost predicate NewBlock(y: Layout, y': Layout, mem: int, req: nat) {
    && mem > 0 && mem % MALLOC_ALIGNMENT == 0
    && MemToChunk(mem) !in y.live
    && y'.live == y.live[MemToChunk(mem) := req]
  }

  lemma NewBlockIs(y: Layout, y': Layout, p: int, req: nat)
    requires p > 0 && p % 8 == 0 && p !in y.live && y'.live == y.live[p := req]
    ensures NewBlock(y, y', ChunkToMem(p), req) && ChunkToMem(p) != 0
  {
  }

  lemma NewBlockLive(live: map<int, nat>, ds: Directs, y: Layout, y': Layout, mem: int, req: nat)
    requires NewBlock(y, y', mem, req) && live == y.live && y'.live.Keys !! ds.Keys
    ensures NewLive(AllLive(live, ds), AllLive(y'.live, ds), mem, req)
    ensures NewChunk(live, ds, y'.live, ds, MemToChunk(mem), req)
  {
    assert MemToChunk(mem) in y'.live;
    NewChunkLive(live, ds, y'.live, ds, mem, req);
  }

  lemma NotLive(live: map<int, nat>, ds: Directs, p: int)
    requires p !in AllLive(live, ds)
    ensures p !in live && p !in ds
  {
  }

  lemma AlignedAlready(a: int)
    requires a % 8 == 0
    ensures AlignOffset(ChunkToMem(a)) == 0
  {
  }

  lemma NewBlockNotNull(y: Layout, y': Layout, mem: int, req: nat)
    requires NewBlock(y, y', mem, req)
    ensures mem != 0
  {
  }

  /** The live blocks of both kinds, other than those that were there: one for a request of req bytes. */
  ghost predicate NewLive(live: map<int, nat>, live': map<int, nat>, mem: int, req: nat) {
    && mem > 0 && mem % MALLOC_ALIGNMENT == 0
    && MemToChunk(mem) !in live
    && live' == live[MemToChunk(mem) := req]
  }

  /** It is in a segment, or mapped directly. */
  ghost predicate NewChunk(live: map<int, nat>, ds: Directs, live': map<int, nat>, ds': Directs, p: int, req: nat) {
    || (live' == live[p := req] && ds' == ds)
    || (live' == live && p in ds' && ds' == ds[p := ds'[p]] && ds'[p].request == req)
  }

  lemma NewChunkLive(live: map<int, nat>, ds: Directs, live': map<int, nat>, ds': Directs, mem: int, req: nat)
    requires NewChunk(live, ds, live', ds', MemToChunk(mem), req) && mem > 0 && mem % MALLOC_ALIGNMENT == 0
    requires MemToChunk(mem) !in live && MemToChunk(mem) !in ds
    ensures NewLive(AllLive(live, ds), AllLive(live', ds'), mem, req)
  {
    var p := MemToChunk(mem);
    var l := AllLive(live, ds)[p := req];
    if ds' != ds {
      assert Requests(ds') == Requests(ds)[p := req];
    }
    assert AllLive(live', ds') == l;
  }

  lemma AsLive(live: map<int, nat>, ds: Directs, p: int)
    requires p in live || p in ds
    ensures p in AllLive(live, ds)
  {
  }

  /** A block less. */
  lemma LiveWithout(live: map<int, nat>, ds: Directs, p: int)
    ensures AllLive(live - {p}, ds - {p}) == AllLive(live, ds) - {p}
    ensures p !in live ==> live - {p} == live
    ensures p !in ds ==> ds - {p} == ds
  {
    assert Requests(ds - {p}) == Requests(ds) - {p};
  }

  /** The first n bytes at mem are those that were at old. */
  ghost predicate Preserved(before: map<int, int>, mem: int, after: map<int, int>, mem': int, n: nat) {
    forall a :: mem' <= a < mem' + n ==> Rd(after, a) == Rd(before, mem + (a - mem'))
  }

  lemma CopyOne(before: map<int, int>, bytes: map<int, int>, bytes': map<int, int>, dst: int, src: int, k: nat)
    requires Preserved(before, src, bytes, dst, k) && bytes' == bytes[dst + k := Rd(before, src + k)]
    ensures Preserved(before, src, bytes', dst, k + 1)
  {
    forall a | dst <= a < dst + (k + 1)
      ensures Rd(bytes', a) == Rd(before, src + (a - dst))
    {
      if a == dst + k {
        assert src + (a - dst) == src + k;
      } else {
        assert Rd(bytes', a) == Rd(bytes, a);
      }
    }
  }

  /** Protected bytes are not touched. */
  lemma ByteKept(kept: Shield, v: View, v': View, before: map<int, int>, after: map<int, int>, a: int)
    requires SameKept(kept, v, v') && forall z :: Rd(after, z) == Rd(before, z) || Touched(v, v', z)
    requires forall w :: w <= a < w + 8 ==> !Clear(kept, w)
    ensures Rd(after, a) == Rd(before, a)
  {
    hide SameKept, TouchedWord, Clear;
    forall w | w <= a < w + 8
      ensures !TouchedWord(v, v', w)
    {
      WordKept(kept, v, v', w);
    }
  }

  lemma BytesKept(kept: Shield, v: View, v': View, before: map<int, int>, after: map<int, int>, p: int)
    requires SameKept(kept, v, v') && p in kept.blocks
    requires forall a :: Rd(after, a) == Rd(before, a) || Touched(v, v', a)
    ensures Preserved(before, ChunkToMem(p), after, ChunkToMem(p), kept.blocks[p])
  {
    hide SameKept, Touched;
    forall a | p + 16 <= a < p + 16 + kept.blocks[p]
      ensures Rd(after, a) == Rd(before, a)
    {
      ByteKept(kept, v, v', before, after, a);
    }
  }

  lemma RegionKept(kept: Shield, v: View, v': View, before: map<int, int>, after: map<int, int>, g: Segment)
    requires SameKept(kept, v, v') && g in kept.regions
    requires forall a :: Rd(after, a) == Rd(before, a) || Touched(v, v', a)
    ensures Preserved(before, g.base, after, g.base, g.size)
  {
    hide SameKept, Touched;
    forall a | g.base <= a < g.base + g.size
      ensures Rd(after, a) == Rd(before, a)
    {
      ByteKept(kept, v, v', before, after, a);
    }
  }

  lemma PartBytes(b: map<int, int>, b': map<int, int>, base: int, size: nat, mem: int, n: nat)
    requires Preserved(b, base, b', base, size) && base <= mem && mem + n <= base + size
    ensures Preserved(b, mem, b', mem, n)
  {
    forall a | mem <= a < mem + n
      ensures Rd(b', a) == Rd(b, mem + (a - mem))
    {
      assert Rd(b', a) == Rd(b, base + (a - base));
    }
  }

  /** Direct chunks have room for their requests. */
  ghost predicate RoomIn(ds: Directs) { forall p <- ds :: ds[p].request + DIRECT_CHUNK_OVERHEAD <= ds[p].size }

  /** The payloads of all live blocks, and other protected regions, are as before. */
  lemma LiveBytesKept(live: map<int, nat>, ds: Directs, more: set<Segment>, v: View, v': View, before: map<int, int>,
                      after: map<int, int>)
    requires SameKept(Shield(live, Regions(ds) + more), v, v') && RoomIn(ds)
    requires forall a :: Rd(after, a) == Rd(before, a) || Touched(v, v', a)
    ensures forall p <- AllLive(live, ds) :: Preserved(before, ChunkToMem(p), after, ChunkToMem(p), AllLive(live, ds)[p])
    ensures forall g <- more :: Preserved(before, g.base, after, g.base, g.size)
  {
    hide SameKept, Touched, Preserved;
    var kept := Shield(live, Regions(ds) + more);
    forall g <- more
      ensures Preserved(before, g.base, after, g.base, g.size)
    {
      RegionKept(kept, v, v', before, after, g);
    }
    forall p <- AllLive(live, ds)
      ensures Preserved(before, ChunkToMem(p), after, ChunkToMem(p), AllLive(live, ds)[p])
    {
      if p in ds {
        RegionKept(kept, v, v', before, after, Segment(p, ds[p].size));
        PartBytes(before, after, p, ds[p].size, ChunkToMem(p), ds[p].request);
      } else {
        BytesKept(kept, v, v', before, after, p);
      }
    }
  }

  /** The bytes of memory as clients see them. */
  class Ram {
    var bytes: map<int, int>

    /** Bytes that the allocator wrote to as parts of its own words hold anything. */
    method Settle(v: View, v': View)
      modifies this
      ensures forall a :: Rd(bytes, a) == old(Rd(bytes, a)) || Touched(v, v', a)
      ensures v == v' ==> bytes == old(bytes)
    {
      hide Touched;
      if v == v' {
        return;
      }
      var noise: map<int, int> := *;
      bytes := map a | a in bytes.Keys + noise.Keys && (a in bytes || Touched(v, v', a)) ::
                 if a in noise && Touched(v, v', a) then noise[a] else bytes[a];
    }

    /** memcpy */
    method Copy(dst: int, src: int, n: nat)
      requires dst + n <= src || src + n <= dst
      modifies this
      ensures Preserved(old(bytes), src, bytes, dst, n)
      ensures forall a :: !(dst <= a < dst + n) ==> Rd(bytes, a) == old(Rd(bytes, a))
    {
      var k := 0;
      while k < n
        invariant 0 <= k <= n
        invariant Preserved(old(bytes), src, bytes, dst, k)
        invariant forall a :: !(dst <= a < dst + k) ==> Rd(bytes, a) == old(Rd(bytes, a))
      {
        CopyOne(old(bytes), bytes, bytes[dst + k := Rd(bytes, src + k)], dst, src, k);
        bytes := bytes[dst + k := Rd(bytes, src + k)];
        k := k + 1;
      }
    }
  }

  lemma OtherBytes(b0: map<int, int>, b1: map<int, int>, b2: map<int, int>, mem: int, size: nat, dst: int, n: nat)
    requires Preserved(b1, mem, b2, mem, size) && forall a :: !(dst <= a < dst + n) ==> Rd(b1, a) == Rd(b0, a)
    requires mem + size <= dst || dst + n <= mem
    ensures Preserved(b0, mem, b2, mem, size)
  {
    forall a | mem <= a < mem + size
      ensures Rd(b2, a) == Rd(b0, mem + (a - mem))
    {
      assert Rd(b2, a) == Rd(b1, mem + (a - mem));
    }
  }

  lemma BytesAgain(b0: map<int, int>, b1: map<int, int>, b2: map<int, int>, src: int, size: nat, dst: int, n: nat)
    requires Preserved(b0, src, b1, src, size) && Preserved(b1, src, b2, dst, n) && n <= size
    ensures Preserved(b0, src, b2, dst, n)
  {
    forall a | dst <= a < dst + n
      ensures Rd(b2, a) == Rd(b0, src + (a - dst))
    {
      var z := src + (a - dst);
      assert Rd(b1, z) == Rd(b0, src + (z - src));
    }
  }

  lemma BytesStay(b0: map<int, int>, b1: map<int, int>, b2: map<int, int>, src: int, dst: int, n: nat, size: nat)
    requires Preserved(b0, src, b1, dst, n) && Preserved(b1, dst, b2, dst, size) && n <= size
    ensures Preserved(b0, src, b2, dst, n)
  {
    forall a | dst <= a < dst + n
      ensures Rd(b2, a) == Rd(b0, src + (a - dst))
    {
      assert Rd(b2, a) == Rd(b1, dst + (a - dst));
    }
  }

  /** Bytes of block p have been copied to block q, and p has been freed. */
  lemma CopiedBytes(b0: map<int, int>, b1: map<int, int>, b2: map<int, int>, live: map<int, nat>, p: int, q: int, n: nat)
    requires p in live && q in live && p != q && n <= live[p] && n <= live[q]
    requires Preserved(b0, ChunkToMem(p), b1, ChunkToMem(q), n)
    requires forall a :: !(ChunkToMem(q) <= a < ChunkToMem(q) + n) ==> Rd(b1, a) == Rd(b0, a)
    requires forall r <- live - {p} :: Preserved(b1, ChunkToMem(r), b2, ChunkToMem(r), live[r])
    requires forall r: int, z: int :: r in live && z in live && r < z ==> r + 16 + live[r] <= z + 16
    ensures Preserved(b0, ChunkToMem(p), b2, ChunkToMem(q), n)
    ensures forall r <- live :: r != p && r != q ==> Preserved(b0, ChunkToMem(r), b2, ChunkToMem(r), live[r])
  {
    hide Preserved;
    assert q in live - {p};
    BytesStay(b0, b1, b2, ChunkToMem(p), ChunkToMem(q), n, live[q]);
    forall r <- live | r != p && r != q
      ensures Preserved(b0, ChunkToMem(r), b2, ChunkToMem(r), live[r])
    {
      assert r in live - {p} && (r < q || q < r);
      OtherBytes(b0, b1, b2, ChunkToMem(r), live[r], ChunkToMem(q), n);
    }
  }

  lemma FewerBytes(b: map<int, int>, b': map<int, int>, mem: int, mem': int, n: nat, m: nat)
    requires Preserved(b, mem, b', mem', n) && m <= n
    ensures Preserved(b, mem, b', mem', m)
  {
  }

  /** A new block came to be, and the old one has been copied to it and freed. */
  lemma MovedBytes(b0: map<int, int>, b1: map<int, int>, b2: map<int, int>, live: map<int, nat>, live1: map<int, nat>,
                   live2: map<int, nat>, p: int, q: int, n: nat)
    requires p in live1 && n <= live1[p] && q !in live
    requires forall r <- live1 :: Preserved(b0, ChunkToMem(r), b1, ChunkToMem(r), live1[r])
    requires forall r <- live :: r != p ==> r in live1 && r in live2 && live2[r] == live1[r] == live[r]
    requires Preserved(b1, ChunkToMem(p), b2, ChunkToMem(q), n)
    requires forall r <- live2 :: r != p && r != q ==> Preserved(b1, ChunkToMem(r), b2, ChunkToMem(r), live2[r])
    ensures Preserved(b0, ChunkToMem(p), b2, ChunkToMem(q), n)
    ensures forall r <- live :: r != p ==> Preserved(b0, ChunkToMem(r), b2, ChunkToMem(r), live[r])
  {
    hide Preserved;
    BytesAgain(b0, b1, b2, ChunkToMem(p), live1[p], ChunkToMem(q), n);
    forall r <- live | r != p
      ensures Preserved(b0, ChunkToMem(r), b2, ChunkToMem(r), live[r])
    {
      BytesAgain(b0, b1, b2, ChunkToMem(r), live[r], ChunkToMem(r), live[r]);
    }
  }

  /** A block is taken to hold another number of bytes, and back. */
  lemma ReckonedBack(live: map<int, nat>, ds: Directs, live1: map<int, nat>, ds1: Directs, live2: map<int, nat>, ds2: Directs,
                     p: int, n: nat, m: nat)
    requires Reckoned(live, ds, live1, ds1, p, n) && Reckoned(live1, ds1, live2, ds2, p, m)
    requires live.Keys !! ds.Keys && p in AllLive(live, ds) && m == AllLive(live, ds)[p]
    ensures live2 == live && ds2 == ds
  {
    if p in ds {
      assert ds2[p] == ds[p];
    }
  }

  /** A new block comes to be beside the one that is to be freed. */
  lemma MovedLive(live: map<int, nat>, ds: Directs, live1: map<int, nat>, ds1: Directs, live2: map<int, nat>, ds2: Directs,
                  p: int, n: nat, mem: int, req: nat)
    requires Reckoned(live, ds, live1, ds1, p, n) && (p in live || p in ds)
    requires NewLive(AllLive(live1, ds1), AllLive(live2, ds2), mem, req) && NewChunk(live1, ds1, live2, ds2, MemToChunk(mem), req)
    ensures p in AllLive(live1, ds1) && AllLive(live1, ds1)[p] == n && MemToChunk(mem) !in AllLive(live, ds)
    ensures AllLive(live2, ds2) - {p} == (AllLive(live, ds) - {p})[MemToChunk(mem) := req]
    ensures AllLive(live2 - {p}, ds2 - {p}) == AllLive(live2, ds2) - {p}
    ensures forall r <- AllLive(live1, ds1) :: r in AllLive(live2, ds2) && AllLive(live2, ds2)[r] == AllLive(live1, ds1)[r]
    ensures forall r <- AllLive(live, ds) :: r != p ==> r in AllLive(live1, ds1) && AllLive(live1, ds1)[r] == AllLive(live, ds)[r]
    ensures Within(Shield(live - {p}, Regions(ds - {p})), Shield(live2 - {p}, Regions(ds2 - {p})))
  {
    var q := MemToChunk(mem);
    ReckonedLive(live, ds, live1, ds1, p, n);
    LiveWithout(live2, ds2, p);
    assert q != p;
    NotLive(live1, ds1, q);
    RegionsWithin(ds, ds2 - {p}, {p});
    hide AllLive, Regions;
  }

  /** A direct chunk has another size. */
  lemma ResizedLive(live: map<int, nat>, ds: Directs, ds': Directs, p: int, n: nat)
    requires p in ds && p !in live && p in ds' && ds' == ds[p := Direct(ds'[p].size, n)]
    ensures AllLive(live, ds') == AllLive(live, ds)[p := n] && live - {p} == live
  {
    var l := AllLive(live, ds)[p := n];
    assert AllLive(live, ds') == l;
  }

  lemma RelabelledLive(live: map<int, nat>, ds: Directs, p: int, n: nat)
    requires p !in ds
    ensures AllLive(live[p := n], ds) == AllLive(live, ds)[p := n] && ds - {p} == ds
  {
    var l := AllLive(live, ds)[p := n];
    assert AllLive(live[p := n], ds) == l;
  }

  lemma RoomFewer(ds: Directs, p: int)
    requires RoomIn(ds)
    ensures RoomIn(ds - {p})
  {
  }

  lemma NoneMore(ds: Directs)
    ensures Regions(ds) + {} == Regions(ds)
  {
  }

  lemma LessRegions(blocks: map<int, nat>, regions: set<Segment>, more: set<Segment>)
    ensures Within(Shield(blocks, regions), Shield(blocks, regions + more))
  {
  }

  /** A call to the system for memory, and whether it was granted. */
  datatype Mmap = Mmap(size: nat, granted: bool)

  /** What has been asked of the system for a chunk of nb bytes: a region of its own, if it is
      large, and if that is refused a region for a segment. */
  ghost predicate Asked(before: seq<Mmap>, after: seq<Mmap>, nb: nat, granted: bool) {
    var direct := nb >= DEFAULT_MMAP_THRESHOLD && DirectRequest(nb) > nb;
    var more := SystemRequest(nb) > nb;
    || (direct && granted && after == before + [Mmap(DirectRequest(nb), true)])
    || (&& (granted ==> more)
        && after == before + (if direct then [Mmap(DirectRequest(nb), false)] else [])
                           + (if more then [Mmap(SystemRequest(nb), granted)] else []))
  }

  /** The size that stands for one too large is not asked for. */
  lemma TooLarge(before: seq<Mmap>, after: seq<Mmap>, granted: bool)
    requires Asked(before, after, WORD - 1, granted)
    ensures after == before
  {
    SystemRequestFits(WORD - 1);
    DirectRequestFits(WORD - 1);
    hide SystemRequest, DirectRequest;
  }

  /** The system that memory comes from. */
  class System {
    ghost var calls: seq<Mmap>
    ghost var returned: seq<Return>
    var mapped: map<int, nat>

    constructor () { calls, returned, mapped := [], [], map[]; }

    /** CALL_MMAP: the system may refuse, or hand out any fresh aligned region. */
    method CallMmap(size: nat, segs: seq<Segment>) returns (ok: bool, base: int)
      modifies this`calls
      ensures calls == old(calls) + [Mmap(size, ok)]
      ensures ok ==> FreshRegion(segs, Segment(base, size)) && Vacant(mapped, segs, Segment(base, size))
    {
      base := *;
      ok := FreshRegion(segs, Segment(base, size)) && Vacant(mapped, segs, Segment(base, size));
      calls := calls + [Mmap(size, ok)];
    }

    /** CALL_MUNMAP: the system may take memory back, or not. */
    method CallMunmap(base: int, size: nat) returns (ok: bool)
      modifies this`returned
      ensures returned == old(returned) + [Return(Segment(base, size), ok)]
    {
      ok := *;
      returned := returned + [Return(Segment(base, size), ok)];
    }

    /** CALL_MREMAP to a smaller size, in place: the end is taken back, or not. */
    method CallMremap(base: int, size: nat, newsize: nat) returns (ok: bool)
      requires newsize <= size
      modifies this`returned
      ensures returned == old(returned) + [Return(Segment(base + newsize, size - newsize), ok)]
    {
      ok := *;
      returned := returned + [Return(Segment(base + newsize, size - newsize), ok)];
    }

    /** DIRECT_MMAP: a region for a single chunk, which the system keeps track of. */
    method DirectMmap(size: nat, segs: seq<Segment>) returns (ok: bool, base: int)
      modifies this`calls, this`mapped
      ensures calls == old(calls) + [Mmap(size, ok)]
      ensures mapped == if ok then old(mapped)[base := size] else old(mapped)
      ensures ok ==> RegionOk(Segment(base, size)) && Vacant(old(mapped), segs, Segment(base, size))
    {
      base := *;
      ok := RegionOk(Segment(base, size)) && Vacant(mapped, segs, Segment(base, size));
      calls := calls + [Mmap(size, ok)];
      if ok {
        mapped := mapped[base := size];
      }
    }

    /** CALL_MUNMAP of such a region; if it fails, nobody else gets the region. */
    method DirectMunmap(base: int, size: nat)
      requires base in mapped && mapped[base] == size
      modifies this`mapped, this`returned
      ensures OfferedOnce(old(returned), returned, Segment(base, size))
      ensures mapped == if returned[|old(returned)|].granted then old(mapped) - {base} else old(mapped)
    {
      var ok: bool := *;
      returned := returned + [Return(Segment(base, size), ok)];
      if ok {
        mapped := mapped - {base};
      }
    }

    /** CALL_MREMAP of such a region, in place: there may be room, or not. */
    method DirectMremap(base: int, size: nat, newsize: nat, segs: seq<Segment>) returns (ok: bool)
      requires base in mapped && mapped[base] == size
      modifies this`mapped
      ensures mapped == if ok then old(mapped)[base := newsize] else old(mapped)
      ensures ok ==> RegionOk(Segment(base, newsize)) && Vacant(old(mapped) - {base}, segs, Segment(base, newsize))
    {
      ok := *;
      ok := ok && RegionOk(Segment(base, newsize)) && Vacant(mapped - {base}, segs, Segment(base, newsize));
      if ok {
        mapped := mapped[base := newsize];
      }
    }
  }

  const DEFAULT_TRIM_THRESHOLD := 0x20_0000
  const MAX_RELEASE_CHECK_RATE := 255

  /** Where the record of the first segment is, from the start of its first chunk on. */
  const SEG_RECORD := 16 + 840

  /** Bytes that are to stay as they are, the words of memory at some time, and the directly
      mapped chunks, whose regions are always protected. */
  class Guard {
    ghost var kept: Shield
    ghost var snap: View
    ghost var direct: Directs
  }

  class MState {
    const os: System
    ghost const guard: Guard

    // chunk fields in memory
    var head: Heads
    var foot: map<int, int>
    var fd: Word
    var bk: Word
    var links: Links

    // malloc_state
    var smallmap: set<nat>
    var treemap: set<nat>
    var treebins: seq<int>
    var dv: int
    var dvsize: nat
    var top: int
    var topsize: nat
    var segs: seq<Segment>
    var records: seq<int>
    var trimCheck: nat
    var releaseChecks: nat

    ghost var trie: Trie
    ghost var small: Bins
    ghost var layout: Layout

    /** lj_alloc_create, where the system handed out the region at tbase. */
    constructor (tbase: int, os: System)
      requires FreshRegion([], Segment(tbase, DEFAULT_GRANULARITY))
      ensures Valid() && Live() == map[] && this.os == os
    {
      this.os := os;
      guard := new Guard;
      hide StateOk, FirstLayout, FirstHeads, InitBins, SameKept, Mapped;
      FirstOk(tbase, InitBins());
      head := FirstHeads(tbase);
      foot := map[];
      fd := InitBins();
      bk := InitBins();
      links := Links(map[], map[], map[], map[]);
      smallmap, treemap, treebins := {}, {}, seq(NTREEBINS, _ => 0);
      dv, dvsize := 0, 0;
      top, topsize := tbase + STATE_SIZE, DEFAULT_GRANULARITY - STATE_SIZE - TOP_FOOT_SIZE;
      segs, records := [Segment(tbase, DEFAULT_GRANULARITY)], [tbase + SEG_RECORD];
      trimCheck, releaseChecks := DEFAULT_TRIM_THRESHOLD, MAX_RELEASE_CHECK_RATE;
      small, trie, layout := EmptyHoldings().small, EmptyHoldings().trie, FirstLayout(tbase);
      new;
      NoDirects(layout, Fields(), os.mapped);
      Protect(map[], map[]);
    }

    /** Between the calls, clients write to their payloads. */
    method ClientStore(v': View)
      requires Valid() && ClientWrites(Fields(), layout, Payloads(guard.direct), v')
      modifies this, guard
      ensures Valid() && Fields() == v' && layout == old(layout) && guard.direct == old(guard.direct)
    {
      hide StateOk, SameKept, KeptIn, Mapped, ClientWrites;
      LiveFacts();
      DirectsAfterClients(Fields(), Held(), Current(), layout, guard.kept, guard.direct, v');
      OtherBlocks(guard.kept, layout, layout, map[]);
      ClientFields(Fields(), layout, Payloads(guard.direct), v');
      head, foot, fd, bk, links := v'.head, v'.foot, v'.fd, v'.bk, v'.links;
      Protect(map[], guard.direct);
    }

    lemma ClientFields(v: View, y: Layout, holes: set<Segment>, v': View)
      requires ClientWrites(v, y, holes, v')
      ensures v' == v.(head := v'.head, foot := v'.foot, fd := v'.fd, bk := v'.bk, links := v'.links)
    {
    }

    /** From now on, these bytes are protected; the directly mapped chunks are as given. */
    ghost method Protect(blocks: map<int, nat>, ds: Directs)
      requires StateOk(Fields(), Held(), Current(), layout, {}) && KeptIn(Shield(blocks, Regions(ds)), layout)
      requires DirectsOk(head, foot, ds) && MappedIn(ds, os.mapped)
      modifies guard
      ensures Valid() && guard.kept == Shield(blocks, Regions(ds)) && guard.snap == Fields() && guard.direct == ds
    {
      hide StateOk, SameKept, KeptIn, DirectsOk, MappedIn;
      guard.kept, guard.snap, guard.direct := Shield(blocks, Regions(ds)), Fields(), ds;
      KeptStart(guard.kept, Fields());
    }

    /** From now on, the given bytes of blocks are protected. */
    ghost method Watch(blocks: map<int, nat>)
      requires Valid() && forall p <- blocks :: p in layout.live && blocks[p] <= layout.live[p]
      modifies guard
      ensures Valid() && guard.direct == old(guard.direct)
      ensures guard.kept == Shield(blocks, Regions(guard.direct)) && guard.snap == Fields()
    {
      hide StateOk, SameKept, KeptIn, DirectsOk, MappedIn;
      LiveFacts();
      OtherBlocks(guard.kept, layout, layout, blocks);
      Protect(blocks, guard.direct);
    }

    /** The directly mapped chunks are in the memory that the system has mapped for them, and
        no write since has been to their regions. */
    ghost predicate Mapped()
      reads guard, os`mapped
    {
      && guard.kept.regions == Regions(guard.direct)
      && DirectsOk(guard.snap.head, guard.snap.foot, guard.direct)
      && MappedIn(guard.direct, os.mapped)
    }

    lemma LiveFacts()
      requires Valid()
      ensures guard.kept.regions == Regions(guard.direct) && MappedIn(guard.direct, os.mapped)
      ensures forall p <- guard.direct :: p in os.mapped && os.mapped[p] == guard.direct[p].size
      ensures StateOk(Fields(), Held(), Current(), layout, {}) && KeptOk(guard.kept, guard.snap, Fields(), layout)
      ensures DirectsOk(head, foot, guard.direct) && RoomIn(guard.direct)
      ensures layout.live.Keys !! guard.direct.Keys
    {
      hide StateOk, SameKept, KeptIn, DirectsOk, Regions;
      DirectsNow(guard.kept, guard.snap, Fields(), guard.direct);
      KeysApart(Fields(), Held(), Current(), layout, guard.kept, guard.direct);
      forall q <- guard.direct
        ensures guard.direct[q].request + DIRECT_CHUNK_OVERHEAD <= guard.direct[q].size
      {
        DirectSize(head, foot, guard.direct, q);
      }
    }

    /** All live blocks, by request. */
    ghost function Live(): map<int, nat>
      reads this`layout, guard`direct
    {
      AllLive(layout.live, guard.direct)
    }

    predicate IsDirect(p: int)
      requires p in head
      reads this
    {
      !head[p].pinuse && Rd(foot, p) % 2 == IS_DIRECT_BIT
    }

    /** overhead_for */
    function OverheadFor(p: int): nat
      requires p in head
      reads this
    {
      if IsDirect(p) then DIRECT_CHUNK_OVERHEAD else CHUNK_OVERHEAD
    }

    lemma WhichKind(p: int)
      requires Valid() && p in Live()
      ensures p in head && (IsDirect(p) <==> p in guard.direct) && (p in guard.direct <==> p !in layout.live)
      ensures Live()[p] + OverheadFor(p) <= head[p].size
      ensures p in guard.direct ==> Rd(foot, p) == IS_DIRECT_BIT && guard.direct[p].size == head[p].size + DIRECT_FOOT_PAD
    {
      hide StateOk, SameKept, KeptIn, DirectsOk, MappedIn, Regions;
      LiveFacts();
      TellsDirect(Fields(), Held(), Current(), layout, guard.kept, guard.direct, p);
      if p in guard.direct {
        DirectSize(head, foot, guard.direct, p);
      } else {
        FreeStart(Fields(), Held(), Current(), layout, p);
      }
    }

    /** Live blocks of both kinds are aligned and share no bytes. */
    lemma LiveSafe()
      requires Valid()
      ensures forall p <- Live() :: p > 0 && (p + 16) % 8 == 0
      ensures forall p: int, q: int :: p in Live() && q in Live() && p < q ==> p + 16 + Live()[p] <= q + 16
    {
      hide StateOk, SameKept, KeptIn, DirectsOk, MappedIn, Regions, AllLive;
      LiveFacts();
      AllSafe(Fields(), Held(), Current(), layout, guard.kept, guard.direct);
    }

    ghost predicate TreeBinsOk()
      reads this
    {
      BinsOk(head, links, fd, bk, treebins, treemap, trie)
    }

    ghost predicate BinsValid()
      reads this
    {
      AllBinsOk(head, links, fd, bk, smallmap, treebins, treemap, small, trie)
    }

    method SetKid(t: int, step: bool, c: int)
      modifies this`links
      ensures links == old(links).(left := if step then old(links).left else old(links).left[t := c],
                                   right := if step then old(links).right[t := c] else old(links).right)
    {
      if step {
        links := links.(right := links.right[t := c]);
      } else {
        links := links.(left := links.left[t := c]);
      }
    }

    /** insert_large_chunk */
    method InsertLargeChunk(x: int, s: nat)
      requires TreeBinsOk() && LargeSize(s) && SizedChunk(head, x, s) && !Member(trie, x)
      modifies this`links, this`fd, this`bk, this`treebins, this`treemap, this`trie
      ensures TreeBinsOk()
      ensures Added(old(trie), trie, x)
      ensures RingWrites(old(fd), old(bk), fd, bk, old(trie), x) && TreeWrites(old(links), links, old(trie), x)
    {
      hide TrieOk, RootsOk, LargeSize, Node, ShapeOk, TreeIndex, Shl, Depth, Added, Member, Regroup, AddLeaf,
        LeftShiftForTreeIndex, Walked, RingWrites, TreeWrites;
      var i := TreeIndex(s);
      ghost var k, g, fd0, bk0 := links, trie, fd, bk;
      links := links.(index := links.index[x := i], left := links.left[x := 0], right := links.right[x := 0]);
      RingWritesAlone(fd, bk, g, x);
      WalkStartOk(head, k, fd, bk, treebins, treemap, g, s);
      if i !in treemap {
        treemap := treemap + {i};
        treebins := treebins[i := x];
        links := links.(parent := links.parent[x := BinSlot(i)]);
        fd, bk := fd[x := x], bk[x := x];
        trie := AddLeaf(g, At(s, 0), s, x);
        InsertLeaf(head, k, fd0, bk0, old(treebins), old(treemap), g, s, x, 0);
        LeafWritesAt(head, k, fd0, bk0, g, s, x, 0);
      } else {
        var t := treebins[i];
        var bits := Shl(s, LeftShiftForTreeIndex(i));
        ghost var d := 0;
        while true
          invariant links == k.(index := k.index[x := i], left := k.left[x := 0], right := k.right[x := 0])
          invariant fd == fd0 && bk == bk0 && treebins == old(treebins) && treemap == old(treemap) && trie == g
          invariant ShapeOk(g) && Walked(g, s, d) && d <= Depth(i)
          invariant t == Node(g, At(s, d)) && bits == Shl(s, LeftShiftForTreeIndex(i) + d)
          decreases Depth(i) - d
        {
          WalkHere(head, k, fd0, bk0, treebins, treemap, g, s, d, x);
          if head[t].size != s {
            var step := bits >= HIGH_BIT;
            var c := Rd(Kid(links, step), t);
            WalkStepOk(head, k, fd0, bk0, treebins, treemap, g, s, d, step);
            bits := bits * 2 % WORD;
            ShlNext(s, LeftShiftForTreeIndex(i) + d);
            if c != 0 {
              t := c;
              d := d + 1;
            } else {
              SetKid(t, step, x);
              links := links.(parent := links.parent[x := t]);
              fd, bk := fd[x := x], bk[x := x];
              trie := AddLeaf(g, At(s, d + 1), s, x);
              InsertLeaf(head, k, fd0, bk0, treebins, treemap, g, s, x, d + 1);
              LeafWritesAt(head, k, fd0, bk0, g, s, x, d + 1);
              break;
            }
          } else {
            var f := Rd(fd, t);
            NodeNeighbours(head, k, fd0, bk0, g, At(s, d));
            fd := fd[t := x];
            bk := bk[f := x];
            fd := fd[x := f];
            bk := bk[x := t];
            links := links.(parent := links.parent[x := 0]);
            RingWritesJoin(fd0, bk0, g, x, t, f);
            JoinWrites(k, g, x, i);
            InsertBehind(head, k, fd0, bk0, treebins, treemap, g, s, x, At(s, d), f);
            trie := Regroup(g, s, [t, x] + g.ring[s][1..]);
            break;
          }
        }
      }
    }

    /** Follows the deepest right-first branch below x and cuts its last leaf off
        the tree. Null when x has no children. */
    method CutLeafBelow(x: int, ghost l: Loc) returns (r: int, ghost m: Loc)
      requires TreeBinsOk() && l in trie.loc && x == Node(trie, l)
      modifies this`links
      ensures r == 0 ==> IsLeaf(trie, l) && links == old(links)
      ensures r != 0 ==> r > 0 && IsLeaf(trie, m) && Below(m, l) && m in trie.loc && r == Node(trie, m)
      ensures r != 0 ==> links == DropLinks(old(links), m, ParentOf(trie, m))
    {
      hide ShapeOk, PlaceOk, SizesOk, TreeOk, RingsOk, RootsOk, Node, Below, ParentOf;
      ghost var k := links;
      m := l;
      var rp, rstep := x, true;
      Kids(head, k, fd, bk, trie, l);
      r := Rd(links.right, x);
      if r == 0 {
        rstep := false;
        r := Rd(links.left, x);
      }
      if r != 0 {
        m := Child(l, rstep);
        StepBelow(trie, l, l, rstep);
        while true
          invariant links == k && r == Node(trie, m) && r > 0
          invariant m in trie.loc && Below(m, l) && SlotIs(m, rstep) && !SlotIs(m, !rstep) && rp == ParentOf(trie, m)
          decreases Depth(m.bin) - |m.path|
        {
          Kids(head, k, fd, bk, trie, m);
          if Rd(links.right, r) != 0 {
            StepBelow(trie, l, m, true);
            rp, rstep, m := r, true, Child(m, true);
          } else if Rd(links.left, r) != 0 {
            StepBelow(trie, l, m, false);
            rp, rstep, m := r, false, Child(m, false);
          } else {
            break;
          }
          Kids(head, k, fd, bk, trie, m);
          r := Rd(Kid(links, rstep), rp);
        }
        SetKid(rp, rstep, 0);
      }
    }

    /** Puts r where tree node x is, or nothing if r is null: the part of
        unlink_large_chunk guarded by XP != 0. */
    method Relink(x: int, xp: int, r: int, ghost l: Loc)
      requires l.bin < NTREEBINS == |treebins| && Rd(links.index, x) == l.bin
      requires x == treebins[l.bin] <==> l.path == []
      requires l.path != [] ==> (Rd(links.left, xp) == x <==> !LastStep(l))
      requires x != xp && x != r && xp != r
      modifies this`links, this`treebins, this`treemap
      ensures treebins == if l.path == [] then old(treebins)[l.bin := r] else old(treebins)
      ensures treemap == if l.path == [] && r == 0 then old(treemap) - {l.bin} else old(treemap)
      ensures links == if r == 0 then DropLinks(old(links), l, xp) else SwapLinks(old(links), l, x, r, xp)
    {
      var i := Rd(links.index, x);
      if x == treebins[i] {
        treebins := treebins[i := r];
        if r == 0 {
          treemap := treemap - {i};
        }
      } else {
        SetKid(xp, Rd(links.left, xp) != x, r);
      }
      if r != 0 {
        links := links.(parent := links.parent[r := xp]);
        var c0 := Rd(links.left, x);
        if c0 != 0 {
          links := links.(left := links.left[r := c0], parent := links.parent[c0 := r]);
        }
        var c1 := Rd(links.right, x);
        if c1 != 0 {
          links := links.(right := links.right[r := c1], parent := links.parent[c1 := r]);
        }
      }
    }

    /** unlink_large_chunk */
    method UnlinkLargeChunk(x: int)
      requires TreeBinsOk() && Member(trie, x)
      modifies this`links, this`fd, this`bk, this`treebins, this`treemap, this`trie
      ensures TreeBinsOk()
      ensures Removed(old(trie), trie, x)
      ensures RingWrites(old(fd), old(bk), fd, bk, old(trie), x) && TreeWrites(old(links), links, old(trie), x)
    {
      hide ShapeOk, PlaceOk, SizesOk, TreeOk, RingsOk, RootsOk, Node, Below, ParentOf, DropLinks, SwapLinks, Removed, IsLeaf,
        RingOk, SwapNode, DropLeaf, Regroup, LargeSize, Member, TreeWrites;
      ghost var g, k := trie, links;
      ghost var s, j, l := FindMember(head, links, fd, bk, trie, x);
      SelfSlotOk(head, links, fd, bk, treebins, treemap, trie, l);
      RingAlone(fd, bk, g.ring[s], j);
      var xp := Rd(links.parent, x);
      if Rd(bk, x) != x {
        var f := Rd(fd, x);
        var r := Rd(bk, x);
        NeighboursIn(fd, bk, g, s, j);
        bk := bk[f := r];
        fd := fd[r := f];
        if xp != 0 {
          UnlinkHead(head, k, old(fd), old(bk), treebins, treemap, g, s, l, f, r);
          HeadDiffers(head, k, old(fd), old(bk), g, s, l);
          HeadWrites(head, k, old(fd), old(bk), g, l, r);
          Relink(x, xp, r, l);
          trie := SwapNode(g, l, s, Succession(g.ring[s]));
        } else {
          UnlinkTail(head, k, old(fd), old(bk), treebins, treemap, g, s, j, f, r);
          NoWrites(k, g, x);
          trie := Regroup(g, s, g.ring[s][..j] + g.ring[s][j + 1..]);
        }
      } else {
        ghost var m;
        var r;
        r, m := CutLeafBelow(x, l);
        if r == 0 {
          UnlinkLeaf(head, k, fd, bk, treebins, treemap, g, s, l);
          DropWrites(k, g, l, x);
        } else {
          UnlinkInner(head, k, fd, bk, treebins, treemap, g, s, l, m);
          InnerDiffers(head, k, fd, bk, g, l, m);
          InnerWrites(head, k, fd, bk, g, l, m);
        }
        Relink(x, xp, r, l);
        trie := if r == 0 then DropLeaf(g, l) else SwapNode(DropLeaf(g, m), l, g.loc[m], g.ring[g.loc[m]]);
      }
    }

    /** First part of tmalloc_large: the walk towards nb in its own bin. Yields the
        best node on the way and the subtree t that is still to be searched. */
    method WalkOwnBin(nb: nat) returns (v: int, rsize: nat, t: int, ghost c: nat, ghost l: Loc)
      requires TreeBinsOk() && MIN_LARGE_SIZE <= nb < WORD
      ensures Candidate(trie, nb, v, c, rsize)
      ensures t != 0 ==> Searching(trie, nb, c, t, l)
      ensures t == 0 ==> if v == 0 then OwnBinEmpty(trie, nb) else Settled(trie, nb, c)
    {
      hide ShapeOk, PlaceOk, SizesOk, NodesOk, TailsOk, IndexOk, RingsOk, RootsOk, Node, TreeIndex, Shl, Depth,
        LeftShiftForTreeIndex, Walking, WalkingEnd, OwnBinEmpty, Settled, Searching, NoFit, LeastFit;
      v, rsize := 0, WORD - nb;
      var idx := TreeIndex(nb);
      WalkingStart(head, treebins, treemap, trie, nb);
      t := treebins[idx];
      c, l := WORD, Loc(idx, []);
      if t != 0 {
        var bits := Shl(nb, LeftShiftForTreeIndex(idx));
        var rst := 0;
        ghost var d: nat, re: int := 0, -1;
        while true
          invariant d <= Depth(idx) && Walking(trie, nb, c, d, t, re, rst)
          invariant Candidate(trie, nb, v, c, rsize) && (v != 0 ==> TreeIndex(c) == idx)
          invariant bits == Shl(nb, LeftShiftForTreeIndex(idx) + d)
          decreases Depth(idx) - d
        {
          WalkingHere(head, links, trie, nb, c, d, t, re, rst);
          ghost var z := head[t].size;
          var trem := (head[t].size - nb) % WORD;
          Remainder(nb, z, c);
          if trem < rsize {
            v, rsize, l := t, trem, At(nb, d);
            if rsize == 0 {
              c := z;
              break;
            }
          }
          var step := bits >= HIGH_BIT;
          re := WalkingStep(head, links, trie, nb, c, d, t, re, rst, z, step);
          c := Better(nb, c, z);
          var rt := Rd(links.right, t);
          t := Rd(Kid(links, step), t);
          if rt != 0 && rt != t {
            rst := rt;
          }
          if t == 0 {
            t := rst;
            if rst != 0 {
              WalkingRst(trie, nb, c, re, rst);
              l := Child(At(nb, re), true);
            } else {
              WalkingSettled(trie, nb, c, re, v, rsize);
            }
            break;
          }
          ShlNext(nb, LeftShiftForTreeIndex(idx) + d);
          bits, d := bits * 2 % WORD, d + 1;
        }
      }
    }

    /** The search of tmalloc_large: the best fitting chunk for nb. */
    method BestFit(nb: nat) returns (v: int, rsize: nat)
      requires TreeBinsOk() && MIN_LARGE_SIZE <= nb < WORD
      ensures v == 0 ==> NoFit(trie, nb)
      ensures v != 0 ==> Member(trie, v) && v in head && LeastFit(trie, nb, head[v].size)
                         && rsize == head[v].size - nb
    {
      hide ShapeOk, PlaceOk, SizesOk, NodesOk, TailsOk, IndexOk, RingsOk, RootsOk, Node, TreeIndex, Depth,
        OwnBinEmpty, Settled, Searching, NoFit, LeastFit;
      var t;
      ghost var c, l;
      v, rsize, t, c, l := WalkOwnBin(nb);
      var idx := TreeIndex(nb);
      if t == 0 && v == 0 {
        if exists i :: i in treemap && idx + 1 <= i < 32 {
          var j := Ffs(treemap, idx + 1);
          SearchingBin(head, treebins, treemap, trie, nb, j);
          t, l := treebins[j], Loc(j, []);
        } else {
          SearchedAllBins(treebins, treemap, trie, nb);
        }
      }
      SearchingFrom(trie, nb, c, t, l);
      while t != 0
        invariant Searching(trie, nb, c, t, l) && Candidate(trie, nb, v, c, rsize)
        invariant t != 0 ==> |l.path| <= Depth(l.bin)
        decreases if t == 0 then 0 else Depth(l.bin) + 1 - |l.path|
      {
        SearchHere(head, links, fd, bk, trie, nb, c, t, l);
        ghost var z := head[t].size;
        var trem := (head[t].size - nb) % WORD;
        Remainder(nb, z, c);
        if trem < rsize {
          v, rsize := t, trem;
        }
        l := SearchStep(head, links, fd, bk, trie, nb, c, t, l, z);
        c := Better(nb, c, z);
        t := LeftmostChild(links, t);
      }
      SearchingNull(trie, nb, c, l);
      SettledIsLeast(trie, nb, v, c, rsize);
      if v != 0 {
        CandidateMember(head, trie, nb, v, c, rsize);
      }
    }

    /** insert_small_chunk */
    method InsertSmallChunk(x: int, s: nat)
      requires BinsValid() && SmallSize(s) && SizedChunk(head, x, s) && !Binned(small, trie, x)
      modifies this`fd, this`bk, this`smallmap, this`small
      ensures BinsValid()
      ensures forall y :: Binned(small, trie, y) <==> old(Binned(small, trie, y)) || y == x
      ensures BinWrites(old(fd), old(bk), fd, bk, old(small), trie, x)
    {
      hide SmallOk, BinsOk, InSmall, Member, BinWrites;
      var i := SmallIndex(s);
      var b := SmallBinAt(i);
      var f := b;
      if i !in smallmap {
        smallmap := smallmap + {i};
      } else {
        f := Rd(fd, b);
      }
      FirstLink(head, fd, bk, old(smallmap), small, i);
      InsertSmallOk(head, fd, bk, old(smallmap), small, x, i, f);
      InsertedSmall(small, i, x);
      InsertBinWrites(fd, bk, small, trie, x, b, f);
      assert old(smallmap) + {i} == smallmap;
      fd := fd[b := x];
      bk := bk[f := x];
      fd := fd[x := f];
      bk := bk[x := b];
      LargeAfterSmall(head, links, old(fd), old(bk), old(smallmap), treebins, treemap, small, trie, fd, bk, x);
      small := small[i := [x] + small[i]];
    }

    /** unlink_small_chunk */
    method UnlinkSmallChunk(x: int, s: nat)
      requires BinsValid() && InSmall(small, x) && x in head && s == head[x].size
      modifies this`fd, this`bk, this`smallmap, this`small
      ensures BinsValid()
      ensures forall y :: Binned(small, trie, y) <==> old(Binned(small, trie, y)) && y != x
      ensures BinWrites(old(fd), old(bk), fd, bk, old(small), trie, x)
    {
      hide SmallOk, BinsOk, InSmall, Member, BinWrites;
      var f := Rd(fd, x);
      var b := Rd(bk, x);
      var i := SmallIndex(s);
      ghost var i', j := FindSmall(head, fd, bk, smallmap, small, x);
      OnlySmall(head, links, fd, bk, smallmap, treebins, treemap, small, trie, x);
      UnlinkSmallOk(head, fd, bk, smallmap, small, i, j, f, b);
      RemovedSmall(head, fd, bk, smallmap, small, i, j);
      SmallNeighbours(head, fd, bk, smallmap, small, i, j);
      UnlinkBinWrites(fd, bk, small, trie, x, b, f);
      if f == b {
        smallmap := smallmap - {i};
      } else {
        bk := bk[f := b];
        fd := fd[b := f];
      }
      LargeAfterSmall(head, links, old(fd), old(bk), old(smallmap), treebins, treemap, small, trie, fd, bk, x);
      small := small[i := small[i][..j] + small[i][j + 1..]];
    }

    /** Takes the first chunk off small bin i. */
    method TakeFirstSmall(i: nat) returns (p: int)
      requires BinsValid() && i in smallmap
      modifies this`fd, this`bk, this`smallmap, this`small
      ensures BinsValid()
      ensures p in head && head[p].size == 8 * i && old(Binned(small, trie, p))
      ensures forall y :: Binned(small, trie, y) <==> old(Binned(small, trie, y)) && y != p
      ensures BinWrites(old(fd), old(bk), fd, bk, old(small), trie, p)
    {
      hide SmallOk, BinsOk, InSmall, Member, BinWrites;
      var b := SmallBinAt(i);
      p := Rd(fd, b);
      FirstOfBin(head, fd, bk, smallmap, small, i);
      OnlySmall(head, links, fd, bk, smallmap, treebins, treemap, small, trie, p);
      UnlinkSmallOk(head, fd, bk, smallmap, small, i, 0, Rd(fd, p), b);
      RemovedSmall(head, fd, bk, smallmap, small, i, 0);
      SmallNeighbours(head, fd, bk, smallmap, small, i, 0);
      var f := Rd(fd, p);
      UnlinkBinWrites(fd, bk, small, trie, p, b, f);
      if b == f {
        smallmap := smallmap - {i};
      } else {
        fd := fd[b := f];
        bk := bk[f := b];
      }
      LargeAfterSmall(head, links, old(fd), old(bk), old(smallmap), treebins, treemap, small, trie, fd, bk, p);
      small := small[i := small[i][..0] + small[i][1..]];
    }

    /** insert_chunk */
    method InsertChunk(x: int, s: nat)
      requires BinsValid() && (SmallSize(s) || LargeSize(s)) && SizedChunk(head, x, s) && !Binned(small, trie, x)
      modifies this`links, this`fd, this`bk, this`treebins, this`treemap, this`trie, this`smallmap, this`small
      ensures BinsValid()
      ensures forall y :: Binned(small, trie, y) <==> old(Binned(small, trie, y)) || y == x
      ensures LinkWrites(old(fd), old(bk), old(links), fd, bk, links, old(small), old(trie), x, s >= MIN_LARGE_SIZE)
    {
      hide BinWrites, TreeWrites;
      if SmallIndex(s) < NSMALLBINS {
        InsertSmallChunk(x, s);
      } else {
        hide SmallOk, BinsOk, InSmall, Member, RingWrites;
        InsertLargeChunk(x, s);
        RingBinWrites(old(fd), old(bk), fd, bk, small, old(trie), x);
        SmallAfterLarge(head, old(links), old(fd), old(bk), smallmap, old(treebins), old(treemap), small, old(trie), fd, bk, x);
      }
    }

    /** unlink_chunk */
    method UnlinkChunk(x: int, s: nat)
      requires BinsValid() && Binned(small, trie, x) && x in head && s == head[x].size
      modifies this`links, this`fd, this`bk, this`treebins, this`treemap, this`trie, this`smallmap, this`small
      ensures BinsValid()
      ensures forall y :: Binned(small, trie, y) <==> old(Binned(small, trie, y)) && y != x
      ensures LinkWrites(old(fd), old(bk), old(links), fd, bk, links, old(small), old(trie), x, s >= MIN_LARGE_SIZE)
    {
      hide SmallOk, BinsOk, InSmall, Member, RingWrites, BinWrites, TreeWrites;
      WhichBin(head, links, fd, bk, smallmap, treebins, treemap, small, trie, x);
      if SmallIndex(s) < NSMALLBINS {
        UnlinkSmallChunk(x, s);
      } else {
        UnlinkLargeChunk(x);
        RingBinWrites(old(fd), old(bk), fd, bk, small, old(trie), x);
        SmallAfterLarge(head, old(links), old(fd), old(bk), smallmap, old(treebins), old(treemap), small, old(trie), fd, bk, x);
      }
    }

    // ------------------------------------------------------- the whole heap

    /** All invariants, with the free space outside the bins as s says; loose chunks
        are free but in no place yet. */
    ghost predicate OkWith(s: Spare, loose: set<int>)
      reads this, guard, os`mapped
    {
      StateOk(Fields(), Held(), s, layout, loose) && KeptOk(guard.kept, guard.snap, Fields(), layout) && Mapped()
    }

    function Fields(): View
      reads this
    {
      View(head, foot, fd, bk, links, smallmap, treemap, treebins, segs)
    }

    ghost function Held(): Holdings
      reads this
    {
      Holdings(small, trie)
    }

    ghost function Current(): Spare
      reads this
    {
      Spare(dv, dvsize, top, topsize)
    }

    ghost predicate Ok(loose: set<int>)
      reads this, guard, os`mapped
    {
      OkWith(Current(), loose)
    }

    /** The invariant; and what is protected has not been written to since. */
    ghost predicate Valid()
      reads this, guard, os`mapped
    {
      Ok({})
    }

    /** set_inuse_and_pinuse: a chunk is handed out as a whole. */
    method UseWhole(p: int, s: nat, ghost req: nat)
      requires Ok({p}) && p in head && head[p].size == s && req + CHUNK_OVERHEAD <= s
      modifies this`head, this`layout
      ensures Ok({})
      ensures layout == old(layout).(live := old(layout).live[p := req])
    {
      hide AllBinsOk, HeapOk, Binned, KeptOk, Mapped;
      UseWholeOk(head, foot, Spare(dv, dvsize, top, topsize), layout, p, req);
      LooseApart(head, foot, Spare(dv, dvsize, top, topsize), layout, p);
      BinsKeep(head, links, fd, bk, smallmap, treebins, treemap, small, trie, layout.binned,
               SetPinuse(head[p := Head(s, true, true)], p + s, true));
      UseWholeKept(guard.kept, guard.snap, Fields(), Held(), Current(), layout, p, s, req);
      head := head[p := Head(s, true, true)];
      head := head[p + s := head[p + s].(pinuse := true)];
      layout := layout.(live := layout.live[p := req]);
    }

    /** The front of a chunk is handed out; the rest, r, is left free. */
    method UseFront(p: int, s: nat, nb: nat, ghost req: nat) returns (r: int)
      requires Ok({p}) && p in head && head[p].size == s && req + CHUNK_OVERHEAD <= nb
      requires nb % 8 == 0 && MIN_CHUNK_SIZE <= nb && nb + MIN_CHUNK_SIZE <= s
      modifies this`head, this`foot, this`layout
      ensures r == p + nb && Ok({r}) && r in head && head[r].size == s - nb
      ensures layout == old(layout).(chunks := old(layout).chunks + {r}, live := old(layout).live[p := req])
    {
      hide AllBinsOk, HeapOk, Binned, KeptOk, Mapped;
      UseFrontOk(head, foot, Spare(dv, dvsize, top, topsize), layout, p, p + nb, req);
      LooseApart(head, foot, Spare(dv, dvsize, top, topsize), layout, p);
      r := p + nb;
      BinsKeep(head, links, fd, bk, smallmap, treebins, treemap, small, trie, layout.binned,
               head[p := Head(nb, true, true)][r := Head(s - nb, true, false)]);
      UseFrontKept(guard.kept, guard.snap, Fields(), Held(), Current(), layout, p, s, nb, req);
      head := head[p := Head(nb, true, true)];
      head := head[r := Head(s - nb, true, false)];
      foot := foot[r + (s - nb) := s - nb];
      layout := layout.(chunks := layout.chunks + {r}, live := layout.live[p := req]);
    }

    /** Takes the first chunk out of a small bin. */
    method PopSmall(i: nat) returns (p: int)
      requires Ok({}) && i in smallmap
      modifies this`fd, this`bk, this`smallmap, this`small, this`layout
      ensures Ok({p}) && p in head && head[p].size == 8 * i
      ensures layout == old(layout).(binned := old(layout).binned - {p})
    {
      hide AllBinsOk, HeapOk, Binned, KeptOk, BinWrites, LinkWrites, Mapped;
      ghost var v, w := Fields(), Held();
      p := TakeFirstSmall(i);
      SmallLinkWrites(v.fd, v.bk, v.links, fd, bk, w.small, w.trie, p, 8 * i >= MIN_LARGE_SIZE);
      UnbinKept(guard.kept, guard.snap, v, w, Current(), layout, {}, Fields(), layout.(binned := layout.binned - {p}), p);
      PopOk(head, foot, Spare(dv, dvsize, top, topsize), layout, {}, p);
      assert {} + {p} == {p};
      layout := layout.(binned := layout.binned - {p});
    }

    /** unlink_chunk, keeping count of the chunk taken out. */
    method Unbin(x: int, s: nat, ghost sp: Spare, ghost loose: set<int>)
      requires OkWith(sp, loose) && x in layout.binned && x in head && s == head[x].size
      modifies this`links, this`fd, this`bk, this`treebins, this`treemap, this`trie, this`smallmap, this`small, this`layout
      ensures OkWith(sp, loose + {x})
      ensures layout == old(layout).(binned := old(layout).binned - {x})
    {
      hide AllBinsOk, HeapOk, Binned, KeptOk, LinkWrites, Mapped;
      ghost var v, w := Fields(), Held();
      UnlinkChunk(x, s);
      UnbinKept(guard.kept, guard.snap, v, w, sp, layout, loose, Fields(), layout.(binned := layout.binned - {x}), x);
      PopOk(head, foot, sp, layout, loose, x);
      layout := layout.(binned := layout.binned - {x});
    }

    /** insert_chunk, keeping count of the chunk put in. */
    method Bin(x: int, s: nat)
      requires Ok({x}) && x in head && s == head[x].size
      modifies this`links, this`fd, this`bk, this`treebins, this`treemap, this`trie, this`smallmap, this`small, this`layout
      ensures Ok({})
      ensures layout == old(layout).(binned := old(layout).binned + {x})
    {
      hide AllBinsOk, HeapOk, Binned, LargeSize, KeptOk, LinkWrites, Mapped;
      ghost var v, w := Fields(), Held();
      LooseApart(head, foot, Spare(dv, dvsize, top, topsize), layout, x);
      BinnableSplits(s);
      InsertChunk(x, s);
      BinKept(guard.kept, guard.snap, v, w, Current(), layout, {x}, Fields(), layout.(binned := layout.binned + {x}), x);
      PushOk(head, foot, Spare(dv, dvsize, top, topsize), layout, x);
      layout := layout.(binned := layout.binned + {x});
    }

    /** replace_dv: the loose chunk becomes the designated victim, the old one is binned. */
    method ReplaceDv(p: int, s: nat)
      requires Ok({p}) && p in head && s == head[p].size && dvsize < MIN_LARGE_SIZE
      modifies this`fd, this`bk, this`smallmap, this`small, this`layout, this`dv, this`dvsize
      ensures Ok({})
      ensures layout.(binned := {}) == old(layout).(binned := {})
    {
      hide AllBinsOk, HeapOk, Binned, LargeSize, KeptOk, BinWrites, LinkWrites, Mapped;
      ghost var sp := Spare(dv, dvsize, top, topsize);
      LooseApart(head, foot, sp, layout, p);
      DvFacts(head, foot, sp, layout, {p});
      if dvsize != 0 {
        ghost var v, w := Fields(), Held();
        InsertSmallChunk(dv, dvsize);
        SmallLinkWrites(v.fd, v.bk, v.links, fd, bk, w.small, w.trie, dv, dvsize >= MIN_LARGE_SIZE);
        BinKept(guard.kept, guard.snap, v, w, sp, layout, {p}, Fields(), layout.(binned := layout.binned + {dv}), dv);
        DvBinned(head, foot, sp, layout, p);
        layout := layout.(binned := layout.binned + {dv});
      }
      NewDv(head, foot, sp, layout, p);
      dvsize := s;
      dv := p;
    }

    /** unlink_large_chunk, keeping count of the chunk taken out. */
    method UnbinLarge(x: int)
      requires Ok({}) && Member(trie, x)
      modifies this`links, this`fd, this`bk, this`treebins, this`treemap, this`trie, this`layout
      ensures Ok({x}) && x in old(layout).binned
      ensures layout == old(layout).(binned := old(layout).binned - {x})
    {
      hide SmallOk, BinsOk, HeapOk, InSmall, Member, RingWrites, TreeWrites, BinWrites, KeptOk, Mapped;
      ghost var v, w := Fields(), Held();
      WhichBin(head, links, fd, bk, smallmap, treebins, treemap, small, trie, x);
      UnlinkLargeChunk(x);
      SmallAfterLarge(head, old(links), old(fd), old(bk), smallmap, old(treebins), old(treemap), small, old(trie), fd, bk, x);
      RingBinWrites(v.fd, v.bk, fd, bk, small, w.trie, x);
      UnbinKept(guard.kept, guard.snap, v, w, Current(), layout, {}, Fields(), layout.(binned := layout.binned - {x}), x);
      PopOk(head, foot, Spare(dv, dvsize, top, topsize), layout, {}, x);
      assert {} + {x} == {x};
      layout := layout.(binned := layout.binned - {x});
    }

    /** tmalloc_large: the best fitting chunk of the tree bins, unless dv fits as tightly. */
    method TmallocLarge(nb: nat, ghost req: nat) returns (mem: int)
      requires Valid() && MIN_LARGE_SIZE <= nb < WORD && nb % 8 == 0 && req + CHUNK_OVERHEAD <= nb
      modifies this
      ensures Valid()
      ensures mem == 0 <==> old(NoFit(trie, nb) || DvFitsBest(trie, nb, dvsize))
      ensures segs == old(segs) && (mem == 0 ==> unchanged(this))
      ensures mem != 0 ==> NewBlock(old(layout), layout, mem, req)
      ensures mem != 0 ==> old(MemToChunk(mem) in head && LeastFit(trie, nb, head[MemToChunk(mem)].size))
    {
      hide SmallOk, BinsOk, HeapOk, BinnedIs, Member, NoFit, LeastFit, DvFitsBest, KeptOk, Mapped;
      var v, rsize := BestFit(nb);
      ghost var sp := Spare(dv, dvsize, top, topsize);
      DvFacts(head, foot, sp, layout, {});
      if v != 0 {
        TreeSize(head, foot, sp, layout, small, trie, v);
        BestFitOrDv(trie, nb, dvsize, head[v].size);
      }
      if v != 0 && rsize < (dvsize - nb) % WORD {
        UnbinLarge(v);
        LooseApart(head, foot, sp, layout, v);
        if rsize < MIN_CHUNK_SIZE {
          UseWhole(v, rsize + nb, req);
        } else {
          var r := UseFront(v, rsize + nb, nb, req);
          Bin(r, rsize);
        }
        mem := ChunkToMem(v);
      } else {
        mem := 0;
      }
    }

    /** The search of tmalloc_small: the smallest chunk of the lowest tree bin. */
    method SmallestLarge(nb: nat) returns (v: int, rsize: nat)
      requires TreeBinsOk() && treemap != {} && 0 < nb < MIN_LARGE_SIZE
      ensures Member(trie, v) && v in head && rsize == head[v].size - nb
      ensures LeastFit(trie, nb, head[v].size)
    {
      hide ShapeOk, PlaceOk, SizesOk, NodesOk, TailsOk, IndexOk, RingsOk, RootsOk, Node, Depth,
        Settled, Searching, NoFit, LeastFit;
      BitInRange(treebins, treemap, trie);
      var i := Ffs(treemap, 0);
      SearchingLowest(head, treebins, treemap, trie, nb, i);
      var t := treebins[i];
      ghost var c: nat, l := WORD, Loc(i, []);
      SearchHere(head, links, fd, bk, trie, nb, c, t, l);
      v := t;
      rsize := head[t].size - nb;
      ghost var z := head[t].size;
      l := SearchStep(head, links, fd, bk, trie, nb, c, t, l, z);
      c := Better(nb, c, z);
      t := LeftmostChild(links, t);
      while t != 0
        invariant Searching(trie, nb, c, t, l) && v != 0 && Candidate(trie, nb, v, c, rsize)
        invariant t != 0 ==> |l.path| <= Depth(l.bin)
        decreases if t == 0 then 0 else Depth(l.bin) + 1 - |l.path|
      {
        SearchHere(head, links, fd, bk, trie, nb, c, t, l);
        z := head[t].size;
        var trem := (head[t].size - nb) % WORD;
        Remainder(nb, z, c);
        if trem < rsize {
          rsize := trem;
          v := t;
        }
        l := SearchStep(head, links, fd, bk, trie, nb, c, t, l, z);
        c := Better(nb, c, z);
        t := LeftmostChild(links, t);
      }
      SearchingNull(trie, nb, c, l);
      SettledIsLeast(trie, nb, v, c, rsize);
      CandidateMember(head, trie, nb, v, c, rsize);
    }

    /** tmalloc_small: splits the smallest chunk of the tree bins. */
    method TmallocSmall(nb: nat, ghost req: nat) returns (mem: int)
      requires Valid() && treemap != {} && MIN_CHUNK_SIZE <= nb < MIN_LARGE_SIZE && nb % 8 == 0
      requires req + CHUNK_OVERHEAD <= nb && dvsize < MIN_LARGE_SIZE
      modifies this
      ensures Valid() && NewBlock(old(layout), layout, mem, req) && segs == old(segs)
      ensures old(MemToChunk(mem) in head && LeastFit(trie, nb, head[MemToChunk(mem)].size))
    {
      hide SmallOk, BinsOk, HeapOk, BinnedIs, Member, NoFit, LeastFit, KeptOk, Mapped;
      var v, rsize := SmallestLarge(nb);
      ghost var sp := Spare(dv, dvsize, top, topsize);
      TreeSize(head, foot, sp, layout, small, trie, v);
      UnbinLarge(v);
      LooseApart(head, foot, sp, layout, v);
      if rsize < MIN_CHUNK_SIZE {
        UseWhole(v, rsize + nb, req);
      } else {
        var r := UseFront(v, rsize + nb, nb, req);
        ReplaceDv(r, rsize);
      }
      mem := ChunkToMem(v);
    }

    // ------------------------------------------------------- system allocation

    /** init_top */
    method InitTop(p: int, psize: nat)
      modifies this`head, this`top, this`topsize, this`trimCheck
      ensures trimCheck == DEFAULT_TRIM_THRESHOLD && top == p && topsize == psize
      ensures head == old(head)[p := Head(psize, true, false)]
    {
      top := p;
      topsize := psize;
      head := head[p := Head(psize, true, false)];
      trimCheck := DEFAULT_TRIM_THRESHOLD;
    }

    /** Splits the front off top. */
    method SplitTop(nb: nat, ghost req: nat) returns (mem: int)
      requires Valid() && nb % 8 == 0 && MIN_CHUNK_SIZE <= nb < topsize && req + CHUNK_OVERHEAD <= nb
      modifies this`head, this`top, this`topsize, this`layout
      ensures Valid() && NewBlock(old(layout), layout, mem, req) && segs == old(segs)
    {
      hide StateOk, KeptOk, Mapped;
      SplitTopView(Fields(), Held(), Current(), layout, nb, req);
      SplitTopKept(guard.kept, guard.snap, Fields(), Held(), Current(), layout, nb, req);
      topsize := topsize - nb;
      var p := top;
      top := p + nb;
      head := head[top := Head(topsize, true, false)];
      head := head[p := Head(nb, true, true)];
      layout := layout.(chunks := layout.chunks + {top}, live := layout.live[p := req]);
      mem := ChunkToMem(p);
    }

    /** The region is appended to the current segment. */
    method Append(tbase: int, tsize: nat)
      requires Valid() && FreshRegion(segs, Segment(tbase, tsize)) && |segs| > 0 && tbase == segs[0].base + segs[0].size
      requires Unused(guard.kept, Segment(tbase, tsize))
      modifies this`segs, this`head, this`top, this`topsize, this`trimCheck, this`layout
      ensures Valid() && layout.live == old(layout).live && topsize == old(topsize) + tsize
    {
      hide StateOk, KeptOk, FreshRegion, Unused, GrownSegs, Mapped;
      AppendView(Fields(), Held(), Current(), layout, Segment(tbase, tsize));
      AppendKept(guard.kept, guard.snap, Fields(), Held(), Current(), layout, Segment(tbase, tsize));
      ghost var l := Limit(segs, 0);
      segs := GrownSegs(segs, tsize);
      InitTop(top, topsize + tsize);
      layout := layout.(ends := layout.ends - {l} + {l + tsize}, segs := segs);
    }

    /** set_size_and_pinuse_of_inuse_chunk */
    method SetInuseSize(p: int, s: nat)
      modifies this`head
      ensures head == old(head)[p := Head(s, true, true)]
    {
      head := head[p := Head(s, true, true)];
    }

    /** set_size_and_pinuse_of_free_chunk */
    method SetFreeSize(p: int, s: nat)
      modifies this`head, this`foot
      ensures head == old(head)[p := Head(s, true, false)] && foot == old(foot)[p + s := s]
    {
      head := head[p := Head(s, true, false)];
      foot := foot[p + s := s];
    }

    /** set_free_with_pinuse */
    method SetFreeWithPinuse(p: int, s: nat, n: int)
      requires n in head && p != n
      modifies this`head, this`foot
      ensures head == SetPinuse(old(head)[p := Head(s, true, false)], n, false) && foot == old(foot)[p + s := s]
    {
      head := head[n := head[n].(pinuse := false)];
      SetFreeSize(p, s);
    }

    /** The first chunk of the segment is top: it grows downwards. */
    method PrependToTop(i: nat, newbase: int, tsize: nat, nb: nat, ghost req: nat)
      requires Valid() && FreshRegion(segs, Segment(newbase, tsize)) && i < |segs| && newbase + tsize == segs[i].base == top
      requires nb % 8 == 0 && MIN_CHUNK_SIZE <= nb < tsize && req + CHUNK_OVERHEAD <= nb
      requires Unused(guard.kept, Segment(newbase, tsize))
      modifies this
      ensures Valid() && layout.live == old(layout).live[newbase := req]
    {
      hide StateOk, KeptOk, FreshRegion, Unused, PrependLayout, ExtendedSegs, Mapped;
      ghost var g := Segment(newbase, tsize);
      var q, qsize := newbase + nb, tsize - nb;
      PrependTopView(Fields(), Held(), Current(), layout, i, g, nb, req);
      PrependTopKept(guard.kept, guard.snap, Fields(), Held(), Current(), layout, i, g, nb, req);
      layout := PrependLayout(layout, i, g, q, top + topsize, req);
      segs := ExtendedSegs(segs, i, Segment(newbase, tsize));
      SetInuseSize(newbase, nb);
      topsize := topsize + qsize;
      top := q;
      head := head[q := Head(topsize, true, false)];
    }

    /** The first chunk of the segment is dv, which grows downwards. */
    method PrependToDv(i: nat, newbase: int, tsize: nat, nb: nat, ghost req: nat)
      requires Valid() && FreshRegion(segs, Segment(newbase, tsize)) && i < |segs| && newbase + tsize == segs[i].base
      requires segs[i].base == dv && dv != top
      requires nb % 8 == 0 && MIN_CHUNK_SIZE <= nb && nb + MIN_CHUNK_SIZE <= tsize && req + CHUNK_OVERHEAD <= nb
      requires Unused(guard.kept, Segment(newbase, tsize))
      modifies this
      ensures Valid() && layout.live == old(layout).live[newbase := req]
    {
      hide StateOk, KeptOk, FreshRegion, Unused, PrependLayout, ExtendedSegs, Mapped;
      ghost var g := Segment(newbase, tsize);
      var q, qsize := newbase + nb, tsize - nb;
      PrependDvView(Fields(), Held(), Current(), layout, i, g, nb, req);
      PrependDvKept(guard.kept, guard.snap, Fields(), Held(), Current(), layout, i, g, nb, req);
      layout := PrependLayout(layout, i, g, q, dv + dvsize, req);
      segs := ExtendedSegs(segs, i, Segment(newbase, tsize));
      SetInuseSize(newbase, nb);
      dvsize := dvsize + qsize;
      dv := q;
      SetFreeSize(q, dvsize);
    }

    /** The rest of the region, from q to z, is left loose. */
    method PrependLoose(i: nat, newbase: int, tsize: nat, nb: nat, z: int, qsize: nat, ghost loose: set<int>, ghost req: nat)
      requires Ok(loose) && FreshRegion(segs, Segment(newbase, tsize)) && i < |segs| && newbase + tsize == segs[i].base
      requires segs[i].base != top && newbase + nb + qsize == z
      requires nb % 8 == 0 && MIN_CHUNK_SIZE <= nb && nb + MIN_CHUNK_SIZE <= tsize && req + CHUNK_OVERHEAD <= nb
      requires z in layout.chunks && z in head && head[z].cinuse
      requires (z == segs[i].base && loose == {}) || (z == Next(head, segs[i].base) && loose == {segs[i].base})
      requires Unused(guard.kept, Segment(newbase, tsize))
      modifies this`head, this`foot, this`segs, this`layout
      ensures Ok({newbase + nb}) && newbase + nb in head && head[newbase + nb].size == qsize
      ensures layout.live == old(layout).live[newbase := req]
    {
      hide StateOk, KeptOk, FreshRegion, Unused, PrependLayout, ExtendedSegs, Next, SetPinuse, Mapped;
      ghost var g := Segment(newbase, tsize);
      var q := newbase + nb;
      PrependLooseView(Fields(), Held(), Current(), layout, loose, i, g, nb, qsize, z, req);
      PrependLooseKept(guard.kept, guard.snap, Fields(), Held(), Current(), layout, loose, i, g, nb, qsize, z, req);
      layout := PrependLayout(layout, i, g, q, z, req);
      segs := ExtendedSegs(segs, i, Segment(newbase, tsize));
      SetInuseSize(newbase, nb);
      SetFreeWithPinuse(q, qsize, z);
    }

    /** The first chunk of the segment is in use or binned: the rest of the region,
        merged with the binned chunk, is binned. */
    method PrependToBin(i: nat, newbase: int, tsize: nat, nb: nat, ghost req: nat)
      requires Valid() && FreshRegion(segs, Segment(newbase, tsize)) && i < |segs| && newbase + tsize == segs[i].base
      requires segs[i].base != dv && segs[i].base != top
      requires nb % 8 == 0 && MIN_CHUNK_SIZE <= nb && nb + MIN_CHUNK_SIZE <= tsize && req + CHUNK_OVERHEAD <= nb
      requires Unused(guard.kept, Segment(newbase, tsize))
      modifies this
      ensures Valid() && layout.live == old(layout).live[newbase := req]
    {
      hide AllBinsOk, HeapOk, BinnedIs, FreshRegion, Unused, BinsValid, BinnableSize, KeptOk, Mapped;
      ghost var loose := {};
      var oldfirst, q, qsize := segs[i].base, newbase + nb, tsize - nb;
      FirstFacts(head, foot, Current(), layout, {}, i);
      if !head[oldfirst].cinuse {
        var nsize := head[oldfirst].size;
        Unbin(oldfirst, nsize, Current(), {});
        loose := {oldfirst};
        assert {} + {oldfirst} == {oldfirst};
        oldfirst := oldfirst + nsize;
        qsize := qsize + nsize;
      }
      PrependLoose(i, newbase, tsize, nb, oldfirst, qsize, loose, req);
      Bin(q, qsize);
    }

    /** prepend_alloc: the region, which ends where segment i starts, supplies the
        block; the rest of it joins the first chunk of the segment. */
    method Prepend(i: nat, newbase: int, tsize: nat, nb: nat, ghost req: nat) returns (mem: int)
      requires Valid() && FreshRegion(segs, Segment(newbase, tsize)) && i < |segs| && newbase + tsize == segs[i].base
      requires nb % 8 == 0 && MIN_CHUNK_SIZE <= nb && nb + MIN_CHUNK_SIZE <= tsize && req + CHUNK_OVERHEAD <= nb
      requires Unused(guard.kept, Segment(newbase, tsize))
      modifies this
      ensures Valid() && NewBlock(old(layout), layout, mem, req)
    {
      hide AllBinsOk, HeapOk, BinnedIs, KeptOk, Mapped;
      RegionEmpty(head, foot, Current(), layout, {}, Segment(newbase, tsize));
      var oldfirst := segs[i].base;
      mem := ChunkToMem(newbase);
      if oldfirst == top {
        PrependToTop(i, newbase, tsize, nb, req);
      } else if oldfirst == dv {
        PrependToDv(i, newbase, tsize, nb, req);
      } else {
        PrependToBin(i, newbase, tsize, nb, req);
      }
    }

    /** segment_holding: the first segment that holds a, or |segs|. */
    method SegmentHolding(a: int) returns (i: nat)
      ensures i <= |segs| && (i < |segs| ==> Holds(segs[i], a))
      ensures forall j :: 0 <= j < i ==> !Holds(segs[j], a)
    {
      i := 0;
      while i < |segs| && !Holds(segs[i], a)
        invariant i <= |segs| && forall j :: 0 <= j < i ==> !Holds(segs[j], a)
      {
        i := i + 1;
      }
    }

    /** Writes fenceposts from f up to the last word but one of the segment. */
    method FencePosts(f: int, oldEnd: int)
      requires f + 16 <= oldEnd && (oldEnd - f) % 8 == 0
      modifies this`head
      ensures head == old(head) + Fences(f, oldEnd - 8)
    {
      var p := f;
      NoFences(head, f);
      while true
        invariant f <= p <= oldEnd - 16 && (p - f) % 8 == 0
        invariant head == old(head) + Fences(f, p)
        decreases oldEnd - p
      {
        var nextp := p + 8;
        FenceMore(old(head), f, p);
        head := head[p := Head(8, true, true)];
        if nextp + 8 < oldEnd {
          p := nextp;
        } else {
          break;
        }
      }
    }

    /** Where add_segment puts the segment record, and where the current segment ends. */
    method PlaceRecord() returns (csp: int, oldEnd: int)
      requires Valid()
      ensures |segs| > 0 && csp == RecordAt(top, topsize) && oldEnd - 8 == EndOfOld(segs)
    {
      hide StateOk, KeptOk, Holds, Mapped;
      CurrentSegment(Fields(), Held(), Current(), layout);
      var oldsp := SegmentHolding(top);
      oldEnd := segs[oldsp].base + segs[oldsp].size;
      var rawsp := oldEnd - (RECORD_SIZE + 32 + 7);
      var asp := rawsp + AlignOffset(ChunkToMem(rawsp));
      csp := if asp < top + MIN_CHUNK_SIZE then top else asp;
    }

    /** The writes of add_segment, up to the insertion of the old top into a bin. */
    method PushSegment(tbase: int, tsize: nat, sp: int, oldEnd: int)
      requires tsize >= TOP_FOOT_SIZE && top <= sp && sp + RECORD_SIZE < oldEnd - 8 && (oldEnd - sp) % 8 == 0
      requires tbase != top && tbase !in RetiredSet(top, sp, oldEnd - 8)
      modifies this`segs, this`records, this`head, this`foot, this`top, this`topsize, this`trimCheck
      ensures head == RetiredHead(old(head), old(top), sp, oldEnd - 8)[tbase := Head(tsize - TOP_FOOT_SIZE, true, false)]
      ensures foot == RetiredFoot(old(foot), old(top), sp)
      ensures segs == PushedSegs(old(segs), Segment(tbase, tsize)) && top == tbase && topsize == tsize - TOP_FOOT_SIZE
    {
      hide RetiredHead, RetiredSet, Fences;
      var oldTop := top;
      RetiredWrites(head, oldTop, sp, oldEnd - 8, tbase, tsize - TOP_FOOT_SIZE);
      InitTop(tbase, tsize - TOP_FOOT_SIZE);
      SetInuseSize(sp, RECORD_SIZE);
      records := records[..Min(1, |records|)] + [ChunkToMem(sp)] + records[Min(1, |records|)..];
      segs := PushedSegs(segs, Segment(tbase, tsize));
      FencePosts(sp + RECORD_SIZE, oldEnd);
      if sp != oldTop {
        SetFreeWithPinuse(oldTop, sp - oldTop, sp);
      }
    }

    /** Retires the old top, which is left loose unless the record took its place. */
    method RetireTop(tbase: int, tsize: nat) returns (oldTop: int, sp: int)
      requires Valid() && FreshRegion(segs, Segment(tbase, tsize)) && tsize >= TOP_FOOT_SIZE
      requires Unused(guard.kept, Segment(tbase, tsize))
      modifies this`segs, this`records, this`head, this`foot, this`top, this`topsize, this`trimCheck, this`layout
      ensures oldTop <= sp && Ok(if sp == oldTop then {} else {oldTop})
      ensures sp != oldTop ==> oldTop in head && head[oldTop].size == sp - oldTop
      ensures layout.live == old(layout).live && topsize == tsize - TOP_FOOT_SIZE
    {
      hide StateOk, KeptOk, FreshRegion, Unused, RetiredHead, RetiredSet, RetiredFoot, RetiredEnds, RetiredPins,
        PushedSegs, EndOfOld, RecordAt, Mapped;
      oldTop := top;
      var oldEnd;
      sp, oldEnd := PlaceRecord();
      ghost var e, n, g := oldEnd - 8, tsize - TOP_FOOT_SIZE, Segment(tbase, tsize);
      AddSegmentView(Fields(), Held(), Current(), layout, g, sp, e, n);
      AddSegmentKept(guard.kept, guard.snap, Fields(), Held(), Current(), layout, g, sp, e, n);
      OldTopHead(head, oldTop, sp, e, tbase, n);
      PushSegment(tbase, tsize, sp, oldEnd);
      layout := layout.(chunks := layout.chunks + RetiredSet(oldTop, sp, e) + {tbase}, ends := RetiredEnds(layout.segs, layout.ends, g),
                        pinned := layout.pinned + RetiredPins(sp, e), segs := PushedSegs(layout.segs, g));
    }

    /** add_segment */
    method AddSegment(tbase: int, tsize: nat)
      requires Valid() && FreshRegion(segs, Segment(tbase, tsize)) && tsize >= TOP_FOOT_SIZE
      requires Unused(guard.kept, Segment(tbase, tsize))
      modifies this
      ensures Valid() && layout.live == old(layout).live
      ensures topsize == tsize - TOP_FOOT_SIZE
    {
      hide StateOk, KeptOk, FreshRegion, Unused, Mapped;
      var oldTop, csp := RetireTop(tbase, tsize);
      if csp != oldTop {
        Bin(oldTop, csp - oldTop);
      }
    }

    /** Index of the first segment that ends at a, or |segs|. */
    method SegmentEndingAt(a: int) returns (i: nat)
      ensures i <= |segs| && (i < |segs| ==> segs[i].base + segs[i].size == a)
      ensures forall j :: 0 <= j < i ==> segs[j].base + segs[j].size != a
    {
      i := 0;
      while i < |segs| && a != segs[i].base + segs[i].size
        invariant i <= |segs| && forall j :: 0 <= j < i ==> segs[j].base + segs[j].size != a
      {
        i := i + 1;
      }
    }

    /** Index of the first segment that starts at a, or |segs|. */
    method SegmentStartingAt(a: int) returns (i: nat)
      ensures i <= |segs| && (i < |segs| ==> segs[i].base == a)
      ensures forall j :: 0 <= j < i ==> segs[j].base != a
    {
      i := 0;
      while i < |segs| && segs[i].base != a
        invariant i <= |segs| && forall j :: 0 <= j < i ==> segs[j].base != a
      {
        i := i + 1;
      }
    }

    /** A request that alloc_sys can serve, or the size that stands for one too large. */
    static predicate SystemSize(nb: nat, req: nat) {
      nb == WORD - 1 || (nb < WORD - 1 && nb % 8 == 0 && MIN_CHUNK_SIZE <= nb && req + CHUNK_OVERHEAD <= nb)
    }

    /** The marks of a direct chunk: its head and two fenceposts. */
    method SetDirectHeads(p: int, psize: nat)
      modifies this`head
      ensures head == DirectHeads(old(head), p, psize)
    {
      head := head[p := Head(psize, false, true)];
      head := head[p + psize := Head(8, true, true)];
      head := head[p + psize + 8 := Head(0, false, false)];
    }

    /** direct_alloc: null only if the size wraps around or the system gives nothing. */
    method DirectAlloc(nb: nat, ghost req: nat) returns (mem: int)
      requires Valid() && SystemSize(nb, req)
      modifies this`head, this`foot, os, guard
      ensures Valid() && SameKept(old(guard.kept), old(guard.snap), Fields())
      ensures mem == 0 ==> unchanged(this) && unchanged(guard)
      ensures mem != 0 ==> mem > 0 && mem % MALLOC_ALIGNMENT == 0 && MemToChunk(mem) !in old(Live()) && nb < WORD - 1
      ensures mem != 0 ==> DirectRequest(nb) > nb
      ensures mem != 0 ==> guard.direct == old(guard.direct)[MemToChunk(mem) := Direct(DirectRequest(nb), req)]
      ensures os.calls == old(os.calls) + if DirectRequest(nb) > nb then [Mmap(DirectRequest(nb), mem != 0)] else []
    {
      hide StateOk, SameKept, KeptIn, DirectsOk, MappedIn, Regions, Vacant, DirectHeads, Unused, HolesApart,
        DirectRequest, AlignOffset;
      LiveFacts();
      mem := 0;
      DirectRequestFits(nb);
      var mmsize := DirectRequest(nb);
      if mmsize > nb {
        var ok, mm := os.DirectMmap(mmsize, segs);
        if ok {
          ghost var ds, blocks, d := guard.direct, guard.kept.blocks, Direct(mmsize, req);
          DirectAllocOk(guard.kept, guard.snap, Fields(), Held(), Current(), layout, ds, old(os.mapped),
                        Segment(mm, mmsize), req);
          AlignedAlready(mm);
          var offset := AlignOffset(ChunkToMem(mm));
          var psize := mmsize - offset - DIRECT_FOOT_PAD;
          var p := mm + offset;
          foot := foot[p := offset + IS_DIRECT_BIT];
          SetDirectHeads(p, psize);
          Protect(blocks, ds[p := d]);
          LiveFacts();
          assert p in guard.direct;
          mem := ChunkToMem(p);
        }
      }
    }

    /** alloc_sys: null only if the system gives nothing. */
    method AllocSys(nb: nat, ghost req: nat) returns (mem: int)
      requires Valid() && SystemSize(nb, req)
      modifies this, os, guard
      ensures Valid() && SameKept(old(guard.kept), old(guard.snap), Fields())
      ensures mem == 0 ==> unchanged(this) && unchanged(guard)
      ensures mem != 0 ==> nb != WORD - 1 && NewLive(old(Live()), Live(), mem, req)
      ensures mem != 0 ==> NewChunk(old(layout).live, old(guard.direct), layout.live, guard.direct, MemToChunk(mem), req)
      ensures Asked(old(os.calls), os.calls, nb, mem != 0)
    {
      hide StateOk, SameKept, KeptIn, DirectsOk, MappedIn, Regions, AllLive, SystemRequest, DirectRequest, NewBlock, NewLive;
      ghost var live, ds := layout.live, guard.direct;
      if nb >= DEFAULT_MMAP_THRESHOLD {
        mem := DirectAlloc(nb, req);
        if mem != 0 {
          NotLive(live, ds, MemToChunk(mem));
          assert MemToChunk(mem) in guard.direct;
          NewChunkLive(live, ds, layout.live, guard.direct, mem, req);
          return;
        }
      }
      mem := ExtendHeap(nb, req);
      LiveFacts();
      if mem != 0 {
        NewBlockLive(live, ds, old(layout), layout, mem, req);
      }
    }

    /** The part of alloc_sys that asks for a region for a segment. */
    method ExtendHeap(nb: nat, ghost req: nat) returns (mem: int)
      requires Valid() && SystemSize(nb, req)
      modifies this, os`calls
      ensures Valid()
      ensures mem == 0 ==> unchanged(this)
      ensures mem != 0 ==> NewBlock(old(layout), layout, mem, req) && nb != WORD - 1
      ensures if SystemRequest(nb) <= nb then mem == 0 && os.calls == old(os.calls)
              else os.calls == old(os.calls) + [Mmap(SystemRequest(nb), mem != 0)]
    {
      hide StateOk, KeptOk, FreshRegion, Unused, SystemRequest, Vacant, MappedIn, DirectsOk, Regions, HolesApart;
      mem := 0;
      SystemRequestFits(nb);
      var rsize := SystemRequest(nb);
      if rsize > nb {
        var ok, tbase := os.CallMmap(rsize, segs);
        if ok {
          LiveFacts();
          VacantUnused(guard.kept, guard.direct, os.mapped, segs, Segment(tbase, rsize));
          mem := UseRegion(tbase, rsize, nb, req);
        }
      }
    }

    /** The part of alloc_sys that follows a successful CALL_MMAP. */
    method UseRegion(tbase: int, tsize: nat, nb: nat, ghost req: nat) returns (mem: int)
      requires Valid() && FreshRegion(segs, Segment(tbase, tsize)) && tsize > nb + TOP_FOOT_SIZE && tsize % 8 == 0
      requires nb % 8 == 0 && MIN_CHUNK_SIZE <= nb && req + CHUNK_OVERHEAD <= nb
      requires Unused(guard.kept, Segment(tbase, tsize))
      modifies this
      ensures Valid() && NewBlock(old(layout), layout, mem, req)
    {
      hide StateOk, KeptOk, FreshRegion, Unused, Holds, Mapped;
      CurrentSegment(Fields(), Held(), Current(), layout);
      var sp := SegmentEndingAt(tbase);
      if sp < |segs| && Holds(segs[sp], top) {
        Append(tbase, tsize);
      } else {
        sp := SegmentStartingAt(tbase + tsize);
        if sp < |segs| {
          mem := Prepend(sp, tbase, tsize, nb, req);
          return;
        } else {
          AddSegment(tbase, tsize);
        }
      }
      mem := SplitTop(nb, req);
    }

    // ------------------------------------------------------------------ malloc

    /** A chunk off small bin i serves a request of nb bytes; the rest becomes dv. */
    method SplitSmall(i: nat, nb: nat, ghost req: nat) returns (mem: int)
      requires Valid() && i in smallmap && nb <= 8 * i && nb % 8 == 0 && MIN_CHUNK_SIZE <= nb
      requires req + CHUNK_OVERHEAD <= nb && dvsize < MIN_LARGE_SIZE
      modifies this
      ensures Valid() && NewBlock(old(layout), layout, mem, req) && segs == old(segs)
    {
      hide StateOk, KeptOk, Mapped;
      var p := PopSmall(i);
      LooseView(Fields(), Held(), Current(), layout, p);
      var rsize := 8 * i - nb;
      if rsize < MIN_CHUNK_SIZE {
        UseWhole(p, 8 * i, req);
      } else {
        var r := UseFront(p, 8 * i, nb, req);
        ReplaceDv(r, rsize);
      }
      mem := ChunkToMem(p);
    }

    /** dv serves a request of nb bytes; the rest, if large enough, stays dv. */
    method TakeDv(nb: nat, ghost req: nat) returns (mem: int)
      requires Valid() && nb <= dvsize && nb % 8 == 0 && MIN_CHUNK_SIZE <= nb && req + CHUNK_OVERHEAD <= nb
      modifies this
      ensures Valid() && NewBlock(old(layout), layout, mem, req) && segs == old(segs)
    {
      hide StateOk, KeptOk, Mapped;
      DvView(Fields(), Held(), Current(), layout);
      DvLooseView(Fields(), Held(), Current(), layout);
      var p, dvs := dv, dvsize;
      LooseView(Fields(), Held(), Current().(dv := 0, dvsize := 0), layout, p);
      dv, dvsize := 0, 0;
      if dvs - nb >= MIN_CHUNK_SIZE {
        var r := UseFront(p, dvs, nb, req);
        NewDvView(Fields(), Held(), Current(), layout, r);
        dv, dvsize := r, dvs - nb;
      } else {
        UseWhole(p, dvs, req);
      }
      mem := ChunkToMem(p);
    }

    /** The small-request part of lj_alloc_malloc: null if neither the small bins nor
        the tree bins are to serve the request. */
    method MallocSmall(nb: nat, ghost req: nat) returns (mem: int)
      requires Valid() && nb % 8 == 0 && MIN_CHUNK_SIZE <= nb < MIN_LARGE_SIZE && req + CHUNK_OVERHEAD <= nb
      modifies this
      ensures Valid()
      ensures mem != 0 ==> NewBlock(old(layout), layout, mem, req)
      ensures segs == old(segs) && (mem == 0 ==> unchanged(this))
      ensures mem == 0 && nb > dvsize ==> treemap == {} && forall i :: i in smallmap && i < NSMALLBINS ==> i < nb / 8
    {
      hide StateOk, KeptOk, NewBlock, LeastFit, Member, Mapped;
      mem := 0;
      var idx := SmallIndex(nb);
      if idx in smallmap || idx + 1 in smallmap {
        if idx !in smallmap {
          idx := idx + 1;
        }
        var p := PopSmall(idx);
        LooseView(Fields(), Held(), Current(), layout, p);
        UseWhole(p, 8 * idx, req);
        mem := ChunkToMem(p);
        NewBlockIs(old(layout), layout, p, req);
      } else if nb > dvsize {
        if exists i :: i in smallmap && idx < i < 32 {
          var i := Ffs(smallmap, idx + 1);
          mem := SplitSmall(i, nb, req);
          NewBlockNotNull(old(layout), layout, mem, req);
        } else if treemap != {} {
          mem := TmallocSmall(nb, req);
          NewBlockNotNull(old(layout), layout, mem, req);
        }
      }
    }

    /** The system has been asked for room for a request, and has refused, or was never asked
        because the request is too large for it. */
    twostate predicate Refused(nsize: nat)
      reads os`calls
    {
      nsize >= MAX_REQUEST || Asked(old(os.calls), os.calls, RequestToSize(nsize), false)
    }

    /** The part of lj_alloc_malloc that looks for free memory: null if there is none that fits. */
    method FromFree(nsize: nat, nb: nat) returns (mem: int)
      requires Valid() && nb == if nsize >= MAX_REQUEST then WORD - 1 else RequestToSize(nsize)
      modifies this
      ensures Valid() && segs == old(segs)
      ensures mem == 0 ==> unchanged(this) && (nsize < MAX_REQUEST ==> NoRoom(head, Current(), layout, nb))
      ensures mem != 0 ==> NewBlock(old(layout), layout, mem, nsize) && nsize < MAX_REQUEST
    {
      hide StateOk, KeptOk, NewBlock, LeastFit, NoRoom, NoFit, DvFitsBest, RequestToSize, Mapped;
      RequestFits(nsize);
      DvView(Fields(), Held(), Current(), layout);
      if nsize <= MAX_SMALL_REQUEST {
        mem := MallocSmall(nb, nsize);
        if mem != 0 {
          return;
        }
      } else if nsize < MAX_REQUEST && treemap != {} {
        mem := TmallocLarge(nb, nsize);
        if mem != 0 {
          return;
        }
      }
      mem := 0;
      if nb <= dvsize {
        mem := TakeDv(nb, nsize);
        NewBlockNotNull(old(layout), layout, mem, nsize);
      } else if nb < topsize {
        mem := SplitTop(nb, nsize);
        NewBlockNotNull(old(layout), layout, mem, nsize);
      } else if nsize < MAX_REQUEST {
        NoFitOrDv(trie, nb, dvsize);
        NoRoomView(Fields(), Held(), Current(), layout, nb);
      }
    }

    /** lj_alloc_malloc */
    method Malloc(nsize: nat) returns (mem: int)
      requires Valid()
      modifies this, os, guard
      ensures Valid() && SameKept(Shield(old(layout).live, Regions(old(guard.direct))), old(Fields()), Fields())
      ensures mem == 0 ==> Refused(nsize) && Fields() == old(Fields()) && layout == old(layout) && guard.direct == old(guard.direct)
      ensures mem != 0 ==> NewLive(old(Live()), Live(), mem, nsize) && nsize < MAX_REQUEST
      ensures mem != 0 ==> NewChunk(old(layout).live, old(guard.direct), layout.live, guard.direct, MemToChunk(mem), nsize)
      ensures os.calls != old(os.calls) ==> nsize < MAX_REQUEST && old(NoRoom(head, Current(), layout, RequestToSize(nsize)))
                                            && Asked(old(os.calls), os.calls, RequestToSize(nsize), mem != 0)
      ensures mem == 0 || segs != old(segs) || guard.direct != old(guard.direct) ==>
                nsize >= MAX_REQUEST || old(NoRoom(head, Current(), layout, RequestToSize(nsize)))
    {
      hide StateOk, SameKept, KeptIn, DirectsOk, MappedIn, Regions, AllLive, NewBlock, NewLive, NoRoom, RequestToSize, Asked;
      ghost var live, ds := layout.live, guard.direct;
      Watch(layout.live);
      RequestFits(nsize);
      var nb := if nsize >= MAX_REQUEST then WORD - 1 else RequestToSize(nsize);
      mem := FromFree(nsize, nb);
      LiveFacts();
      if mem == 0 {
        mem := AllocSys(nb, nsize);
        if nsize >= MAX_REQUEST {
          TooLarge(old(os.calls), os.calls, mem != 0);
        }
      } else {
        NewBlockLive(live, ds, old(layout), layout, mem, nsize);
      }
    }

    // ----------------------------------------------------- system deallocation

    /** has_segment_link: the record of some segment lies in g. */
    method HasSegmentLink(g: Segment) returns (r: bool)
      ensures r <==> exists j :: 0 <= j < |records| && Holds(g, records[j])
    {
      hide Holds;
      var j := 0;
      while j < |records| && !Holds(g, records[j])
        invariant j <= |records| && forall i :: 0 <= i < j ==> !Holds(g, records[i])
      {
        j := j + 1;
      }
      r := j < |records|;
    }

    /** The free first chunk of a segment is taken out of its place. */
    method TakeFirst(i: nat)
      requires Valid() && 1 <= i < |segs| && segs[i].base in head && head[segs[i].base].size >= MIN_LARGE_SIZE
      requires !head[segs[i].base].cinuse
      modifies this`links, this`fd, this`bk, this`treebins, this`treemap, this`trie, this`dv, this`dvsize, this`layout
      ensures Ok({segs[i].base}) && layout.live == old(layout).live
    {
      hide SmallOk, BinsOk, BinnedIs, HeapOk, Member, KeptOk, Binned, Mapped;
      var p := segs[i].base;
      FirstChunkView(Fields(), Held(), Current(), layout, i);
      if p == dv {
        DvLooseView(Fields(), Held(), Current(), layout);
        dv, dvsize := 0, 0;
      } else {
        LargeInTree(Fields(), Held(), p);
        UnbinLarge(p);
      }
    }

    /** A segment whose first chunk is in hand is no more. */
    method DropSegment(i: nat)
      requires 1 <= i < |segs| && Ok({segs[i].base}) && AllFree(head, segs[i])
      modifies this`segs, this`records, this`layout
      ensures Valid() && layout.live == old(layout).live && segs == WithoutSeg(old(segs), i)
    {
      hide StateOk, KeptOk, WithoutSeg, ReleasedLayout, Mapped;
      ReleaseView(Fields(), Held(), Current(), layout, i);
      ReleaseKept(guard.kept, guard.snap, Fields(), layout, i);
      segs := WithoutSeg(segs, i);
      records := if i < |records| then records[..i] + records[i + 1..] else records;
      layout := ReleasedLayout(layout, i);
    }

    /** One round of release_unused_segments: an old segment is offered to the system if it has no
        block. */
    method ReleaseSegment(i: nat) returns (freed: nat)
      requires Valid() && 1 <= i < |segs|
      modifies this, os`returned
      ensures Valid() && layout.live == old(layout).live && head == old(head)
      ensures os.returned == if AllFree(head, old(segs)[i]) then old(os.returned) + [Return(old(segs)[i], freed != 0)] else old(os.returned)
      ensures freed == 0 ==> segs == old(segs)
      ensures freed != 0 ==> AllFree(head, old(segs)[i]) && segs == WithoutSeg(old(segs), i) && freed == old(segs)[i].size
      ensures top == old(top) && topsize == old(topsize) && trimCheck == old(trimCheck)
    {
      hide StateOk, KeptOk, WithoutSeg, ReleasedLayout, Mapped;
      FirstChunkView(Fields(), Held(), Current(), layout, i);
      freed := 0;
      var base, size := segs[i].base, segs[i].size;
      var p := base;
      var psize := head[p].size;
      if !head[p].cinuse && p + psize >= base + size - TOP_FOOT_SIZE {
        TakeFirst(i);
        var ok := os.CallMunmap(base, size);
        if ok {
          DropSegment(i);
          freed := size;
        } else {
          Bin(p, psize);
        }
      }
    }

    /** Old segments without blocks are left only if the system has refused them just now. */
    ghost predicate RefusedOnly(before: seq<Return>)
      reads this, os`returned
    {
      && before <= os.returned
      && forall j :: 1 <= j < |segs| && AllFree(head, segs[j]) ==> Return(segs[j], false) in os.returned[|before|..]
    }

    /** release_unused_segments: an old segment without blocks is left only if the system refused it. */
    method ReleaseUnused() returns (released: nat)
      requires Valid()
      modifies this, os`returned
      ensures Valid() && layout.live == old(layout).live && NoMore(old(segs), segs) && head == old(head)
      ensures old(os.returned) <= os.returned && Swept(head, old(segs), segs, |segs|, os.returned[|old(os.returned)|..])
      ensures released == 0 <==> segs == old(segs)
      ensures top == old(top) && topsize == old(topsize) && trimCheck == old(trimCheck)
    {
      hide StateOk, KeptOk, WithoutSeg, NoMore, AllFree, Swept, Mapped;
      CurrentSegment(Fields(), Held(), Current(), layout);
      released := 0;
      var nsegs := 0;
      var i := 1;
      NoMoreSame(segs);
      SweptStart(head, segs);
      ghost var log: seq<Return> := [];
      while i < |segs|
        invariant Valid()
        invariant 1 <= i <= |segs| <= |old(segs)| && layout.live == old(layout).live && NoMore(old(segs), segs) && head == old(head)
        invariant os.returned == old(os.returned) + log && Swept(head, old(segs), segs, i, log)
        invariant if released == 0 then segs == old(segs) else |segs| < |old(segs)|
        invariant top == old(top) && topsize == old(topsize) && trimCheck == old(trimCheck)
        decreases |segs| - i
      {
        nsegs := nsegs + 1;
        ghost var before := segs;
        NoMoreWithout(segs, i);
        WithoutAt(segs, i, 0);
        var freed := ReleaseSegment(i);
        if freed == 0 {
          ghost var more := if AllFree(head, segs[i]) then log + [Return(segs[i], false)] else log;
          SweptOn(head, old(segs), segs, i, log, more);
          log := more;
          i := i + 1;
        } else {
          NoMoreTrans(old(segs), before, segs);
          SweptOut(head, old(segs), before, i, log);
          log := log + [Return(before[i], true)];
        }
        released := released + freed;
      }
      releaseChecks := if nsegs > MAX_RELEASE_CHECK_RATE then nsegs else MAX_RELEASE_CHECK_RATE;
    }

    /** The current segment and top shrink. */
    method ShrinkTop(released: nat)
      requires Valid() && InPieces(released) && released % 8 == 0 && released + TOP_FOOT_SIZE < topsize
      modifies this`segs, this`head, this`top, this`topsize, this`trimCheck, this`layout
      ensures Valid() && layout.live == old(layout).live && NoMore(old(segs), segs)
      ensures |old(segs)| > 0 && released <= old(segs)[0].size && segs == TrimmedSegs(old(segs), released)
      ensures top == old(top) && topsize == old(topsize) - released && trimCheck == DEFAULT_TRIM_THRESHOLD
    {
      hide StateOk, KeptOk, NoMore, InPieces, TrimmedSegs, Limit, Mapped;
      TrimView(Fields(), Held(), Current(), layout, released);
      TrimKept(guard.kept, guard.snap, Fields(), Held(), Current(), layout, released);
      NoMoreTrimmed(segs, released);
      ghost var l := Limit(segs, 0);
      segs := TrimmedSegs(segs, released);
      InitTop(top, topsize - released);
      layout := layout.(ends := layout.ends - {l} + {l - released}, segs := segs);
    }

    /** The end of the current segment that alloc_trim is to give back. */
    function Extra(): nat
      requires topsize > TOP_FOOT_SIZE
      reads this
    {
      ExtraSize(topsize - TOP_FOOT_SIZE)
    }

    /** It can be given back: there is room in the current segment, and no segment record in it. */
    ghost predicate CanTrim()
      reads this
    {
      topsize > TOP_FOOT_SIZE && |segs| > 0 && segs[0].size >= Extra() && forall j :: 0 <= j < |records| ==> !Holds(segs[0], records[j])
    }

    /** The part of alloc_trim that shrinks top: what is left has at most one piece beside the
        segment footer. */
    method TrimTop() returns (released: nat)
      requires Valid()
      modifies this`segs, this`head, this`top, this`topsize, this`trimCheck, this`layout, os`returned
      ensures Valid() && layout.live == old(layout).live && NoMore(old(segs), segs)
      ensures released == 0 ==> unchanged(this)
      ensures released != 0 ==> old(CanTrim()) && released == old(Extra()) && topsize == old(topsize) - released && top == old(top)
      ensures released != 0 ==> TOP_FOOT_SIZE < topsize <= TOP_FOOT_SIZE + DEFAULT_GRANULARITY && trimCheck == DEFAULT_TRIM_THRESHOLD
      ensures |old(segs)| > 0 && released <= old(segs)[0].size && segs == TrimmedSegs(old(segs), released)
      ensures if old(CanTrim()) then
                var g := old(Segment(segs[0].base + (segs[0].size - Extra()), Extra()));
                (released == g.size && Offered(old(os.returned), os.returned, g, true))
                || (released == 0 && Offered(old(os.returned), os.returned, g, false))
              else released == 0 && os.returned == old(os.returned)
    {
      hide StateOk, KeptOk, NoMore, Holds, InPieces, ExtraSize, Mapped;
      released := 0;
      NoMoreSame(segs);
      CurrentSegment(Fields(), Held(), Current(), layout);
      NothingTrimmed(segs);
      if topsize > TOP_FOOT_SIZE {
        var sp := SegmentHolding(top);
        var extra := ExtraSize(topsize - TOP_FOOT_SIZE);
        ExtraFits(topsize - TOP_FOOT_SIZE);
        if segs[sp].size >= extra {
          var link := HasSegmentLink(segs[sp]);
          if !link {
            var newsize := segs[sp].size - extra;
            var ok := os.CallMremap(segs[sp].base, segs[sp].size, newsize);
            if !ok {
              ok := os.CallMunmap(segs[sp].base + newsize, extra);
            }
            if ok {
              released := extra;
            }
          }
        }
        if released != 0 {
          ShrinkTop(released);
        }
      }
    }

    /** alloc_trim, without padding: it tells whether anything went back to the system; old segments
        without blocks are left only if the system refused them. */
    method Trim() returns (done: bool)
      requires Valid()
      modifies this, os`returned
      ensures Valid() && layout.live == old(layout).live && NoMore(old(segs), segs)
      ensures done <==> segs != old(segs)
      ensures old(os.returned) <= os.returned && |segs| > 0 && |old(segs)| > 0
      ensures RefusedOnly(old(os.returned))
      ensures segs[0] != old(segs)[0] ==> TOP_FOOT_SIZE < topsize <= TOP_FOOT_SIZE + DEFAULT_GRANULARITY
      ensures !done && old(topsize) > old(trimCheck) ==> trimCheck == WORD - 1
    {
      hide StateOk, KeptOk, NoMore, AllFree, Mapped;
      ghost var first := segs;
      var released := TrimTop();
      ghost var between, log := segs, os.returned;
      var more := ReleaseUnused();
      NoMoreTrans(first, between, segs);
      SweptAll(head, between, segs, os.returned[|log|..]);
      released := released + more;
      if released == 0 && topsize > trimCheck {
        trimCheck := WORD - 1;
      }
      done := released != 0;
    }

    // -------------------------------------------------------------------- free

    /** The state while free goes on from p with psize bytes: if p is dv, it is in hand. */
    ghost predicate Freeing(sp: Spare, loose: set<int>, p0: int, p: int, psize: nat, next: int)
      reads this, guard, os`mapped
    {
      && p0 !in guard.kept.blocks
      && OkWith(sp, loose) && FreeFrom(head, sp, layout, loose, p0, p) && NextOk(head, sp, layout, p0, next)
      && next == p + psize && p > 0 && psize > 0
      && if p == dv then sp == Current().(dv := 0, dvsize := 0) else sp == Current() && (dv != 0 ==> dv > 0)
    }

    /** The freed chunk and top become one top. */
    method JoinTop(p: int, psize: nat, next: int, ghost p0: int, ghost sp: Spare, ghost loose: set<int>)
      requires Freeing(sp, loose, p0, p, psize, next) && next == top
      modifies this`head, this`top, this`topsize, this`dv, this`dvsize, this`layout
      ensures Valid() && layout.live == old(layout).live - {p0}
      ensures topsize == old(topsize) + psize
    {
      hide StateOk, KeptOk, FreeFrom, FreedLayout, NextOk, Mapped;
      MergeTopView(Fields(), Held(), sp, layout, loose, p0, p, psize);
      MergeTopKept(guard.kept, guard.snap, Fields(), Held(), sp, layout, loose, p0, p, psize);
      layout := FreedLayout(layout, p0, p, p + psize + topsize);
      var tsize := topsize + psize;
      topsize := tsize;
      top := p;
      head := head[p := Head(tsize, true, false)];
      if p == dv {
        dv := 0;
        dvsize := 0;
      }
    }

    /** free: the chunk behind is top. */
    method MergeIntoTop(p: int, psize: nat, next: int, ghost p0: int, ghost sp: Spare, ghost loose: set<int>)
      requires Freeing(sp, loose, p0, p, psize, next) && next == top
      modifies this, os`returned
      ensures Valid() && layout.live == old(layout).live - {p0} && NoMore(old(segs), segs)
      ensures old(topsize) + psize <= old(trimCheck) ==> segs == old(segs) && os.returned == old(os.returned)
      ensures old(topsize) + psize > old(trimCheck) ==> RefusedOnly(old(os.returned))
    {
      hide StateOk, KeptOk, FreeFrom, NextOk, NoMore, Mapped;
      NoMoreSame(segs);
      JoinTop(p, psize, next, p0, sp, loose);
      if topsize > trimCheck {
        var done := Trim();
      }
    }

    /** free: the chunk behind is dv. */
    method MergeIntoDv(p: int, psize: nat, next: int, ghost p0: int, ghost sp: Spare, ghost loose: set<int>)
      requires Freeing(sp, loose, p0, p, psize, next) && next == dv != top && !head[next].cinuse
      modifies this
      ensures Valid() && layout.live == old(layout).live - {p0} && segs == old(segs)
    {
      hide StateOk, KeptOk, FreeFrom, FreedLayout, Mapped;
      MergeDv(Fields(), Held(), sp, layout, loose, p0, p, psize);
      MergeDvKept(guard.kept, guard.snap, Fields(), Held(), sp, layout, loose, p0, p, psize);
      layout := FreedLayout(layout, p0, p, p + (psize + dvsize));
      var dsize := psize + dvsize;
      dvsize := dsize;
      dv := p;
      SetFreeSize(p, dsize);
    }

    /** free: the chunk behind is binned and is taken out of its bin. */
    method MergeBinned(p: int, psize: nat, next: int, ghost p0: int, ghost sp: Spare, ghost loose: set<int>)
      returns (size: nat)
      requires Freeing(sp, loose, p0, p, psize, next) && next != dv && next != top && !head[next].cinuse
      modifies this
      ensures OkWith(sp, {p}) && p in head && head[p].size == size && Current() == old(Current())
      ensures layout.live == old(layout).live - {p0} && segs == old(segs)
    {
      hide StateOk, KeptOk, FreeFrom, FreedLayout, Mapped;
      var nsize := head[next].size;
      FreeFromKeep(head, sp, layout, loose, p0, p, layout.binned - {next});
      Unbin(next, nsize, sp, loose);
      MergeNext(Fields(), Held(), sp, layout, loose, p0, p, psize, nsize);
      MergeNextKept(guard.kept, guard.snap, Fields(), Held(), sp, layout, loose, p0, p, psize, nsize);
      size := psize + nsize;
      layout := FreedLayout(layout, p0, p, p + size);
      SetFreeSize(p, size);
    }

    /** free: the chunk behind is in use. */
    method MergeNothing(p: int, psize: nat, next: int, ghost p0: int, ghost sp: Spare, ghost loose: set<int>)
      requires Freeing(sp, loose, p0, p, psize, next) && head[next].cinuse
      modifies this`head, this`foot, this`layout
      ensures OkWith(sp, {p}) && p in head && head[p].size == psize
      ensures layout.live == old(layout).live - {p0}
    {
      hide StateOk, KeptOk, FreeFrom, FreedLayout, Mapped;
      MergeNone(Fields(), Held(), sp, layout, loose, p0, p, psize);
      MergeNoneKept(guard.kept, guard.snap, Fields(), Held(), sp, layout, loose, p0, p, psize);
      layout := FreedLayout(layout, p0, p, p + psize);
      SetFreeWithPinuse(p, psize, next);
    }

    /** The chunk in hand becomes dv again, or goes into a bin. */
    method Settle(p: int, size: nat, ghost sp: Spare)
      requires OkWith(sp, {p}) && p in head && head[p].size == size
      requires if p == dv then sp == Current().(dv := 0, dvsize := 0) else sp == Current()
      modifies this, os`returned
      ensures Valid() && layout.live == old(layout).live && NoMore(old(segs), segs)
      ensures p == old(dv) || size < MIN_LARGE_SIZE || old(releaseChecks) != 1 ==> segs == old(segs) && os.returned == old(os.returned)
      ensures p != old(dv) && size >= MIN_LARGE_SIZE && old(releaseChecks) == 1 ==> RefusedOnly(old(os.returned))
    {
      hide StateOk, KeptOk, NoMore, Mapped;
      NoMoreSame(segs);
      if p == dv {
        NewDvView(Fields(), Held(), sp, layout, p);
        dvsize := size;
      } else {
        Bin(p, size);
        if SmallIndex(size) >= NSMALLBINS {
          releaseChecks := if releaseChecks > 0 then releaseChecks - 1 else WORD - 1;
          if releaseChecks == 0 {
            var released := ReleaseUnused();
          }
        }
      }
    }

    /** The part of lj_alloc_free that looks forward. */
    method FreeForward(p: int, psize: nat, next: int, ghost p0: int, ghost sp: Spare, ghost loose: set<int>)
      requires Freeing(sp, loose, p0, p, psize, next)
      modifies this, os`returned
      ensures Valid() && layout.live == old(layout).live - {p0} && NoMore(old(segs), segs)
    {
      hide StateOk, KeptOk, FreeFrom, NoMore, Mapped;
      NoMoreSame(segs);
      if !head[next].cinuse {
        if next == top {
          MergeIntoTop(p, psize, next, p0, sp, loose);
        } else if next == dv {
          MergeIntoDv(p, psize, next, p0, sp, loose);
        } else {
          var size := MergeBinned(p, psize, next, p0, sp, loose);
          Settle(p, size, sp);
        }
      } else {
        MergeNothing(p, psize, next, p0, sp, loose);
        Settle(p, psize, sp);
      }
    }

    /** free: a direct chunk goes back to the system with its region. */
    method FreeDirect(p: int)
      requires Valid() && p in guard.direct && p in head
      modifies os`mapped, os`returned, guard
      ensures Valid() && guard.direct == old(guard.direct) - {p}
      ensures OfferedOnce(old(os.returned), os.returned, Segment(p, old(guard.direct)[p].size))
    {
      hide StateOk, SameKept, KeptIn, DirectsOk, Regions, Mapped;
      LiveFacts();
      AsLive(layout.live, guard.direct, p);
      WhichKind(p);
      var prevsize := Rd(foot, p) - IS_DIRECT_BIT;
      var psize := head[p].size + (prevsize + DIRECT_FOOT_PAD);
      ghost var ds, blocks := guard.direct, guard.kept.blocks;
      DirectsFewer(head, foot, ds, p);
      OthersKept(ds, p);
      FewerRegions(guard.kept, layout, Regions(ds - {p}));
      os.DirectMunmap(p - prevsize, psize);
      Protect(blocks, ds - {p});
    }

    /** free of a block in a segment */
    method FreeBlock(p0: int)
      requires Valid() && p0 in layout.live && p0 in head && !IsDirect(p0)
      modifies this, guard, os`returned
      ensures Valid() && NoMore(old(segs), segs)
      ensures SameKept(Shield(old(layout).live - {p0}, Regions(guard.direct)), old(Fields()), Fields())
      ensures layout.live == old(layout).live - {p0} && guard.direct == old(guard.direct)
    {
      hide StateOk, SameKept, FreeFrom, NextOk, NoMore, KeptIn, DirectsOk, MappedIn, Regions;
      NoMoreSame(segs);
      Watch(layout.live - {p0});
      var p := p0;
      ghost var sp, loose := Current(), {};
      FreeStart(Fields(), Held(), sp, layout, p);
      var psize := head[p].size;
      var next := p + psize;
      if !head[p].pinuse {
        var prevsize := Rd(foot, p);
        psize := psize + prevsize;
        p := p - prevsize;
        loose := {p};
        if p != dv {
          NextKeep(head, sp, layout, p0, next, p);
          FreeFromKeep(head, sp, layout, loose, p0, p, layout.binned - {p});
          Unbin(p, prevsize, sp, {});
          assert {} + {p} == {p};
        } else {
          DvInHand(head, sp, layout, loose, p0, p, next);
          DvLooseView(Fields(), Held(), sp, layout);
          sp := sp.(dv := 0, dvsize := 0);
          if head[next].cinuse && head[next].pinuse {
            MergeNothing(p, psize, next, p0, sp, loose);
            Settle(p, psize, sp);
            LiveFacts();
            return;
          }
        }
      }
      assert Freeing(sp, loose, p0, p, psize, next);
      FreeForward(p, psize, next, p0, sp, loose);
      LiveFacts();
    }

    /** lj_alloc_free */
    method Free(mem: int)
      requires Valid() && (mem == 0 || MemToChunk(mem) in Live())
      modifies this, guard, os`mapped, os`returned
      ensures Valid() && NoMore(old(segs), segs)
      ensures SameKept(Shield(old(layout).live - {MemToChunk(mem)}, Regions(old(guard.direct) - {MemToChunk(mem)})), old(Fields()), Fields())
      ensures var gone := if mem == 0 then {} else {MemToChunk(mem)};
              && layout.live == old(layout).live - gone && guard.direct == old(guard.direct) - gone
              && Live() == old(Live()) - gone
      ensures mem != 0 && MemToChunk(mem) in old(guard.direct) ==>
                unchanged(this) && OfferedOnce(old(os.returned), os.returned,
                                               Segment(MemToChunk(mem), old(guard.direct)[MemToChunk(mem)].size))
    {
      hide StateOk, SameKept, NoMore, KeptIn, DirectsOk, MappedIn, Regions, AllLive;
      ghost var live, ds := layout.live, guard.direct;
      var p := MemToChunk(mem);
      NoMoreSame(segs);
      KeptStart(Shield(live - {p}, Regions(ds - {p})), Fields());
      if mem == 0 {
        return;
      }
      WhichKind(p);
      LiveWithout(live, ds, p);
      if IsDirect(p) {
        FreeDirect(p);
      } else {
        FreeBlock(p);
      }
    }

    // ----------------------------------------------------------------- realloc

    /** Block p is taken to hold n bytes, which its chunk has room for; from now on, the given
        bytes are protected. */
    ghost method Reckon(p: int, n: nat, blocks: map<int, nat>)
      requires Valid() && p in layout.live && p in head && n + CHUNK_OVERHEAD <= head[p].size
      requires forall q <- blocks :: q in layout.live[p := n] && blocks[q] <= layout.live[p := n][q]
      modifies this`layout, guard
      ensures Valid() && layout == old(layout).(live := old(layout).live[p := n]) && guard.direct == old(guard.direct)
      ensures guard.kept == Shield(blocks, Regions(guard.direct)) && guard.snap == Fields()
    {
      hide StateOk, SameKept, KeptIn, DirectsOk, MappedIn, Regions;
      LiveFacts();
      Relabel(Fields(), Held(), Current(), layout, p, n);
      OtherBlocks(guard.kept, layout, layout.(live := layout.live[p := n]), blocks);
      layout := layout.(live := layout.live[p := n]);
      Protect(blocks, guard.direct);
    }

    /** The same for blocks of both kinds. */
    ghost method ReckonAny(p: int, n: nat)
      requires Valid() && p in Live() && p in head && n + OverheadFor(p) <= head[p].size
      modifies this`layout, guard
      ensures Valid() && layout == old(layout).(live := layout.live)
      ensures Reckoned(old(layout).live, old(guard.direct), layout.live, guard.direct, p, n)
    {
      hide StateOk, SameKept, KeptIn, DirectsOk, MappedIn, Regions;
      LiveFacts();
      WhichKind(p);
      if p in guard.direct {
        ghost var ds := guard.direct;
        RequestAs(head, foot, ds, os.mapped, p, n);
        OtherBlocks(guard.kept, layout, layout, map[]);
        Protect(map[], ds[p := Direct(ds[p].size, n)]);
      } else {
        Reckon(p, n, map[]);
      }
    }

    /** set_inuse */
    method SetInuse(p: int, s: nat)
      requires p in head
      modifies this`head
      ensures head == old(head)[p := Head(s, old(head)[p].pinuse, true)]
                               [p + s := HeadAt(old(head)[p := Head(s, old(head)[p].pinuse, true)], p + s).(pinuse := true)]
    {
      head := head[p := Head(s, head[p].pinuse, true)];
      head := head[p + s := HeadAt(head, p + s).(pinuse := true)];
    }

    /** realloc of a block that is large enough: the surplus, if it is a chunk, is freed. */
    method Shrink(p: int, nb: nat, ghost nsize: nat)
      requires Valid() && p in layout.live && p in head && nb <= head[p].size && nb % 8 == 0 && MIN_CHUNK_SIZE <= nb
      requires nsize + CHUNK_OVERHEAD <= nb
      modifies this, guard, os`mapped, os`returned
      ensures Valid() && layout.live == old(layout).live[p := nsize] && guard.direct == old(guard.direct)
      ensures SameKept(Shield(old(layout).live[p := nsize], Regions(guard.direct)), old(Fields()), Fields())
    {
      hide StateOk, SameKept, CutInTwo, KeptIn, DirectsOk, MappedIn, Regions, NoMore, OfferedOnce, AllLive;
      var rsize := head[p].size - nb;
      ghost var blocks, ds := layout.live[p := nsize], guard.direct;
      Reckon(p, nsize, blocks);
      if rsize >= MIN_CHUNK_SIZE {
        ghost var kept := guard.kept;
        FreeStart(Fields(), Held(), Current(), layout, p);
        CutBothView(Fields(), Held(), Current(), layout, p, nb, rsize, nsize, rsize - CHUNK_OVERHEAD);
        CutBothKept(kept, guard.snap, Fields(), Held(), Current(), layout, p, nb, rsize, nsize, rsize - CHUNK_OVERHEAD);
        CutInTwoWrites(head, p, nb, rsize);
        var rem := p + nb;
        SetInuse(p, nb);
        SetInuse(rem, rsize);
        layout := layout.(chunks := layout.chunks + {rem}, live := TwoBlocks(layout.live, p, nsize, rem, rsize - CHUNK_OVERHEAD));
        ghost var v, live := Fields(), layout.live;
        LiveFacts();
        AsLive(live, ds, rem);
        LiveWithout(live, ds, rem);
        Free(ChunkToMem(rem));
        assert live - {rem} == blocks;
        KeptTrans(kept, old(Fields()), v, Fields());
      } else {
        LiveFacts();
      }
    }

    /** realloc of a block that is followed by top. */
    method GrowIntoTop(p: int, nb: nat, ghost nsize: nat)
      requires Valid() && p in layout.live && p in head && head[p].size < nb < head[p].size + topsize
      requires p + head[p].size == top && nb % 8 == 0 && MIN_CHUNK_SIZE <= nb && nsize + CHUNK_OVERHEAD <= nb
      modifies this, guard
      ensures Valid() && layout.live == old(layout).live[p := nsize] && guard.direct == old(guard.direct)
      ensures old(head)[p].size >= CHUNK_OVERHEAD
      ensures SameKept(Shield(old(layout).live[p := Min(old(head)[p].size - CHUNK_OVERHEAD, nsize)], Regions(guard.direct)),
                       old(Fields()), Fields())
    {
      hide StateOk, SameKept, GrownLayout, KeptIn, DirectsOk, MappedIn, Regions;
      FreeStart(Fields(), Held(), Current(), layout, p);
      ghost var n := Min(head[p].size - CHUNK_OVERHEAD, nsize);
      Reckon(p, n, layout.live[p := n]);
      var newsize := head[p].size + topsize;
      var newtopsize := newsize - nb;
      var newtop := p + nb;
      GrowTopView(Fields(), Held(), Current(), layout, p, nb, newtopsize, nsize);
      GrowTopKept(guard.kept, guard.snap, Fields(), Held(), Current(), layout, p, nb, newtopsize, nsize);
      layout := GrownLayout(layout, p, newtop, p + newsize, nsize);
      SetInuse(p, nb);
      head := head[newtop := Head(newtopsize, true, false)];
      assert head == old(head)[p := Head(nb, old(head)[p].pinuse, true)][newtop := Head(newtopsize, true, false)];
      top := newtop;
      topsize := newtopsize;
      LiveFacts();
    }

    /** direct_resize: the chunk stays where it is, and so does its region unless it is too small
        or much too large. Too small a chunk is not mapped directly. */
    method DirectResize(p: int, nb: nat, ghost nsize: nat) returns (ok: bool)
      requires Valid() && p in guard.direct && p in head && nsize < MAX_REQUEST && nb == RequestToSize(nsize)
      modifies this`head, os`mapped, guard
      ensures Valid() && old(head)[p].size >= DIRECT_CHUNK_OVERHEAD
      ensures !ok ==> unchanged(this) && guard.direct == old(guard.direct)
      ensures ok ==> p in guard.direct && guard.direct == old(guard.direct)[p := Direct(guard.direct[p].size, nsize)]
      ensures ok ==> SameKept(Shield(layout.live, Regions(old(guard.direct) - {p}) +
                                {Segment(ChunkToMem(p), Min(old(head)[p].size - DIRECT_CHUNK_OVERHEAD, nsize))}), old(Fields()), Fields())
      ensures nb < MIN_LARGE_SIZE ==> !ok
      ensures MIN_LARGE_SIZE <= nb && nb + 8 <= old(head)[p].size <= nb + DEFAULT_GRANULARITY / 2 ==> ok && Fields() == old(Fields())
      ensures ok && !(nb + 8 <= old(head)[p].size <= nb + DEFAULT_GRANULARITY / 2) ==> guard.direct[p].size == DirectRequest(nb)
    {
      hide StateOk, SameKept, KeptIn, DirectsOk, MappedIn, Regions, Vacant, DirectHeads, DirectRequest, RequestToSize;
      RequestFits(nsize);
      DirectRequestFits(nb);
      AsLive(layout.live, guard.direct, p);
      WhichKind(p);
      Watch(layout.live);
      LiveFacts();
      ghost var live, ds := layout.live, guard.direct;
      ghost var n := Min(head[p].size - DIRECT_CHUNK_OVERHEAD, nsize);
      var oldsize := head[p].size;
      ok := false;
      if SmallIndex(nb) >= NSMALLBINS {
        if oldsize >= nb + 8 && oldsize - nb <= DEFAULT_GRANULARITY / 2 {
          ok := true;
          RequestAs(head, foot, ds, os.mapped, p, nsize);
          Protect(live, ds[p := Direct(ds[p].size, nsize)]);
          KeptStart(Shield(live, Regions(ds - {p}) + {Segment(ChunkToMem(p), n)}), Fields());
        } else {
          var offset := Rd(foot, p) - IS_DIRECT_BIT;
          var oldmmsize := oldsize + offset + DIRECT_FOOT_PAD;
          var newmmsize := DirectRequest(nb);
          ok := os.DirectMremap(p - offset, oldmmsize, newmmsize, segs);
          if ok {
            var psize := newmmsize - offset - DIRECT_FOOT_PAD;
            DirectResizeOk(live, Fields(), Held(), Current(), layout, ds, old(os.mapped), Segment(p, newmmsize), nsize, n);
            SetDirectHeads(p, psize);
            Protect(live, ds[p := Direct(newmmsize, nsize)]);
          }
        }
      }
    }

    /** The part of lj_alloc_realloc that leaves the block where it is, if that can be done. */
    method InPlace(p: int, nb: nat, ghost nsize: nat) returns (ok: bool)
      requires Valid() && p in Live() && p in head && nsize < MAX_REQUEST && nb == RequestToSize(nsize)
      modifies this, os`mapped, os`returned, guard
      ensures Valid() && old(head[p].size >= OverheadFor(p))
      ensures !ok ==> unchanged(this) && guard.direct == old(guard.direct)
      ensures ok ==> Live() == old(Live())[p := nsize]
      ensures ok ==> SameKept(Shield(old(layout).live - {p}, Regions(old(guard.direct) - {p}) +
                                {Segment(ChunkToMem(p), Min(old(head[p].size - OverheadFor(p)), nsize))}), old(Fields()), Fields())
      ensures nb <= old(head)[p].size && p in old(layout).live ==> ok
      ensures p in old(guard.direct) && MIN_LARGE_SIZE <= nb && nb + 8 <= old(head)[p].size <= nb + DEFAULT_GRANULARITY / 2 ==> ok
    {
      hide StateOk, SameKept, KeptIn, DirectsOk, MappedIn, Regions, AllLive, RequestToSize, DirectRequest;
      ghost var live, ds := layout.live, guard.direct;
      WhichKind(p);
      LiveWithout(live, ds, p);
      CurrentSegment(Fields(), Held(), Current(), layout);
      RequestFits(nsize);
      var oldsize := head[p].size;
      ghost var n := Min(oldsize - OverheadFor(p), nsize);
      ok := true;
      if IsDirect(p) {
        ok := DirectResize(p, nb, nsize);
        if ok {
          ResizedLive(live, ds, guard.direct, p, nsize);
        }
        return;
      } else if oldsize >= nb {
        Shrink(p, nb, nsize);
      } else if p + oldsize == top && oldsize + topsize > nb {
        GrowIntoTop(p, nb, nsize);
      } else {
        ok := false;
        return;
      }
      assert n <= nsize;
      BlockAsRegion(live, Regions(ds), p, n, old(Fields()), Fields());
      RelabelledLive(live, ds, p, nsize);
    }

    /** realloc: memcpy to the new block, and free of the old one. */
    method CopyAndFree(mem: int, newmem: int, n: nat, ram: Ram)
      requires Valid() && MemToChunk(mem) in Live() && MemToChunk(newmem) in Live() && newmem != mem
      requires n <= Live()[MemToChunk(mem)] && n <= Live()[MemToChunk(newmem)]
      modifies this, guard, os`mapped, os`returned, ram
      ensures Valid() && Live() == old(Live()) - {MemToChunk(mem)}
      ensures SameKept(Shield(old(layout).live - {MemToChunk(mem)}, Regions(old(guard.direct) - {MemToChunk(mem)})), old(Fields()), Fields())
      ensures Preserved(old(ram.bytes), mem, ram.bytes, newmem, n)
      ensures forall q <- old(Live()) :: q != MemToChunk(mem) && q != MemToChunk(newmem) ==>
                Preserved(old(ram.bytes), ChunkToMem(q), ram.bytes, ChunkToMem(q), old(Live())[q])
    {
      hide StateOk, SameKept, KeptIn, DirectsOk, MappedIn, Regions, AllLive, Preserved, Touched, RoomIn, NoMore;
      ghost var live, ds := layout.live, guard.direct;
      var p := MemToChunk(mem);
      LiveSafe();
      ram.Copy(newmem, mem, n);
      ghost var b := ram.bytes;
      LiveWithout(live, ds, p);
      var v := Fields();
      Free(mem);
      LiveFacts();
      var v1 := Fields();
      ram.Settle(v, v1);
      NoneMore(ds - {p});
      LiveBytesKept(live - {p}, ds - {p}, {}, v, v1, b, ram.bytes);
      CopiedBytes(old(ram.bytes), b, ram.bytes, AllLive(live, ds), p, MemToChunk(newmem), n);
    }

    /** realloc by way of a new block. */
    method MallocCopyFree(mem: int, nsize: nat, ram: Ram) returns (newmem: int)
      requires Valid() && MemToChunk(mem) in Live() && MemToChunk(mem) in head
      modifies this, os, guard, ram
      ensures Valid() && old(head[MemToChunk(mem)].size >= OverheadFor(MemToChunk(mem)))
      ensures newmem == 0 ==> Refused(nsize) && ram.bytes == old(ram.bytes) && Fields() == old(Fields())
      ensures newmem == 0 ==> layout.live == old(layout).live && guard.direct == old(guard.direct)
      ensures newmem != 0 ==> MemToChunk(newmem) !in old(Live()) && Live() == (old(Live()) - {MemToChunk(mem)})[MemToChunk(newmem) := nsize]
      ensures SameKept(Shield(old(layout).live - {MemToChunk(mem)}, Regions(old(guard.direct) - {MemToChunk(mem)})), old(Fields()), Fields())
      ensures newmem != 0 ==> Preserved(old(ram.bytes), mem, ram.bytes, newmem,
                                        Min(old(head[MemToChunk(mem)].size - OverheadFor(MemToChunk(mem))), nsize))
      ensures newmem != 0 ==> forall q <- old(Live()) :: q != MemToChunk(mem) ==>
                Preserved(old(ram.bytes), ChunkToMem(q), ram.bytes, ChunkToMem(q), old(Live())[q])
    {
      hide StateOk, SameKept, KeptIn, DirectsOk, MappedIn, Regions, AllLive, Preserved, Touched, Within, RoomIn,
        NewChunk, Reckoned, NoMore;
      ghost var live, ds := layout.live, guard.direct;
      var p := MemToChunk(mem);
      LiveFacts();
      WhichKind(p);
      var oc := head[p].size - OverheadFor(p);
      ReckonAny(p, oc);
      LiveFacts();
      ghost var live1, ds1 := layout.live, guard.direct;
      ReckonedLive(live, ds, live1, ds1, p, oc);
      ghost var less := Shield(live - {p}, Regions(ds - {p}));
      var v := Fields();
      newmem := Malloc(nsize);
      LiveFacts();
      var v1 := Fields();
      ram.Settle(v, v1);
      if newmem == 0 {
        ReckonAny(p, old(Live())[p]);
        ReckonedBack(live, ds, live1, ds1, layout.live, guard.direct, p, oc, old(Live())[p]);
        KeptStart(less, v);
      } else {
        ghost var b1, live2, ds2 := ram.bytes, layout.live, guard.direct;
        MovedLive(live, ds, live1, ds1, live2, ds2, p, oc, newmem, nsize);
        NoneMore(ds1);
        LiveBytesKept(live1, ds1, {}, v, v1, old(ram.bytes), b1);
        CopyAndFree(mem, newmem, Min(oc, nsize), ram);
        MovedBytes(old(ram.bytes), b1, ram.bytes, AllLive(live, ds), AllLive(live1, ds1), AllLive(live2, ds2), p,
                   MemToChunk(newmem), Min(oc, nsize));
        KeptFewer(Shield(live1, Regions(ds1)), less, v, v1);
        KeptFewer(Shield(live2 - {p}, Regions(ds2 - {p})), less, v1, Fields());
        KeptTrans(less, v, v1, Fields());
      }
    }

    /** lj_alloc_realloc: null leaves the old block as it was; otherwise its bytes are
        kept, as many as fit, and no other block's bytes change. */
    method Realloc(mem: int, nsize: nat, ram: Ram) returns (newmem: int)
      requires Valid() && MemToChunk(mem) in Live()
      modifies this, os, guard, ram
      ensures Valid()
      ensures newmem == 0 ==> Live() == old(Live()) && ram.bytes == old(ram.bytes) && Refused(nsize)
      ensures newmem == 0 ==> Fields() == old(Fields())
      ensures newmem != 0 ==> Live() == (old(Live()) - {MemToChunk(mem)})[MemToChunk(newmem) := nsize]
      ensures newmem != 0 ==> newmem == mem || MemToChunk(newmem) !in old(Live())
      ensures MemToChunk(mem) in old(head)
      ensures old(Live()[MemToChunk(mem)] + OverheadFor(MemToChunk(mem)) <= head[MemToChunk(mem)].size)
      ensures nsize < MAX_REQUEST && RequestToSize(nsize) <= old(head)[MemToChunk(mem)].size && MemToChunk(mem) in old(layout).live ==>
                newmem == mem
      ensures SameKept(Shield(old(layout).live - {MemToChunk(mem)}, Regions(old(guard.direct) - {MemToChunk(mem)})), old(Fields()), Fields())
      ensures newmem == mem ==>
                SameKept(Shield(old(layout).live - {MemToChunk(mem)}, Regions(old(guard.direct) - {MemToChunk(mem)}) +
                  {Segment(mem, Min(old(head[MemToChunk(mem)].size - OverheadFor(MemToChunk(mem))), nsize))}), old(Fields()), Fields())
      ensures newmem != 0 ==> Preserved(old(ram.bytes), mem, ram.bytes, newmem,
                                        Min(old(head[MemToChunk(mem)].size - OverheadFor(MemToChunk(mem))), nsize))
      ensures forall q <- old(Live()) :: q != MemToChunk(mem) ==>
                Preserved(old(ram.bytes), ChunkToMem(q), ram.bytes, ChunkToMem(q), old(Live())[q])
    {
      hide StateOk, SameKept, KeptIn, DirectsOk, MappedIn, Regions, AllLive, Touched, RequestToSize, Within, RoomIn;
      ghost var live, ds := layout.live, guard.direct;
      var p := MemToChunk(mem);
      ghost var less := Shield(live - {p}, Regions(ds - {p}));
      LiveFacts();
      WhichKind(p);
      KeptStart(less, Fields());
      LiveSafe();
      if nsize >= MAX_REQUEST {
        return 0;
      }
      var v := Fields();
      ghost var n := Min(head[p].size - OverheadFor(p), nsize);
      var ok := InPlace(p, RequestToSize(nsize), nsize);
      if ok {
        newmem := mem;
        var v1 := Fields();
        ram.Settle(v, v1);
        LiveWithout(live, ds, p);
        RoomFewer(ds, p);
        LiveBytesKept(live - {p}, ds - {p}, {Segment(mem, n)}, v, v1, old(ram.bytes), ram.bytes);
        LessRegions(live - {p}, Regions(ds - {p}), {Segment(mem, n)});
        KeptFewer(Shield(live - {p}, Regions(ds - {p}) + {Segment(mem, n)}), less, v, v1);
      } else {
        newmem := MallocCopyFree(mem, nsize, ram);
      }
    }

    /** lj_alloc_f, the allocator function of a Lua state. */
    method AllocF(mem: int, nsize: nat, ram: Ram) returns (newmem: int)
      requires Valid() && (mem == 0 || MemToChunk(mem) in Live())
      modifies this, os, guard, ram
      ensures Valid()
      ensures nsize == 0 ==> newmem == 0 && Live() == if mem == 0 then old(Live()) else old(Live()) - {MemToChunk(mem)}
      ensures nsize > 0 && newmem == 0 ==> Live() == old(Live()) && ram.bytes == old(ram.bytes) && Refused(nsize)
      ensures nsize > 0 && newmem != 0 ==>
                Live() == (old(Live()) - if mem == 0 then {} else {MemToChunk(mem)})[MemToChunk(newmem) := nsize]
                && (newmem == mem || MemToChunk(newmem) !in old(Live()))
      ensures nsize > 0 && newmem != 0 && mem != 0 ==>
                Preserved(old(ram.bytes), mem, ram.bytes, newmem, Min(old(Live())[MemToChunk(mem)], nsize))
      ensures forall q <- old(Live()) :: q != MemToChunk(mem) ==>
                Preserved(old(ram.bytes), ChunkToMem(q), ram.bytes, ChunkToMem(q), old(Live())[q])
    {
      hide StateOk, KeptOk, SameKept, Touched, Preserved, DirectsOk, MappedIn, Regions, AllLive, RoomIn;
      ghost var live, ds := layout.live, guard.direct;
      var p := MemToChunk(mem);
      if nsize > 0 && mem != 0 {
        newmem := Realloc(mem, nsize, ram);
        if newmem != 0 {
          FewerBytes(old(ram.bytes), ram.bytes, mem, newmem, Min(old(head[p].size - OverheadFor(p)), nsize),
                     Min(old(Live())[p], nsize));
        }
        return;
      }
      LiveFacts();
      var v := Fields();
      if nsize == 0 {
        Free(mem);
        newmem := 0;
        LiveWithout(live, ds, p);
        RoomFewer(ds, p);
        live, ds := live - {p}, ds - {p};
      } else {
        newmem := Malloc(nsize);
      }
      var v1 := Fields();
      ram.Settle(v, v1);
      NoneMore(ds);
      LiveBytesKept(live, ds, {}, v, v1, old(ram.bytes), ram.bytes);
    }
  }
}
