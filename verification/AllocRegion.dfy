// Fresh memory from the system: appended to the current segment, prepended to a
// segment, or made a segment of its own (luajit/src/lj_alloc.c).

module AllocRegion {
  import opened AllocSizes
  import opened AllocRing
  import opened AllocTile
  import opened AllocState

  /** A mapping that the system may return: page aligned and apart from all segments. */
  predicate FreshRegion(segs: seq<Segment>, g: Segment) {
    && SegmentOk(g) && g.base % 4096 == 0
    && forall i :: 0 <= i < |segs| ==> Apart(segs[i], g)
  }

  // ------------------------------------------------- appending to the top segment

  function GrownSegs(segs: seq<Segment>, n: nat): seq<Segment>
    requires |segs| > 0
  {
    segs[0 := Segment(segs[0].base, segs[0].size + n)]
  }

  /** With the region right behind the current segment, all others lie clear of both. */
  lemma SegClear(segs: seq<Segment>, g: Segment, i: nat)
    requires SegsApart(segs) && FreshRegion(segs, g) && g.base == segs[0].base + segs[0].size && 1 <= i < |segs|
    ensures g.base + g.size <= segs[i].base || segs[i].base + segs[i].size <= segs[0].base
    ensures SegmentOk(segs[i]) && Limit(segs, i) == Limit(GrownSegs(segs, g.size), i)
    ensures segs[i].base < Limit(segs, i) < segs[i].base + segs[i].size
  {
    assert SegmentOk(segs[i]) && Apart(segs[0], segs[i]) && Apart(segs[i], g);
  }

  lemma ChunkBehind(segs: seq<Segment>, g: Segment, c: int, top: int, l: int)
    requires SegsApart(segs) && FreshRegion(segs, g) && g.base == segs[0].base + segs[0].size
    requires HasSeg(segs, c) && c >= l == Limit(segs, 0) && segs[0].base <= top < l
    ensures c >= g.base + g.size
  {
    hide SegsApart, FreshRegion;
    var i := PickSeg(segs, c);
    if i > 0 {
      SegClear(segs, g, i);
    }
  }

  lemma EndBehind(segs: seq<Segment>, g: Segment, e: int, top: int)
    requires SegsApart(segs) && FreshRegion(segs, g) && g.base == segs[0].base + segs[0].size
    requires IsLimit(segs, e) && e > top && e != Limit(segs, 0) && segs[0].base <= top
    ensures e >= g.base + g.size
  {
    hide SegsApart, FreshRegion;
    var i :| 0 <= i < |segs| && e == Limit(segs, i);
    SegClear(segs, g, i);
  }

  lemma NoneInside(head: Heads, chunks: set<int>, ends: set<int>, top: int)
    requires TileOk(head, chunks, ends) && top in chunks
    ensures forall c <- chunks :: c > top ==> c >= Next(head, top)
  {
  }

  /** Chunks and ends behind top lie behind the region. */
  lemma BehindTop(head: Heads, foot: map<int, int>, s: Spare, y: Layout, g: Segment)
    requires HeapTiles(head, foot, y.chunks, y.ends, s.top) && SegsOk(head, y.chunks, y.ends, s.top, y.segs)
    requires FreshRegion(y.segs, g) && g.base == y.segs[0].base + y.segs[0].size
    ensures Next(head, s.top) == Limit(y.segs, 0)
    ensures forall c <- y.chunks :: c > s.top ==> c >= g.base + g.size
    ensures forall e <- y.ends :: e > s.top && e != Limit(y.segs, 0) ==> e >= g.base + g.size
  {
    hide BasesOk, FreshRegion, FlagsOk, SegsApart, HasSeg, IsLimit, TileOk;
    TopLimit(head, foot, s, y);
    NoneInside(head, y.chunks, y.ends, s.top);
    forall c <- y.chunks | c > s.top
      ensures c >= g.base + g.size
    {
      ChunkBehind(y.segs, g, c, s.top, Limit(y.segs, 0));
    }
    forall e <- y.ends | e > s.top && e != Limit(y.segs, 0)
      ensures e >= g.base + g.size
    {
      EndBehind(y.segs, g, e, s.top);
    }
  }

  /** top grows by n bytes, or shrinks. */
  lemma GrowTiles(head: Heads, foot: map<int, int>, chunks: set<int>, ends: set<int>, top: int, n: int)
    requires HeapTiles(head, foot, chunks, ends, top) && n % 8 == 0 && head[top].size + n > 0
    requires var l := Next(head, top);
      (forall c <- chunks :: c > top ==> c > l + n) && (forall e <- ends :: e > top && e != l ==> e > l + n)
    ensures var l := Next(head, top);
      HeapTiles(head[top := Head(head[top].size + n, true, false)], foot, chunks, ends - {l} + {l + n}, top)
  {
    var l := Next(head, top);
    hide TileOk, FlagsOk;
    GrowFacts(head, foot, chunks, ends, top);
    GrowTile(head, chunks, ends, top, n, l);
    GrowFlags(head, foot, chunks, ends, top, n, l);
  }

  lemma GrowFlags(head: Heads, foot: map<int, int>, chunks: set<int>, ends: set<int>, top: int, n: int, l: int)
    requires FlagsOk(head, foot, chunks, ends, top) && l == Next(head, top) && l !in chunks && l + n !in chunks
    requires forall c <- chunks :: c in head && Next(head, c) > c && (c != top ==> Next(head, c) != l)
    requires head[top].pinuse && head[top].size + n > 0 && forall c <- chunks :: c != top ==> Next(head, c) != l + n
    ensures FlagsOk(head[top := Head(head[top].size + n, true, false)], foot, chunks, ends - {l} + {l + n}, top)
  {
    var head' := head[top := Head(head[top].size + n, true, false)];
    forall c <- chunks
      ensures BorderOk(head', foot, chunks, c)
    {
      assert BorderOk(head, foot, chunks, c);
    }
    forall c <- chunks
      ensures BackOk(head', foot, chunks, c)
    {
      assert BackOk(head, foot, chunks, c);
    }
    hide BorderOk, BackOk;
  }

  lemma GrowFacts(head: Heads, foot: map<int, int>, chunks: set<int>, ends: set<int>, top: int)
    requires HeapTiles(head, foot, chunks, ends, top)
    ensures top in chunks && top in head && head[top].pinuse && !head[top].cinuse && Next(head, top) in ends
    ensures forall c <- chunks :: c in head && Next(head, c) > c && (c != top ==> Next(head, c) != Next(head, top))
    ensures Next(head, top) !in chunks
  {
    FreeFacts(head, foot, chunks, ends, top, top);
    TopEnds(head, foot, chunks, ends, top);
    forall c <- chunks
      ensures c in head && Next(head, c) > c && (c != top ==> Next(head, c) != Next(head, top))
    {
      Positive(head, chunks, ends, c);
      if Next(head, c) == Next(head, top) {
        SameNext(head, chunks, ends, c, top);
      }
    }
  }

  lemma GrowTile(head: Heads, chunks: set<int>, ends: set<int>, top: int, n: int, l: int)
    requires TileOk(head, chunks, ends) && n % 8 == 0 && top in chunks && top in head && l == Next(head, top)
    requires head[top].size + n > 0
    requires forall c <- chunks :: c != top ==> Next(head, c) != l
    requires (forall c <- chunks :: c > top ==> c > l + n) && (forall e <- ends :: e > top && e != l ==> e > l + n)
    ensures TileOk(head[top := Head(head[top].size + n, true, false)], chunks, ends - {l} + {l + n})
    ensures l + n !in chunks && forall c <- chunks :: c != top ==> Next(head, c) != l + n
  {
    var head' := head[top := Head(head[top].size + n, true, false)];
    var ends' := ends - {l} + {l + n};
    assert ChunkOk(head, top);
    EightSum(head[top].size, n);
    assert ChunkOk(head, top) && ChunkOk(head', top) && Next(head', top) == l + n;
    forall c <- chunks | c != top
      ensures ChunkOk(head', c) && Next(head', c) == Next(head, c) && (Next(head, c) <= top || c > l + n)
    {
      assert ChunkOk(head, c);
    }
    hide ChunkOk, Next;
    assert chunks + {top} == chunks;
    AddTile(head, chunks, ends, head', ends', top);
  }

  lemma GrowFree(head: Heads, chunks: set<int>, binned: set<int>, s: Spare, n: int)
    requires FreeOk(head, chunks, binned, s.dv, s.dvsize, s.top, s.topsize, {}) && 0 < s.topsize + n < SIZE_LIMIT
    ensures FreeOk(head[s.top := Head(s.topsize + n, true, false)], chunks, binned, s.dv, s.dvsize, s.top, s.topsize + n, {})
  {
  }

  lemma GrowLive(head: Heads, chunks: set<int>, live: map<int, nat>, pinned: set<int>, top: int, z: nat)
    requires LiveOk(head, chunks, live, pinned) && top in chunks && !head[top].cinuse
    ensures LiveOk(head[top := Head(z, true, false)], chunks, live, pinned)
  {
  }

  lemma GrowSegs(head: Heads, y: Layout, s: Spare, g: Segment, z: nat)
    requires SegsOk(head, y.chunks, y.ends, s.top, y.segs) && FreshRegion(y.segs, g)
    requires g.base == y.segs[0].base + y.segs[0].size && s.top in head && head[s.top].pinuse
    ensures var l := Limit(y.segs, 0);
      SegsOk(head[s.top := Head(z, true, false)], y.chunks, y.ends - {l} + {l + g.size}, s.top, GrownSegs(y.segs, g.size))
  {
    hide SegsApart, FreshRegion, IsLimit, HasSeg, BasesOk;
    GrowApart(y.segs, g);
    forall e
      ensures e in y.ends - {Limit(y.segs, 0)} + {Limit(y.segs, 0) + g.size} <==> IsLimit(GrownSegs(y.segs, g.size), e)
    {
      GrowLimit(y.segs, g, e);
    }
    forall c <- y.chunks
      ensures HasSeg(GrownSegs(y.segs, g.size), c)
    {
      GrowHas(y.segs, g.size, c);
    }
    GrowBases(head, y, s, g.size, z);
  }

  lemma GrowHas(segs: seq<Segment>, n: nat, c: int)
    requires HasSeg(segs, c)
    ensures |segs| > 0 && HasSeg(GrownSegs(segs, n), c)
  {
    var i := PickSeg(segs, c);
    assert InSeg(GrownSegs(segs, n), i, c);
  }

  lemma GrowBases(head: Heads, y: Layout, s: Spare, n: nat, z: nat)
    requires BasesOk(head, y.chunks, y.segs) && |y.segs| > 0
    ensures BasesOk(head[s.top := Head(z, true, false)], y.chunks, GrownSegs(y.segs, n))
  {
    forall i | 0 <= i < |y.segs|
      ensures BaseOk(head[s.top := Head(z, true, false)], y.chunks, GrownSegs(y.segs, n)[i])
    {
      assert BaseOk(head, y.chunks, y.segs[i]);
    }
  }

  lemma GrownSegment(h: Segment, g: Segment)
    requires SegmentOk(h) && SegmentOk(g) && g.base == h.base + h.size
    ensures SegmentOk(Segment(h.base, h.size + g.size)) && h.size > TOP_FOOT_SIZE
  {
    hide InPieces;
    PiecesSum(h.size, g.size);
    EightSum(h.size, g.size);
  }

  lemma EightSum(a: int, b: int)
    requires a % 8 == 0 && b % 8 == 0
    ensures (a + b) % 8 == 0
  {
  }

  lemma GrowApart(segs: seq<Segment>, g: Segment)
    requires SegsApart(segs) && FreshRegion(segs, g) && g.base == segs[0].base + segs[0].size
    ensures SegsApart(GrownSegs(segs, g.size))
    ensures forall i :: 1 <= i < |segs| ==> Limit(segs, i) != Limit(segs, 0)
  {
    hide SegmentOk;
    var segs' := GrownSegs(segs, g.size);
    GrownSegment(segs[0], g);
    forall i | 1 <= i < |segs|
      ensures Apart(segs'[0], segs'[i]) && SegmentOk(segs'[i]) && Limit(segs, i) != Limit(segs, 0)
    {
      SegClear(segs, g, i);
    }
  }

  lemma GrowLimit(segs: seq<Segment>, g: Segment, e: int)
    requires |segs| > 0 && forall i :: 1 <= i < |segs| ==> Limit(segs, i) != Limit(segs, 0)
    ensures (IsLimit(segs, e) && e != Limit(segs, 0)) || e == Limit(segs, 0) + g.size <==> IsLimit(GrownSegs(segs, g.size), e)
  {
    var segs' := GrownSegs(segs, g.size);
    assert Limit(segs', 0) == Limit(segs, 0) + g.size;
    assert forall i :: 1 <= i < |segs| ==> Limit(segs', i) == Limit(segs, i);
    if IsLimit(segs, e) && e != Limit(segs, 0) {
      var i :| 0 <= i < |segs| && e == Limit(segs, i);
      assert e == Limit(segs', i);
    }
    if e == Limit(segs, 0) + g.size {
      assert e == Limit(segs', 0);
    }
  }

  /** alloc_sys, append: the region extends the current segment and top. */
  lemma AppendOk(head: Heads, foot: map<int, int>, s: Spare, y: Layout, g: Segment)
    requires HeapOk(head, foot, s, y, {}) && FreshRegion(y.segs, g) && g.base == y.segs[0].base + y.segs[0].size
    ensures s.topsize + g.size < SIZE_LIMIT
    ensures var l := Limit(y.segs, 0);
      HeapOk(head[s.top := Head(s.topsize + g.size, true, false)], foot, s.(topsize := s.topsize + g.size),
             y.(ends := y.ends - {l} + {l + g.size}, segs := GrownSegs(y.segs, g.size)), {})
  {
    hide TileOk, FlagsOk, IsLimit, HasSeg, BasesOk, LiveOk, FencesOk, FreshRegion;
    BehindTop(head, foot, s, y, g);
    GrowFacts(head, foot, y.chunks, y.ends, s.top);
    RegionFacts(y.segs, g);
    Positive(head, y.chunks, y.ends, s.top);
    GrowTiles(head, foot, y.chunks, y.ends, s.top, g.size);
    GrowFree(head, y.chunks, y.binned, s, g.size);
    GrowLive(head, y.chunks, y.live, y.pinned, s.top, s.topsize + g.size);
    GrowSegs(head, y, s, g, s.topsize + g.size);
    GrowFences(head, y, s, g, s.topsize + g.size);
  }

  lemma RegionFacts(segs: seq<Segment>, g: Segment)
    requires FreshRegion(segs, g)
    ensures g.base > 0 && g.base % 8 == 0 && g.size >= 128 && g.size % 8 == 0 && g.base + g.size < SIZE_LIMIT
    ensures SegmentOk(g)
  {
  }

  lemma GrowFences(head: Heads, y: Layout, s: Spare, g: Segment, z: nat)
    requires FencesOk(head, y.chunks, y.pinned, y.segs) && LiveOk(head, y.chunks, y.live, y.pinned)
    requires |y.segs| > 0 && s.top in head && !head[s.top].cinuse
    ensures FencesOk(head[s.top := Head(z, true, false)], y.chunks, y.pinned, GrownSegs(y.segs, g.size))
  {
    hide TailPinned;
    var segs' := GrownSegs(y.segs, g.size);
    forall i | 1 <= i < |segs'|
      ensures FenceOk(head[s.top := Head(z, true, false)], y.chunks, y.pinned, Limit(segs', i) - 8)
    {
      assert FenceOk(head, y.chunks, y.pinned, Limit(y.segs, i) - 8);
      assert Limit(segs', i) == Limit(y.segs, i);
    }
  }

  // ---------------------------------------------- prepending to a segment

  function ExtendedSegs(segs: seq<Segment>, i: nat, g: Segment): seq<Segment>
    requires i < |segs|
  {
    segs[i := Segment(g.base, segs[i].size + g.size)]
  }

  /** A chunk and its successor lie in one segment. */
  lemma ChunkBounds(head: Heads, chunks: set<int>, ends: set<int>, top: int, segs: seq<Segment>, c: int) returns (i: nat)
    requires TileOk(head, chunks, ends) && SegsOk(head, chunks, ends, top, segs) && c in chunks
    ensures i < |segs| && segs[i].base <= c < Next(head, c) <= Limit(segs, i) < segs[i].base + segs[i].size
    ensures SegmentOk(segs[i])
  {
    hide BasesOk, HasSeg, IsLimit;
    InsideEmpty(head, chunks, ends, c);
    i := SegOfRun(head, chunks, ends, top, segs, c, Next(head, c));
    assert SegmentOk(segs[i]);
  }

  /** Chunks and ends are clear of a fresh region. */
  lemma ClearOfRegion(head: Heads, y: Layout, top: int, g: Segment)
    requires TileOk(head, y.chunks, y.ends) && SegsOk(head, y.chunks, y.ends, top, y.segs) && FreshRegion(y.segs, g)
    ensures forall c <- y.chunks :: Next(head, c) < g.base || g.base + g.size <= c
    ensures forall e <- y.ends :: e < g.base || g.base + g.size <= e
  {
    hide BasesOk, HasSeg, SegsApart, FreshRegion, SegmentOk;
    forall c <- y.chunks
      ensures Next(head, c) < g.base || g.base + g.size <= c
    {
      var i := ChunkBounds(head, y.chunks, y.ends, top, y.segs, c);
      RegionApart(y.segs, g, i);
    }
    forall e <- y.ends
      ensures e < g.base || g.base + g.size <= e
    {
      var i :| 0 <= i < |y.segs| && e == Limit(y.segs, i);
      RegionApart(y.segs, g, i);
      LimitInside(y.segs, i);
    }
  }

  lemma RegionApart(segs: seq<Segment>, g: Segment, i: nat)
    requires FreshRegion(segs, g) && i < |segs|
    ensures Apart(segs[i], g) && SegmentOk(g)
  {
  }

  lemma LimitInside(segs: seq<Segment>, i: nat)
    requires SegsApart(segs) && i < |segs|
    ensures segs[i].base < Limit(segs, i) < segs[i].base + segs[i].size && SegmentOk(segs[i])
  {
    assert SegmentOk(segs[i]);
  }

  lemma PrependTiles(head: Heads, foot: map<int, int>, chunks: set<int>, ends: set<int>, top: int, g: Segment, o: int)
    requires HeapTiles(head, foot, chunks, ends, top) && SegmentOk(g) && o == g.base + g.size && o in chunks
    requires o in head && head[o].pinuse
    requires forall c <- chunks :: Next(head, c) < g.base || o <= c
    requires forall e <- ends :: e < g.base || o <= e
    ensures HeapTiles(head[g.base := Head(g.size, true, true)], foot, chunks + {g.base}, ends, top)
  {
    hide TileOk, FlagsOk;
    GrowFacts(head, foot, chunks, ends, top);
    assert g.base !in chunks by { assert g.base in chunks ==> Next(head, g.base) > g.base; }
    PrependTile(head, chunks, ends, g, o);
    PrependFlags(head, foot, chunks, ends, top, g, o);
  }

  lemma PrependFlags(head: Heads, foot: map<int, int>, chunks: set<int>, ends: set<int>, top: int, g: Segment, o: int)
    requires FlagsOk(head, foot, chunks, ends, top) && SegmentOk(g) && o == g.base + g.size && o in chunks
    requires o in head && head[o].pinuse && g.base !in chunks
    requires forall c <- chunks :: c in head && Next(head, c) != g.base
    ensures FlagsOk(head[g.base := Head(g.size, true, true)], foot, chunks + {g.base}, ends, top)
  {
    var head' := head[g.base := Head(g.size, true, true)];
    forall c <- chunks
      ensures BorderOk(head', foot, chunks + {g.base}, c)
    {
      assert BorderOk(head, foot, chunks, c);
    }
    forall c <- chunks
      ensures BackOk(head', foot, chunks + {g.base}, c)
    {
      assert BackOk(head, foot, chunks, c);
    }
    assert BorderOk(head', foot, chunks + {g.base}, g.base) && BackOk(head', foot, chunks + {g.base}, g.base);
    hide BorderOk, BackOk;
  }

  lemma PrependTile(head: Heads, chunks: set<int>, ends: set<int>, g: Segment, o: int)
    requires TileOk(head, chunks, ends) && SegmentOk(g) && o == g.base + g.size && o in chunks && g.base !in chunks
    requires forall c <- chunks :: Next(head, c) < g.base || o <= c
    requires forall e <- ends :: e < g.base || o <= e
    ensures TileOk(head[g.base := Head(g.size, true, true)], chunks + {g.base}, ends)
  {
    var head' := head[g.base := Head(g.size, true, true)];
    forall c <- chunks
      ensures ChunkOk(head', c) && Next(head', c) == Next(head, c) && Next(head, c) > c
    {
      assert ChunkOk(head, c);
    }
    assert ChunkOk(head', g.base) && Next(head', g.base) == o;
    hide ChunkOk, Next;
    AddTile(head, chunks, ends, head', ends, g.base);
  }

  lemma PrependFree(head: Heads, y: Layout, s: Spare, loose: set<int>, x: int, n: nat)
    requires FreeOk(head, y.chunks, y.binned, s.dv, s.dvsize, s.top, s.topsize, loose) && x !in y.chunks && x > 0
    ensures FreeOk(head[x := Head(n, true, true)], y.chunks + {x}, y.binned, s.dv, s.dvsize, s.top, s.topsize, loose)
  {
  }

  lemma PrependLive(head: Heads, y: Layout, x: int, n: nat, req: nat)
    requires LiveOk(head, y.chunks, y.live, y.pinned) && x !in y.chunks && BinnableSize(n) && req + CHUNK_OVERHEAD <= n
    ensures LiveOk(head[x := Head(n, true, true)], y.chunks + {x}, y.live[x := req], y.pinned)
  {
  }

  lemma ExtendedLimit(segs: seq<Segment>, i: nat, g: Segment, j: nat)
    requires i < |segs| && j < |segs| && g.base + g.size == segs[i].base
    ensures Limit(ExtendedSegs(segs, i, g), j) == Limit(segs, j)
  {
  }

  lemma ExtendedHas(segs: seq<Segment>, i: nat, g: Segment, c: int)
    requires i < |segs| && g.base + g.size == segs[i].base && HasSeg(segs, c)
    ensures HasSeg(ExtendedSegs(segs, i, g), c)
  {
    var j := PickSeg(segs, c);
    ExtendedLimit(segs, i, g, j);
    assert InSeg(ExtendedSegs(segs, i, g), j, c);
  }

  lemma ExtendedIsLimit(segs: seq<Segment>, i: nat, g: Segment, e: int)
    requires i < |segs| && g.base + g.size == segs[i].base
    ensures IsLimit(ExtendedSegs(segs, i, g), e) <==> IsLimit(segs, e)
  {
    var segs' := ExtendedSegs(segs, i, g);
    forall j | 0 <= j < |segs|
      ensures Limit(segs', j) == Limit(segs, j)
    {
      ExtendedLimit(segs, i, g, j);
    }
    hide Limit;
    if IsLimit(segs, e) {
      var j :| 0 <= j < |segs| && e == Limit(segs, j);
      assert e == Limit(segs', j);
    }
    if IsLimit(segs', e) {
      var j :| 0 <= j < |segs'| && e == Limit(segs', j);
      assert e == Limit(segs, j);
    }
  }

  lemma SegPositive(g: Segment)
    requires SegmentOk(g)
    ensures g.size > 0
  {
  }

  lemma ExtendedSegment(h: Segment, g: Segment)
    requires SegmentOk(h) && SegmentOk(g) && g.base + g.size == h.base
    ensures SegmentOk(Segment(g.base, h.size + g.size))
  {
    hide InPieces;
    PiecesSum(h.size, g.size);
    EightSum(h.size, g.size);
  }

  lemma ExtendedApart(segs: seq<Segment>, i: nat, g: Segment)
    requires SegsApart(segs) && FreshRegion(segs, g) && i < |segs| && g.base + g.size == segs[i].base
    ensures SegsApart(ExtendedSegs(segs, i, g))
  {
    hide SegmentOk;
    var segs' := ExtendedSegs(segs, i, g);
    assert SegmentOk(segs[i]);
    ExtendedSegment(segs[i], g);
    forall j | 0 <= j < |segs| && j != i
      ensures Apart(segs'[j], segs'[i]) && SegmentOk(segs'[j])
    {
      assert Apart(segs[j], segs[i]) && Apart(segs[j], g) && SegmentOk(segs[j]);
      SegPositive(segs[j]);
    }
  }

  lemma PrependSegs(head: Heads, y: Layout, top: int, i: nat, g: Segment)
    requires SegsOk(head, y.chunks, y.ends, top, y.segs) && FreshRegion(y.segs, g) && i < |y.segs|
    requires g.base + g.size == y.segs[i].base && g.base !in y.chunks && top > 0
    ensures SegsOk(head[g.base := Head(g.size, true, true)], y.chunks + {g.base}, y.ends, top, ExtendedSegs(y.segs, i, g))
  {
    hide SegsApart, FreshRegion, IsLimit, HasSeg, BasesOk;
    var segs' := ExtendedSegs(y.segs, i, g);
    ExtendedApart(y.segs, i, g);
    RegionFacts(y.segs, g);
    forall e
      ensures IsLimit(segs', e) <==> IsLimit(y.segs, e)
    {
      ExtendedIsLimit(y.segs, i, g, e);
    }
    forall c <- y.chunks
      ensures HasSeg(segs', c)
    {
      ExtendedHas(y.segs, i, g, c);
    }
    LimitInside(y.segs, i);
    ExtendedLimit(y.segs, i, g, i);
    ExtendedLimit(y.segs, i, g, 0);
    InSegHas(segs', i, g.base);
    PrependBases(head, y, i, g);
  }

  lemma PrependBases(head: Heads, y: Layout, i: nat, g: Segment)
    requires BasesOk(head, y.chunks, y.segs) && i < |y.segs| && g.base !in y.chunks
    ensures BasesOk(head[g.base := Head(g.size, true, true)], y.chunks + {g.base}, ExtendedSegs(y.segs, i, g))
  {
    forall j | 0 <= j < |y.segs|
      ensures BaseOk(head[g.base := Head(g.size, true, true)], y.chunks + {g.base}, ExtendedSegs(y.segs, i, g)[j])
    {
      assert BaseOk(head, y.chunks, y.segs[j]);
    }
  }

  /** More chunks, which are pinned or far from the record. */
  lemma TailAndMore(chunks: set<int>, pinned: set<int>, f: int, ms: set<int>, pins: set<int>)
    requires TailPinned(chunks, pinned, f) && forall m <- ms :: m in pins || m < f - 80 || f < m
    ensures TailPinned(chunks + ms, pinned + pins, f)
    ensures pins == {} ==> TailPinned(chunks + ms, pinned, f)
  {
    var r :| TailFrom(chunks, pinned, f, r);
    assert TailFrom(chunks + ms, pinned + pins, f, r);
    assert pinned + {} == pinned;
  }

  lemma PrependFences(head: Heads, y: Layout, i: nat, g: Segment)
    requires FencesOk(head, y.chunks, y.pinned, y.segs) && i < |y.segs| && g.base !in y.chunks
    requires g.base + g.size == y.segs[i].base && FreshRegion(y.segs, g) && SegsApart(y.segs)
    ensures FencesOk(head[g.base := Head(g.size, true, true)], y.chunks + {g.base}, y.pinned, ExtendedSegs(y.segs, i, g))
  {
    hide TailPinned;
    forall j | 1 <= j < |y.segs|
      ensures FenceOk(head[g.base := Head(g.size, true, true)], y.chunks + {g.base}, y.pinned,
                      Limit(ExtendedSegs(y.segs, i, g), j) - 8)
    {
      ExtendedLimit(y.segs, i, g, j);
      assert FenceOk(head, y.chunks, y.pinned, Limit(y.segs, j) - 8);
      assert SegmentOk(y.segs[j]) && Apart(y.segs[j], g);
      TailAndMore(y.chunks, y.pinned, Limit(y.segs, j) - 8, {g.base}, {});
    }
  }

  lemma SegBase(head: Heads, chunks: set<int>, segs: seq<Segment>, i: nat)
    requires BasesOk(head, chunks, segs) && i < |segs|
    ensures segs[i].base in chunks && segs[i].base in head && head[segs[i].base].pinuse
  {
    assert BaseOk(head, chunks, segs[i]);
  }

  /** alloc_sys, prepend: the region in front of segment i joins it, as one block for now. */
  lemma PrependOk(head: Heads, foot: map<int, int>, s: Spare, y: Layout, loose: set<int>, i: nat, g: Segment, req: nat)
    requires HeapOk(head, foot, s, y, loose) && FreshRegion(y.segs, g) && i < |y.segs| && g.base + g.size == y.segs[i].base
    requires req + CHUNK_OVERHEAD <= g.size
    ensures g.base !in y.chunks && g.base > 0
    ensures HeapOk(head[g.base := Head(g.size, true, true)], foot, s,
                   y.(chunks := y.chunks + {g.base}, live := y.live[g.base := req], segs := ExtendedSegs(y.segs, i, g)), loose)
  {
    hide TileOk, FlagsOk, IsLimit, HasSeg, BasesOk, LiveOk, FencesOk, FreshRegion, SegsApart;
    ClearOfRegion(head, y, s.top, g);
    RegionFacts(y.segs, g);
    SegBase(head, y.chunks, y.segs, i);
    assert g.base !in y.chunks by {
      if g.base in y.chunks {
        Positive(head, y.chunks, y.ends, g.base);
      }
    }
    Positive(head, y.chunks, y.ends, s.top);
    PrependTiles(head, foot, y.chunks, y.ends, s.top, g, g.base + g.size);
    PrependFree(head, y, s, loose, g.base, g.size);
    PrependLive(head, y, g.base, g.size, req);
    PrependSegs(head, y, s.top, i, g);
    PrependFences(head, y, i, g);
  }

  /** The first chunk of a segment. */
  lemma FirstFacts(head: Heads, foot: map<int, int>, s: Spare, y: Layout, loose: set<int>, i: nat)
    requires HeapOk(head, foot, s, y, loose) && i < |y.segs|
    ensures var o := y.segs[i].base;
      && o in y.chunks && o in head && head[o].pinuse && o > 0 && head[o].size > 0
      && (o == s.top ==> !head[o].cinuse && Next(head, o) !in y.chunks)
      && (!head[o].cinuse && o != s.top ==>
            (BinnableSize(head[o].size) && (o == s.dv || o in y.binned || o in loose)
             && Next(head, o) in y.chunks && Next(head, o) in head && head[Next(head, o)].cinuse && !head[Next(head, o)].pinuse))
  {
    hide FencesOk, LiveOk;
    var o := y.segs[i].base;
    SegBase(head, y.chunks, y.segs, i);
    hide SegsOk;
    Positive(head, y.chunks, y.ends, o);
    TopEnds(head, foot, y.chunks, y.ends, s.top);
    if !head[o].cinuse && o != s.top {
      AfterFree(head, foot, y.chunks, y.ends, s.top, o);
    }
    hide HeapTiles;
  }

  /** No chunk lies in a fresh region. */
  lemma RegionEmpty(head: Heads, foot: map<int, int>, s: Spare, y: Layout, loose: set<int>, g: Segment)
    requires HeapOk(head, foot, s, y, loose) && FreshRegion(y.segs, g)
    ensures forall c <- y.chunks :: (c < g.base || g.base + g.size <= c) && c in head && c > 0
    ensures y.binned <= y.chunks && y.live.Keys <= y.chunks
  {
    ClearOfRegion(head, y, s.top, g);
    forall c <- y.chunks
      ensures (c < g.base || g.base + g.size <= c) && c in head && c > 0
    {
      Positive(head, y.chunks, y.ends, c);
    }
    hide SegsOk, FencesOk, HeapTiles;
  }

  /** The layout after prepending: block p in front, q behind it, up to z. */
  ghost function PrependLayout(y: Layout, i: nat, g: Segment, q: int, z: int, req: nat): (r: Layout)
    requires i < |y.segs|
    ensures r.live == y.live[g.base := req] && r.segs == ExtendedSegs(y.segs, i, g) && r.binned == y.binned
  {
    y.(chunks := y.chunks + {g.base} - Inside(y.chunks + {g.base}, g.base, z) + {q}, live := y.live[g.base := req],
       segs := ExtendedSegs(y.segs, i, g))
  }

  lemma PrependRun(head: Heads, foot: map<int, int>, s: Spare, y: Layout, loose: set<int>, free: set<int>, p: int, o: int, z: int)
    requires HeapOk(head, foot, s, y, loose) && p in y.live && Next(head, p) == o && o in y.chunks
    requires (z == o && free == {}) || (z == Next(head, o) && free == {o})
    ensures BlockRun(head, y, free, p, z)
  {
    hide SegsOk, FencesOk, FreeOk, FlagsOk;
    assert p in y.chunks;
    InsideEmpty(head, y.chunks, y.ends, p);
    InsideEmpty(head, y.chunks, y.ends, o);
    hide TileOk;
  }

  lemma TopPastRun(head: Heads, foot: map<int, int>, s: Spare, y: Layout, loose: set<int>, p: int, o: int, z: int)
    requires HeapOk(head, foot, s, y, loose) && p in y.chunks && Next(head, p) == o && o in y.chunks && o != s.top && p != s.top
    requires z == o || z == Next(head, o)
    ensures !(p <= s.top < z)
  {
    hide SegsOk, FencesOk, LiveOk;
    TopOutside(head, foot, y.chunks, y.ends, s.top, p, o);
    TopOutside(head, foot, y.chunks, y.ends, s.top, o, Next(head, o));
  }

  /** prepend_alloc where the segment starts with top: top grows downwards. */
  lemma PrependTop(head: Heads, foot: map<int, int>, s: Spare, y: Layout, i: nat, g: Segment, nb: nat, req: nat)
    requires HeapOk(head, foot, s, y, {}) && FreshRegion(y.segs, g) && i < |y.segs| && g.base + g.size == y.segs[i].base
    requires y.segs[i].base == s.top && nb % 8 == 0 && MIN_CHUNK_SIZE <= nb < g.size && req + CHUNK_OVERHEAD <= nb
    ensures g.base !in y.chunks && g.base > 0
    ensures var q, n := g.base + nb, s.topsize + (g.size - nb);
      HeapOk(head[g.base := Head(nb, true, true)][q := Head(n, true, false)], foot, s.(top := q, topsize := n),
             PrependLayout(y, i, g, q, s.top + s.topsize, req), {})
  {
    hide HeapOk, FreshRegion, BlockRun, SegsOk;
    PrependOk(head, foot, s, y, {}, i, g, req);
    FirstFacts(head, foot, s, y, {}, i);
    DvFacts(head, foot, s, y, {});
    var h := head[g.base := Head(g.size, true, true)];
    var y1 := y.(chunks := y.chunks + {g.base}, live := y.live[g.base := req], segs := ExtendedSegs(y.segs, i, g));
    var z := s.top + s.topsize;
    PrependRun(h, foot, s, y1, {}, {s.top}, g.base, s.top, z);
    CutBlockTopOk(h, foot, s, y1, g.base, g.base + nb, z, req);
    assert h[g.base := Head(nb, true, true)] == head[g.base := Head(nb, true, true)];
    assert y1.live[g.base := req] == y.live[g.base := req];
    assert y1.(live := y.live[g.base := req]) == y1;
  }

  /** prepend_alloc otherwise: the rest of the region is left loose, together with
      the first chunk of the segment if that was loose. */
  lemma PrependRest(head: Heads, foot: map<int, int>, s: Spare, y: Layout, loose: set<int>, i: nat, g: Segment, nb: nat,
                    req: nat, z: int)
    requires HeapOk(head, foot, s, y, loose) && FreshRegion(y.segs, g) && i < |y.segs| && g.base + g.size == y.segs[i].base
    requires y.segs[i].base != s.top && nb % 8 == 0 && MIN_CHUNK_SIZE <= nb && nb + MIN_CHUNK_SIZE <= g.size
    requires req + CHUNK_OVERHEAD <= nb && z in y.chunks && z in head && head[z].cinuse
    requires (z == y.segs[i].base && loose == {}) || (z == Next(head, y.segs[i].base) && loose == {y.segs[i].base})
    ensures g.base !in y.chunks && g.base > 0 && g.base + nb < z
    ensures HeapOk(SetPinuse(head[g.base := Head(nb, true, true)][g.base + nb := Head(z - (g.base + nb), true, false)], z, false),
                   foot[z := z - (g.base + nb)], s, PrependLayout(y, i, g, g.base + nb, z, req), {g.base + nb})
  {
    hide HeapOk, FreshRegion, BlockRun, SegsOk, SetPinuse;
    PrependOk(head, foot, s, y, loose, i, g, req);
    FirstFacts(head, foot, s, y, loose, i);
    var o, q := y.segs[i].base, g.base + nb;
    var h := head[g.base := Head(g.size, true, true)];
    var y1 := y.(chunks := y.chunks + {g.base}, live := y.live[g.base := req], segs := ExtendedSegs(y.segs, i, g));
    PrependRun(h, foot, s, y1, loose, loose, g.base, o, z);
    DvFacts(head, foot, s, y, loose);
    TopPastRun(h, foot, s, y1, loose, g.base, o, z);
    CutBlockOk(h, foot, s, y1, loose, g.base, q, z, req);
    assert h[g.base := Head(nb, true, true)] == head[g.base := Head(nb, true, true)];
    assert y1.live[g.base := req] == y.live[g.base := req];
    assert y1.(live := y.live[g.base := req]) == y1;
  }

  /** prepend_alloc where the segment starts with dv. */
  lemma PrependDv(head: Heads, foot: map<int, int>, s: Spare, y: Layout, i: nat, g: Segment, nb: nat, req: nat)
    requires HeapOk(head, foot, s, y, {}) && FreshRegion(y.segs, g) && i < |y.segs| && g.base + g.size == y.segs[i].base
    requires y.segs[i].base == s.dv != s.top && nb % 8 == 0 && MIN_CHUNK_SIZE <= nb && nb + MIN_CHUNK_SIZE <= g.size
    requires req + CHUNK_OVERHEAD <= nb
    ensures g.base !in y.chunks && g.base > 0 && g.base + nb !in y.chunks && y.binned <= y.chunks
    ensures forall c <- y.chunks :: c in head
    ensures var q, n := g.base + nb, s.dvsize + (g.size - nb);
      HeapOk(head[g.base := Head(nb, true, true)][q := Head(n, true, false)], foot[q + n := n], s.(dv := q, dvsize := n),
             PrependLayout(y, i, g, q, s.dv + s.dvsize, req), {})
  {
    hide HeapOk, FreshRegion, SegsOk, PrependLayout;
    var q, z := g.base + nb, s.dv + s.dvsize;
    FirstFacts(head, foot, s, y, {}, i);
    RegionEmpty(head, foot, s, y, {}, g);
    DvFacts(head, foot, s, y, {});
    DvLoose(head, foot, s, y, {});
    assert {} + {s.dv} == {s.dv};
    var s0 := s.(dv := 0, dvsize := 0);
    PrependRest(head, foot, s0, y, {s.dv}, i, g, nb, req, z);
    var h := head[g.base := Head(nb, true, true)][q := Head(z - q, true, false)];
    SamePinuse(h, z, false);
    NewDv(h, foot[z := z - q], s0, PrependLayout(y, i, g, q, z, req), q);
  }
}
