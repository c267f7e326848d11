// add_segment: the old top chunk is retired. Its segment gets a pinned chunk for
// the segment record and a row of fenceposts, and the new region supplies top
// (luajit/src/lj_alloc.c).

module AllocSegment {
  import opened AllocSizes
  import opened AllocRing
  import opened AllocTile
  import opened AllocState
  import opened AllocRegion

  /** pad_request(sizeof(struct malloc_segment)) */
  const RECORD_SIZE := 32

  /** Addresses of the fenceposts from f up to e. */
  function FenceSet(f: int, e: int): set<int> { set x | f <= x < e && FenceStop(f, x) }

  predicate FenceStop(f: int, x: int) { (x - f) % 8 == 0 }

  function Fences(f: int, e: int): Heads { map x | x in FenceSet(f, e) :: Head(8, true, true) }

  /** segment_holds */
  predicate Holds(g: Segment, a: int) { g.base <= a < g.base + g.size }

  /** top lies in the current segment and in no other. */
  lemma OnlyFirstHolds(head: Heads, y: Layout, top: int, i: nat)
    requires SegsOk(head, y.chunks, y.ends, top, y.segs) && i < |y.segs|
    ensures Holds(y.segs[i], top) <==> i == 0
  {
    assert InSeg(y.segs, 0, top) && SegmentOk(y.segs[0]) && (i != 0 ==> Apart(y.segs[0], y.segs[i]));
  }

  /** align_offset */
  function AlignOffset(a: int): int { if a % 8 == 0 then 0 else (8 - a % 8) % 8 }

  /** Where the segment record goes: behind top, or in its place if top is too small. */
  function RecordAt(top: int, topsize: nat): int { if topsize < MIN_CHUNK_SIZE then top else top + topsize }

  /** The heads once top is retired; e is where the last fencepost ends. */
  function RetiredHead(head: Heads, top: int, sp: int, e: int): Heads
    requires top <= sp
  {
    (if sp == top then head[sp := Head(RECORD_SIZE, true, true)]
     else head[top := Head(sp - top, true, false)][sp := Head(RECORD_SIZE, false, true)]) + Fences(sp + RECORD_SIZE, e)
  }

  function RetiredFoot(foot: map<int, int>, top: int, sp: int): map<int, int> {
    if sp == top then foot else foot[sp := sp - top]
  }

  /** The chunks that come into being behind top. */
  function RetiredSet(top: int, sp: int, e: int): set<int> { {sp} - {top} + FenceSet(sp + RECORD_SIZE, e) }

  function EndOfOld(segs: seq<Segment>): int
    requires |segs| > 0
  {
    segs[0].base + segs[0].size - CHUNK_OVERHEAD
  }

  // -------------------------------------------------------------- old segment

  /** Other segments lie behind the whole of the current one. */
  lemma OtherSegs(segs: seq<Segment>, i: nat)
    requires SegsApart(segs) && 1 <= i < |segs| && Limit(segs, i) >= segs[0].base
    ensures segs[i].base >= segs[0].base + segs[0].size && Limit(segs, i) > segs[0].base + segs[0].size
  {
    assert SegmentOk(segs[i]) && SegmentOk(segs[0]) && Apart(segs[0], segs[i]);
  }

  lemma BehindOld(head: Heads, foot: map<int, int>, s: Spare, y: Layout)
    requires HeapTiles(head, foot, y.chunks, y.ends, s.top) && SegsOk(head, y.chunks, y.ends, s.top, y.segs)
    ensures |y.segs| > 0 && Next(head, s.top) == Limit(y.segs, 0)
    ensures forall c <- y.chunks :: c > s.top ==> c >= y.segs[0].base + y.segs[0].size
    ensures forall e <- y.ends :: e > s.top && e != Limit(y.segs, 0) ==> e > y.segs[0].base + y.segs[0].size
  {
    hide BasesOk, FlagsOk, SegsApart, HasSeg, IsLimit, TileOk;
    TopLimit(head, foot, s, y);
    NoneInside(head, y.chunks, y.ends, s.top);
    forall c <- y.chunks | c > s.top
      ensures c >= y.segs[0].base + y.segs[0].size
    {
      var i := PickSeg(y.segs, c);
      if i > 0 {
        OtherSegs(y.segs, i);
      }
    }
    forall e <- y.ends | e > s.top && e != Limit(y.segs, 0)
      ensures e > y.segs[0].base + y.segs[0].size
    {
      var i := PickLimit(y.segs, e);
      OtherSegs(y.segs, i);
    }
  }

  lemma PickLimit(segs: seq<Segment>, e: int) returns (i: nat)
    requires IsLimit(segs, e)
    ensures i < |segs| && e == Limit(segs, i)
  {
    i :| 0 <= i < |segs| && e == Limit(segs, i);
  }

  lemma SameSizes(head: Heads, chunks: set<int>, ends: set<int>, head': Heads)
    requires TileOk(head, chunks, ends) && forall c <- chunks :: c in head' && c in head && head'[c].size == head[c].size
    ensures TileOk(head', chunks, ends)
  {
    forall c <- chunks
      ensures Next(head', c) == Next(head, c) && ChunkOk(head', c)
    {
      assert ChunkOk(head, c);
    }
    hide ChunkOk, Next;
  }

  /** A chunk is cut into fenceposts. */
  lemma {:induction false} SplitFences(head: Heads, chunks: set<int>, ends: set<int>, head': Heads, f: int, e: int)
    requires TileOk(head, chunks, ends) && f in chunks && Next(head, f) == e && f < e && (e - f) % 8 == 0
    requires forall c <- chunks :: c != f ==> c in head && c in head' && head'[c].size == head[c].size
    requires forall x <- FenceSet(f, e) :: x in head' && head'[x].size == 8
    ensures TileOk(head', chunks + FenceSet(f, e), ends)
    decreases e - f
  {
    hide FenceSet;
    InsideEmpty(head, chunks, ends, f);
    hide TileOk, ChunkOk;
    if e - f == 8 {
      FenceOne(f);
      assert chunks + {f} == chunks;
      SameSizes(head, chunks, ends, head');
    } else {
      var m := f + 8;
      var h := head[f := Head(8, true, true)][m := Head(e - m, true, true)];
      FenceStep(f, e);
      SplitOne(head, chunks, ends, h, f, m, e);
      assert Next(h, m) == e;
      SplitFences(h, chunks + {m}, ends, head', m, e);
      assert chunks + {m} + FenceSet(m, e) == chunks + FenceSet(f, e);
    }
  }

  lemma FenceOne(f: int)
    ensures FenceSet(f, f + 8) == {f}
  {
  }

  lemma FenceStep(f: int, e: int)
    requires f + 8 < e && (e - f) % 8 == 0
    ensures FenceSet(f, e) == {f} + FenceSet(f + 8, e)
    ensures f + 8 in FenceSet(f + 8, e)
  {
  }

  /** Cuts top into a rest (unless it is too small), the record and the space for fenceposts. */
  lemma RecordTiles(head: Heads, chunks: set<int>, ends: set<int>, top: int, sp: int, f: int, e: int) returns (h: Heads)
    requires TileOk(head, chunks, ends) && top in chunks && e == Next(head, top)
    requires top <= sp < f < e && (sp - top) % 8 == 0 && (f - sp) % 8 == 0
    ensures TileOk(h, chunks + {sp} + {f}, ends) && Next(h, f) == e
    ensures f in h && sp in h && h[sp].size == f - sp && (sp != top ==> top in h && h[top].size == sp - top)
    ensures forall c <- chunks :: c != top && c != sp && c != f ==> c in head && c in h && h[c] == head[c]
    ensures sp != top ==> sp !in chunks
    ensures forall x :: sp < x < e ==> x !in chunks
  {
    InsideEmpty(head, chunks, ends, top);
    SizesKnown(head, chunks, ends);
    hide TileOk;
    var h1 := head[top := Head(sp - top, true, true)][sp := Head(e - sp, true, true)];
    if sp == top {
      SameSizes(head, chunks, ends, h1);
      assert chunks + {sp} == chunks;
    } else {
      SplitOne(head, chunks, ends, h1, top, sp, e);
    }
    h := h1[sp := Head(f - sp, true, true)][f := Head(e - f, true, true)];
    SplitOne(h1, chunks + {sp}, ends, h, sp, f, e);
  }

  lemma RetireTiles(head: Heads, chunks: set<int>, ends: set<int>, top: int, sp: int, e: int)
    requires TileOk(head, chunks, ends) && top in chunks && e == Next(head, top)
    requires top <= sp && (sp - top) % 8 == 0 && sp + RECORD_SIZE < e && (e - sp) % 8 == 0
    ensures TileOk(RetiredHead(head, top, sp, e), chunks + RetiredSet(top, sp, e), ends)
    ensures chunks !! RetiredSet(top, sp, e)
  {
    hide TileOk, Next;
    var f := sp + RECORD_SIZE;
    var h := RecordTiles(head, chunks, ends, top, sp, f, e);
    assert f in FenceSet(f, e);
    SplitFences(h, chunks + {sp} + {f}, ends, RetiredHead(head, top, sp, e), f, e);
    RetiredSum(chunks, top, sp, f, e);
  }

  lemma RetiredSum(chunks: set<int>, top: int, sp: int, f: int, e: int)
    requires top in chunks && f in FenceSet(f, e) && f == sp + RECORD_SIZE
    ensures chunks + {sp} + {f} + FenceSet(f, e) == chunks + RetiredSet(top, sp, e)
  {
  }

  lemma SizesKnown(head: Heads, chunks: set<int>, ends: set<int>)
    requires TileOk(head, chunks, ends)
    ensures forall c <- chunks :: c in head && head[c].size > 0 && c > 0 && c % 8 == 0
  {
    forall c <- chunks
      ensures c in head && head[c].size > 0 && c > 0 && c % 8 == 0
    {
      assert ChunkOk(head, c);
    }
  }

  // ------------------------------------------------------------------- tags

  ghost predicate TagsOk(head: Heads, foot: map<int, int>, chunks: set<int>) {
    && (forall c <- chunks :: BorderOk(head, foot, chunks, c))
    && (forall c <- chunks :: BackOk(head, foot, chunks, c))
  }

  ghost predicate NoFreeEnd(head: Heads, chunks: set<int>, ends: set<int>) {
    forall c <- chunks :: c in head && !head[c].cinuse ==> Next(head, c) !in ends
  }

  /** What is new behind top: in use, and each reaches the next one or the end. */
  lemma RetiredFacts(head: Heads, top: int, sp: int, e: int, c: int)
    requires top <= sp && sp + RECORD_SIZE < e && (e - sp) % 8 == 0
    requires c in RetiredSet(top, sp, e) || (c == sp == top)
    ensures var h := RetiredHead(head, top, sp, e);
      && top <= c < e && c in h && h[c].cinuse && (h[c].pinuse || (c == sp && sp != top))
      && (Next(h, c) == e || (Next(h, c) in FenceSet(sp + RECORD_SIZE, e) && Next(h, c) in h && h[Next(h, c)].pinuse))
  {
    var f := sp + RECORD_SIZE;
    if c in FenceSet(f, e) {
      assert FenceStop(f, c) && (FenceStop(f, c + 8) || c + 8 == e);
      assert c + 8 < e ==> c + 8 in FenceSet(f, e);
    } else {
      assert FenceStop(f, f) && f in FenceSet(f, e);
    }
  }

  lemma RetiredElse(head: Heads, top: int, sp: int, e: int, c: int)
    requires top <= sp && c != top && c !in RetiredSet(top, sp, e)
    ensures var h := RetiredHead(head, top, sp, e); (c in h <==> c in head) && (c in h ==> h[c] == head[c])
  {
  }

  lemma RetiredTop(head: Heads, top: int, sp: int, e: int)
    requires top < sp
    ensures var h := RetiredHead(head, top, sp, e);
      top in h && h[top] == Head(sp - top, true, false) && sp in h && h[sp] == Head(RECORD_SIZE, false, true)
  {
  }

  lemma RetiredRewritten(head: Heads, foot: map<int, int>, chunks: set<int>, ends: set<int>, top: int, sp: int, e: int)
    requires HeapTiles(head, foot, chunks, ends, top) && e == Next(head, top) && top in head
    requires top <= sp && (sp - top) % 8 == 0 && sp + RECORD_SIZE < e && (e - sp) % 8 == 0
    ensures Rewritten(head, foot, chunks, RetiredHead(head, top, sp, e), RetiredFoot(foot, top, sp),
                      chunks + RetiredSet(top, sp, e), top, e, RetiredSet(top, sp, e))
    ensures Run(head, chunks, top, e) && e !in chunks
  {
    hide HeapTiles, TileOk, FlagsOk, RetiredHead, RetiredFoot, RetiredSet, FenceSet;
    GrowFacts(head, foot, chunks, ends, top);
    RunFromTop(head, foot, chunks, ends, top);
    forall m <- RetiredSet(top, sp, e)
      ensures top < m < e
    {
      RetiredFacts(head, top, sp, e, m);
      RetiredRange(top, sp, e, m);
    }
    forall c <- chunks | c != top && c != e && c !in RetiredSet(top, sp, e)
      ensures c in head && c in RetiredHead(head, top, sp, e) && RetiredHead(head, top, sp, e)[c] == head[c]
    {
      RetiredElse(head, top, sp, e, c);
    }
    RetiredFootElse(foot, top, sp, e);
    if sp == top {
      RetiredFacts(head, top, sp, e, top);
    } else {
      RetiredTop(head, top, sp, e);
    }
  }

  lemma RetiredRange(top: int, sp: int, e: int, m: int)
    requires m in RetiredSet(top, sp, e) && top <= sp
    ensures top < m
  {
  }

  lemma RetiredFootElse(foot: map<int, int>, top: int, sp: int, e: int)
    requires top <= sp
    ensures forall n :: n !in RetiredSet(top, sp, e) ==> Rd(RetiredFoot(foot, top, sp), n) == Rd(foot, n)
  {
  }

  lemma RunFromTop(head: Heads, foot: map<int, int>, chunks: set<int>, ends: set<int>, top: int)
    requires HeapTiles(head, foot, chunks, ends, top)
    ensures Run(head, chunks, top, Next(head, top)) && Inside(chunks, top, Next(head, top)) == {}
  {
    InsideEmpty(head, chunks, ends, top);
  }

  /** Borders and back references at the new chunks. */
  lemma RetiredNewTags(head: Heads, foot: map<int, int>, chunks: set<int>, top: int, sp: int, e: int, c: int)
    requires top <= sp && sp + RECORD_SIZE < e && (e - sp) % 8 == 0 && top in chunks && e !in chunks
    requires c in RetiredSet(top, sp, e) || c == top
    ensures var h, f, cs := RetiredHead(head, top, sp, e), RetiredFoot(foot, top, sp), chunks + RetiredSet(top, sp, e);
      BorderOk(h, f, cs, c) && (c != top ==> BackOk(h, f, cs, c)) && (c in h && !h[c].cinuse ==> Next(h, c) == sp)
  {
    hide RetiredHead, FenceSet;
    if c == top && sp != top {
      RetiredTop(head, top, sp, e);
    } else {
      RetiredFacts(head, top, sp, e, c);
      if sp != top {
        RetiredTop(head, top, sp, e);
      }
      EndNotFence(sp + RECORD_SIZE, e);
    }
  }

  lemma EndNotFence(f: int, e: int)
    ensures e !in FenceSet(f, e)
  {
  }

  lemma RetireTags(head: Heads, foot: map<int, int>, chunks: set<int>, ends: set<int>, top: int, sp: int, e: int)
    requires HeapTiles(head, foot, chunks, ends, top) && e == Next(head, top) && top in head
    requires top <= sp && (sp - top) % 8 == 0 && sp + RECORD_SIZE < e && (e - sp) % 8 == 0 && sp !in ends
    ensures var h, cs := RetiredHead(head, top, sp, e), chunks + RetiredSet(top, sp, e);
      TagsOk(h, RetiredFoot(foot, top, sp), cs) && NoFreeEnd(h, cs, ends)
  {
    hide FlagsOk, TileOk, RetiredHead, RetiredFoot, RetiredSet, Run, BorderOk, BackOk, Rewritten;
    var h, foot', ms := RetiredHead(head, top, sp, e), RetiredFoot(foot, top, sp), RetiredSet(top, sp, e);
    RetiredRewritten(head, foot, chunks, ends, top, sp, e);
    GrowFacts(head, foot, chunks, ends, top);
    NoneInside(head, chunks, ends, top);
    assert top !in ms by {
      if top in ms {
        RetiredRange(top, sp, e, top);
      }
    }
    forall c <- chunks + ms
      ensures BorderOk(h, foot', chunks + ms, c) && BackOk(h, foot', chunks + ms, c)
      ensures c in h && !h[c].cinuse ==> Next(h, c) !in ends
    {
      if c in ms || c == top {
        RetiredNewTags(head, foot, chunks, top, sp, e, c);
      } else {
        KeepBorder(head, foot, chunks, ends, top, h, foot', chunks + ms, top, e, ms, c);
        RetiredElse(head, top, sp, e, c);
        if !head[c].cinuse {
          FreeNotEnd(head, foot, chunks, ends, top, c);
        }
      }
      if c !in ms {
        KeepBack(head, foot, chunks, ends, top, h, foot', chunks + ms, top, e, ms, c);
      }
    }
  }

  lemma FreeNotEnd(head: Heads, foot: map<int, int>, chunks: set<int>, ends: set<int>, top: int, c: int)
    requires FlagsOk(head, foot, chunks, ends, top) && c in chunks && c != top && c in head && !head[c].cinuse
    ensures Next(head, c) !in ends
  {
  }

  // ---------------------------------------------------------------- new top

  lemma NewTopTile(head: Heads, chunks: set<int>, ends: set<int>, nt: int, n: nat, z: int)
    requires TileOk(head, chunks, ends) && nt > 0 && nt % 8 == 0 && n > 0 && n % 8 == 0 && nt + n < z && nt !in chunks
    requires forall c <- chunks :: Next(head, c) < nt || z <= c
    requires forall e <- ends :: e < nt || z <= e
    ensures TileOk(head[nt := Head(n, true, false)], chunks + {nt}, ends + {nt + n})
  {
    var head' := head[nt := Head(n, true, false)];
    forall c <- chunks
      ensures ChunkOk(head', c) && Next(head', c) == Next(head, c) && Next(head, c) > c
    {
      assert ChunkOk(head, c);
    }
    assert ChunkOk(head', nt) && Next(head', nt) == nt + n;
    hide ChunkOk, Next;
    AddTile(head, chunks, ends, head', ends + {nt + n}, nt);
  }

  lemma NewTopFlags(head: Heads, foot: map<int, int>, chunks: set<int>, ends: set<int>, nt: int, n: nat)
    requires TagsOk(head, foot, chunks) && NoFreeEnd(head, chunks, ends) && nt !in chunks && n > 0 && nt + n !in chunks
    requires forall c <- chunks :: c in head && Next(head, c) != nt && Next(head, c) != nt + n
    ensures FlagsOk(head[nt := Head(n, true, false)], foot, chunks + {nt}, ends + {nt + n}, nt)
  {
    var head' := head[nt := Head(n, true, false)];
    forall c <- chunks
      ensures BorderOk(head', foot, chunks + {nt}, c)
    {
      assert BorderOk(head, foot, chunks, c);
    }
    forall c <- chunks
      ensures BackOk(head', foot, chunks + {nt}, c)
    {
      assert BackOk(head, foot, chunks, c);
    }
    assert BorderOk(head', foot, chunks + {nt}, nt) && BackOk(head', foot, chunks + {nt}, nt);
    hide BorderOk, BackOk;
  }

  lemma NewTopTiles(head: Heads, foot: map<int, int>, chunks: set<int>, ends: set<int>, nt: int, n: nat, z: int)
    requires TileOk(head, chunks, ends) && TagsOk(head, foot, chunks) && NoFreeEnd(head, chunks, ends)
    requires nt > 0 && nt % 8 == 0 && n > 0 && n % 8 == 0 && nt + n < z
    requires forall c <- chunks :: Next(head, c) < nt || z <= c
    requires forall e <- ends :: e < nt || z <= e
    ensures HeapTiles(head[nt := Head(n, true, false)], foot, chunks + {nt}, ends + {nt + n}, nt)
    ensures nt !in chunks
  {
    forall c <- chunks
      ensures c in head && Next(head, c) > c && c != nt && c != nt + n
    {
      assert ChunkOk(head, c);
    }
    hide TileOk, FlagsOk, Next;
    NewTopTile(head, chunks, ends, nt, n, z);
    NewTopFlags(head, foot, chunks, ends, nt, n);
  }

  // ----------------------------------------------------- bookkeeping of the heap

  function RetiredEnds(segs: seq<Segment>, ends: set<int>, g: Segment): set<int>
    requires |segs| > 0
  {
    ends - {Limit(segs, 0)} + {EndOfOld(segs)} + {g.base + g.size - TOP_FOOT_SIZE}
  }

  function RetiredLoose(top: int, sp: int): set<int> { if sp == top then {} else {top} }

  lemma RetireFree(head: Heads, y: Layout, s: Spare, sp: int, e: int, nt: int, n: nat)
    requires FreeOk(head, y.chunks, y.binned, s.dv, s.dvsize, s.top, s.topsize, {}) && sp == RecordAt(s.top, s.topsize)
    requires y.chunks !! RetiredSet(s.top, sp, e) && nt !in y.chunks + RetiredSet(s.top, sp, e) && nt > 0
    requires sp + RECORD_SIZE < e && (e - sp) % 8 == 0 && s.topsize % 8 == 0 && s.top > 0 && n < SIZE_LIMIT
    ensures FreeOk(RetiredHead(head, s.top, sp, e)[nt := Head(n, true, false)],
                   y.chunks + RetiredSet(s.top, sp, e) + {nt}, y.binned, s.dv, s.dvsize, nt, n, RetiredLoose(s.top, sp))
  {
    hide RetiredHead, RetiredSet;
    var h := RetiredHead(head, s.top, sp, e);
    forall c <- y.chunks + RetiredSet(s.top, sp, e)
      ensures c in h
      ensures c in y.chunks && c != s.top ==> h[c] == head[c]
      ensures c !in y.chunks ==> h[c].cinuse && c > 0
      ensures c == s.top ==> if sp == s.top then h[c].cinuse else h[c] == Head(s.topsize, true, false)
    {
      RetiredWhich(head, y.chunks, s.top, sp, e, c);
    }
  }

  lemma RetiredWhich(head: Heads, chunks: set<int>, top: int, sp: int, e: int, c: int)
    requires c in chunks + RetiredSet(top, sp, e) && chunks !! RetiredSet(top, sp, e)
    requires top in chunks && forall d <- chunks :: d in head
    requires 0 < top <= sp && sp + RECORD_SIZE < e && (e - sp) % 8 == 0
    ensures var h := RetiredHead(head, top, sp, e);
      && c in h
      && (c in chunks && c != top ==> h[c] == head[c])
      && (c !in chunks ==> h[c].cinuse && c > 0 && c in RetiredSet(top, sp, e))
      && (c == top ==> if sp == top then h[c].cinuse else h[c] == Head(sp - top, true, false))
  {
    hide RetiredHead, RetiredSet;
    if c in RetiredSet(top, sp, e) {
      RetiredFacts(head, top, sp, e, c);
    } else if c == top {
      if sp == top {
        RetiredFacts(head, top, sp, e, c);
      } else {
        RetiredTop(head, top, sp, e);
      }
    } else {
      RetiredElse(head, top, sp, e, c);
    }
  }

  function RetiredPins(sp: int, e: int): set<int> { {sp} + FenceSet(sp + RECORD_SIZE, e) }

  lemma PinsIn(top: int, sp: int, e: int, c: int)
    ensures c in RetiredPins(sp, e) <==> c in RetiredSet(top, sp, e) || c == sp
    ensures top <= sp && c == top && c in RetiredPins(sp, e) ==> sp == top
  {
  }

  lemma RetireLive(head: Heads, y: Layout, top: int, sp: int, e: int, nt: int, n: nat)
    requires LiveOk(head, y.chunks, y.live, y.pinned) && top in y.chunks && top in head && !head[top].cinuse
    requires y.chunks !! RetiredSet(top, sp, e) && nt !in y.chunks + RetiredSet(top, sp, e)
    requires 0 < top <= sp && sp + RECORD_SIZE < e && (e - sp) % 8 == 0
    ensures LiveOk(RetiredHead(head, top, sp, e)[nt := Head(n, true, false)],
                   y.chunks + RetiredSet(top, sp, e) + {nt}, y.live, y.pinned + RetiredPins(sp, e))
  {
    hide RetiredHead, RetiredSet, RetiredPins, BinnableSize;
    var h := RetiredHead(head, top, sp, e);
    RecordIn(top, sp, e);
    forall c
      ensures c in RetiredPins(sp, e) <==> c in RetiredSet(top, sp, e) || c == sp
      ensures c == top && c in RetiredPins(sp, e) ==> sp == top
    {
      PinsIn(top, sp, e, c);
    }
    forall c <- y.chunks + RetiredSet(top, sp, e)
      ensures c in h
      ensures c in y.chunks && c != top ==> h[c] == head[c]
      ensures c !in y.chunks ==> h[c].cinuse && c in RetiredSet(top, sp, e)
      ensures c == top ==> if sp == top then h[c].cinuse else !h[c].cinuse
    {
      RetiredWhich(head, y.chunks, top, sp, e, c);
    }
  }

  lemma RecordIn(top: int, sp: int, e: int)
    ensures sp == top || sp in RetiredSet(top, sp, e)
  {
  }

  // ---------------------------------------------------------------- segments

  function PushedSegs(segs: seq<Segment>, g: Segment): seq<Segment> { [g] + segs }

  lemma PushedApart(segs: seq<Segment>, g: Segment)
    requires SegsApart(segs) && FreshRegion(segs, g)
    ensures SegsApart(PushedSegs(segs, g))
  {
    var segs' := PushedSegs(segs, g);
    forall i, j | 0 <= i < |segs'| && 0 <= j < |segs'| && i != j
      ensures Apart(segs'[i], segs'[j]) && SegmentOk(segs'[i])
    {
      assert i > 0 ==> SegmentOk(segs[i - 1]) && Apart(segs[i - 1], g);
      assert j > 0 ==> Apart(segs[j - 1], g);
    }
  }

  lemma PushedLimits(segs: seq<Segment>, g: Segment)
    requires |segs| > 0
    ensures Limit(PushedSegs(segs, g), 0) == g.base + g.size - TOP_FOOT_SIZE
    ensures Limit(PushedSegs(segs, g), 1) == EndOfOld(segs)
    ensures forall i :: 1 <= i < |segs| ==> Limit(PushedSegs(segs, g), i + 1) == Limit(segs, i)
  {
  }

  lemma LimitsDiffer(segs: seq<Segment>, i: nat)
    requires SegsApart(segs) && 1 <= i < |segs|
    ensures Limit(segs, i) != Limit(segs, 0)
  {
    assert Apart(segs[0], segs[i]) && SegmentOk(segs[0]) && SegmentOk(segs[i]);
  }

  lemma PushedEnds(segs: seq<Segment>, ends: set<int>, g: Segment, e: int)
    requires SegsApart(segs) && |segs| > 0 && (e in ends <==> IsLimit(segs, e))
    ensures e in RetiredEnds(segs, ends, g) <==> IsLimit(PushedSegs(segs, g), e)
  {
    var segs' := PushedSegs(segs, g);
    PushedLimits(segs, g);
    hide Limit, SegsApart;
    if IsLimit(segs', e) {
      var i := PickLimit(segs', e);
      if i >= 2 {
        assert e == Limit(segs, i - 1);
        LimitIsLimit(segs, i - 1);
        LimitsDiffer(segs, i - 1);
      }
    }
    if e in RetiredEnds(segs, ends, g) {
      LimitIsLimit(segs', 0);
      LimitIsLimit(segs', 1);
      if e in ends && e != Limit(segs, 0) {
        var i := PickLimit(segs, e);
        LimitIsLimit(segs', i + 1);
      }
    }
  }

  lemma PushedHas(segs: seq<Segment>, g: Segment, c: int)
    requires HasSeg(segs, c)
    ensures HasSeg(PushedSegs(segs, g), c)
  {
    var i := PickSeg(segs, c);
    var segs' := PushedSegs(segs, g);
    PushedLimits(segs, g);
    assert InSeg(segs', i + 1, c);
  }

  lemma PushedBases(head: Heads, chunks: set<int>, segs: seq<Segment>, g: Segment, head': Heads, chunks': set<int>)
    requires BasesOk(head, chunks, segs) && chunks <= chunks' && g.base in chunks' && g.base in head' && head'[g.base].pinuse
    requires forall c <- chunks :: c in head && c in head' && (head[c].pinuse ==> head'[c].pinuse)
    ensures BasesOk(head', chunks', PushedSegs(segs, g))
  {
    var segs' := PushedSegs(segs, g);
    forall i | 0 <= i < |segs'|
      ensures BaseOk(head', chunks', segs'[i])
    {
      assert i > 0 ==> BaseOk(head, chunks, segs[i - 1]);
    }
  }

  lemma PushedFences(head: Heads, y: Layout, g: Segment, head': Heads, chunks': set<int>, pins: set<int>)
    requires FencesOk(head, y.chunks, y.pinned, y.segs) && |y.segs| > 0 && SegsApart(y.segs) && FreshRegion(y.segs, g)
    requires y.chunks <= chunks' && forall m <- chunks' :: m in y.chunks || m in pins || m == g.base
    requires forall c <- y.pinned :: c in y.chunks && c in head && c in head' && head'[c].size == head[c].size
    requires FenceOk(head', chunks', pins, EndOfOld(y.segs) - 8)
    ensures FencesOk(head', chunks', y.pinned + pins, PushedSegs(y.segs, g))
  {
    var segs' := PushedSegs(y.segs, g);
    PushedLimits(y.segs, g);
    hide Limit, TailFrom, FreshRegion, SegsApart;
    forall i | 1 <= i < |segs'|
      ensures FenceOk(head', chunks', y.pinned + pins, Limit(segs', i) - 8)
    {
      if i > 1 {
        assert Limit(segs', (i - 1) + 1) == Limit(y.segs, i - 1);
        assert FenceOk(head, y.chunks, y.pinned, Limit(y.segs, i - 1) - 8);
        FarFromTail(y.segs, i - 1, g);
        TailAndMore(y.chunks, y.pinned, Limit(y.segs, i - 1) - 8, chunks' - y.chunks, pins);
        assert y.chunks + (chunks' - y.chunks) == chunks';
      } else {
        MorePinned(chunks', pins, EndOfOld(y.segs) - 8, y.pinned);
      }
    }
  }

  lemma MorePinned(chunks: set<int>, pinned: set<int>, f: int, more: set<int>)
    requires TailPinned(chunks, pinned, f)
    ensures TailPinned(chunks, more + pinned, f)
  {
    var r :| TailFrom(chunks, pinned, f, r);
    assert TailFrom(chunks, more + pinned, f, r);
  }

  lemma FarFromTail(segs: seq<Segment>, i: nat, g: Segment)
    requires SegsApart(segs) && FreshRegion(segs, g) && 1 <= i < |segs|
    ensures g.base < Limit(segs, i) - 88 || Limit(segs, i) - 8 < g.base
  {
    assert SegmentOk(segs[i]) && Apart(segs[i], g);
    hide InPieces;
  }

  /** Behind the record of the old segment there are fenceposts only. */
  lemma RetiredTail(chunks: set<int>, top: int, sp: int, e: int, g: Segment)
    requires top in chunks && forall c <- chunks :: c > top ==> c >= e + 8
    requires (e < g.base || g.base + g.size <= top) && top <= sp && e - 88 <= sp <= e - 56 && g.size > 0
    ensures TailPinned(chunks + RetiredSet(top, sp, e) + {g.base}, RetiredPins(sp, e), e - 8)
  {
    assert TailFrom(chunks + RetiredSet(top, sp, e) + {g.base}, RetiredPins(sp, e), e - 8, sp);
  }

  lemma RetireSegs(head: Heads, y: Layout, top: int, sp: int, e: int, g: Segment, n: nat)
    requires SegsOk(head, y.chunks, y.ends, top, y.segs) && FreshRegion(y.segs, g) && e == EndOfOld(y.segs)
    requires y.chunks !! RetiredSet(top, sp, e) && g.base !in y.chunks + RetiredSet(top, sp, e)
    requires top in y.chunks && forall d <- y.chunks :: d in head
    requires 0 < top <= sp && sp + RECORD_SIZE < e && (e - sp) % 8 == 0
    ensures SegsOk(RetiredHead(head, top, sp, e)[g.base := Head(n, true, false)],
                   y.chunks + RetiredSet(top, sp, e) + {g.base}, RetiredEnds(y.segs, y.ends, g), g.base, PushedSegs(y.segs, g))
  {
    hide RetiredHead, RetiredSet, RetiredEnds, SegsApart, FreshRegion, IsLimit, HasSeg, BasesOk, Limit, EndOfOld, PushedSegs;
    var h := RetiredHead(head, top, sp, e)[g.base := Head(n, true, false)];
    var segs' := PushedSegs(y.segs, g);
    PushedApart(y.segs, g);
    PushedLimits(y.segs, g);
    RegionFacts(y.segs, g);
    forall x
      ensures x in RetiredEnds(y.segs, y.ends, g) <==> IsLimit(segs', x)
    {
      PushedEnds(y.segs, y.ends, g, x);
    }
    PushedParts(y.segs, g);
    InSegHas(segs', 0, g.base);
    forall c <- y.chunks + RetiredSet(top, sp, e)
      ensures HasSeg(segs', c)
    {
      if c in RetiredSet(top, sp, e) {
        RetiredFacts(head, top, sp, e, c);
        InSegHas(segs', 1, c);
      } else {
        PushedHas(y.segs, g, c);
      }
    }
    forall c <- y.chunks
      ensures c in h && (head[c].pinuse ==> h[c].pinuse)
    {
      RetiredWhich(head, y.chunks, top, sp, e, c);
      if c == top == sp {
        RetiredFacts(head, top, sp, e, c);
      }
    }
    PushedBases(head, y.chunks, y.segs, g, h, y.chunks + RetiredSet(top, sp, e) + {g.base});
  }

  lemma PushedParts(segs: seq<Segment>, g: Segment)
    ensures |PushedSegs(segs, g)| == |segs| + 1 && PushedSegs(segs, g)[0] == g
    ensures forall i :: 0 <= i < |segs| ==> PushedSegs(segs, g)[i + 1] == segs[i]
  {
  }

  lemma LastFence(head: Heads, top: int, sp: int, e: int)
    requires top <= sp && sp + RECORD_SIZE < e && (e - sp) % 8 == 0
    ensures e - 8 in RetiredPins(sp, e) && e - 8 in RetiredSet(top, sp, e)
    ensures e - 8 in RetiredHead(head, top, sp, e) && RetiredHead(head, top, sp, e)[e - 8].size == 8
  {
    assert FenceStop(sp + RECORD_SIZE, e - 8);
    assert e - 8 in FenceSet(sp + RECORD_SIZE, e);
  }

  lemma SegsAre(head: Heads, y: Layout, top: int)
    requires SegsOk(head, y.chunks, y.ends, top, y.segs)
    ensures SegsApart(y.segs)
  {
  }

  lemma RetireFences(head: Heads, y: Layout, top: int, sp: int, e: int, g: Segment, n: nat)
    requires FencesOk(head, y.chunks, y.pinned, y.segs) && LiveOk(head, y.chunks, y.live, y.pinned) && |y.segs| > 0
    requires e == EndOfOld(y.segs) && top in y.chunks && top in head && !head[top].cinuse
    requires y.chunks !! RetiredSet(top, sp, e) && g.base !in y.chunks + RetiredSet(top, sp, e)
    requires 0 < top <= sp && sp + RECORD_SIZE < e && (e - sp) % 8 == 0 && SegsApart(y.segs) && FreshRegion(y.segs, g)
    requires TailPinned(y.chunks + RetiredSet(top, sp, e) + {g.base}, RetiredPins(sp, e), e - 8)
    ensures FencesOk(RetiredHead(head, top, sp, e)[g.base := Head(n, true, false)],
                     y.chunks + RetiredSet(top, sp, e) + {g.base}, y.pinned + RetiredPins(sp, e), PushedSegs(y.segs, g))
  {
    hide RetiredHead, RetiredSet, RetiredPins, FencesOk, SegsApart, FreshRegion, TailPinned;
    forall m <- y.chunks + RetiredSet(top, sp, e) + {g.base}
      ensures m in y.chunks || m in RetiredPins(sp, e) || m == g.base
    {
      PinsIn(top, sp, e, m);
    }
    var h := RetiredHead(head, top, sp, e)[g.base := Head(n, true, false)];
    LastFence(head, top, sp, e);
    forall c <- y.pinned
      ensures c in h && h[c].size == head[c].size
    {
      RetiredWhich(head, y.chunks, top, sp, e, c);
    }
    PushedFences(head, y, g, h, y.chunks + RetiredSet(top, sp, e) + {g.base}, RetiredPins(sp, e));
  }

  // ------------------------------------------------------------ the whole step

  lemma RetiredClear(head: Heads, y: Layout, top: int, sp: int, e: int, g: Segment, c: int)
    requires TileOk(head, y.chunks, y.ends) && SegsOk(head, y.chunks, y.ends, top, y.segs) && FreshRegion(y.segs, g)
    requires e == EndOfOld(y.segs) && top in y.chunks && c in y.chunks + RetiredSet(top, sp, e)
    requires y.chunks !! RetiredSet(top, sp, e)
    requires 0 < top <= sp && sp + RECORD_SIZE < e && (e - sp) % 8 == 0
    ensures Next(RetiredHead(head, top, sp, e), c) < g.base || g.base + g.size <= c
  {
    hide RetiredHead, RetiredSet, SegsOk, TileOk, FreshRegion;
    ClearOfRegion(head, y, top, g);
    InCurrent(head, y, top, g);
    SizesKnown(head, y.chunks, y.ends);
    RetiredWhich(head, y.chunks, top, sp, e, c);
    if c in RetiredSet(top, sp, e) || c == top == sp {
      RetiredFacts(head, top, sp, e, c);
      NotBeyondFences(sp + RECORD_SIZE, e);
    }
  }

  lemma NotBeyondFences(f: int, e: int)
    ensures forall x <- FenceSet(f, e) :: x < e
  {
  }

  /** The current segment is clear of a fresh region. */
  lemma InCurrent(head: Heads, y: Layout, top: int, g: Segment)
    requires SegsOk(head, y.chunks, y.ends, top, y.segs) && FreshRegion(y.segs, g)
    ensures |y.segs| > 0 && (EndOfOld(y.segs) < g.base || g.base + g.size <= top)
  {
    assert Apart(y.segs[0], g) && InSeg(y.segs, 0, top) && SegmentOk(y.segs[0]);
  }

  lemma EndsClear(head: Heads, y: Layout, top: int, g: Segment)
    requires TileOk(head, y.chunks, y.ends) && SegsOk(head, y.chunks, y.ends, top, y.segs) && FreshRegion(y.segs, g)
    ensures |y.segs| > 0
    ensures forall e <- y.ends - {Limit(y.segs, 0)} + {EndOfOld(y.segs)} :: e < g.base || g.base + g.size <= e
  {
    hide SegsOk, TileOk, FreshRegion;
    ClearOfRegion(head, y, top, g);
    InCurrent(head, y, top, g);
    OldEnd(head, y, top);
  }

  lemma OldEnd(head: Heads, y: Layout, top: int)
    requires SegsOk(head, y.chunks, y.ends, top, y.segs)
    ensures |y.segs| > 0 && top < EndOfOld(y.segs) == Limit(y.segs, 0) + 56
    ensures RECORD_SIZE < EndOfOld(y.segs)
  {
    assert InSeg(y.segs, 0, top) && SegmentOk(y.segs[0]);
  }

  /** What top leaves behind once it is retired, apart from the new region. */
  lemma RetireOld(head: Heads, foot: map<int, int>, s: Spare, y: Layout, sp: int, e: int)
    requires HeapTiles(head, foot, y.chunks, y.ends, s.top) && SegsOk(head, y.chunks, y.ends, s.top, y.segs)
    requires s.top in head && head[s.top].size == s.topsize && sp == RecordAt(s.top, s.topsize)
    requires |y.segs| > 0 && e == EndOfOld(y.segs)
    ensures var h, cs := RetiredHead(head, s.top, sp, e), y.chunks + RetiredSet(s.top, sp, e);
      && 0 < s.top <= sp && sp + RECORD_SIZE < e && (e - sp) % 8 == 0
      && y.chunks !! RetiredSet(s.top, sp, e)
      && TileOk(h, cs, y.ends - {Limit(y.segs, 0)} + {e})
      && TagsOk(h, RetiredFoot(foot, s.top, sp), cs) && NoFreeEnd(h, cs, y.ends - {Limit(y.segs, 0)} + {e})
  {
    hide SegsOk, TileOk, FlagsOk, RetiredHead, RetiredSet, RetiredFoot, TagsOk, NoFreeEnd, Limit, EndOfOld;
    var l := Limit(y.segs, 0);
    BehindOld(head, foot, s, y);
    OldEnd(head, y, s.top);
    OldSize(head, foot, y, s);
    GrowTiles(head, foot, y.chunks, y.ends, s.top, 56);
    var hg := head[s.top := Head(s.topsize + 56, true, false)];
    var ends := y.ends - {l} + {e};
    assert RetiredHead(hg, s.top, sp, e) == RetiredHead(head, s.top, sp, e) by { RetiredSame(head, s.top, sp, e, hg, Head(s.topsize + 56, true, false)); }
    assert Next(hg, s.top) == e;
    RetireTiles(hg, y.chunks, ends, s.top, sp, e);
    NotAnEnd(hg, y.chunks, ends, s.top, sp, e, l);
    RetireTags(hg, foot, y.chunks, ends, s.top, sp, e);
  }

  lemma OldSize(head: Heads, foot: map<int, int>, y: Layout, s: Spare)
    requires HeapTiles(head, foot, y.chunks, y.ends, s.top) && SegsOk(head, y.chunks, y.ends, s.top, y.segs)
    requires s.top in head && head[s.top].size == s.topsize
    ensures |y.segs| > 0 && s.top > 0 && s.topsize > 0 && s.topsize % 8 == 0 && s.top in y.chunks
    ensures EndOfOld(y.segs) == s.top + s.topsize + 56
    ensures y.segs[0].base + y.segs[0].size == s.top + s.topsize + 64
  {
    hide SegsOk, FlagsOk, TileOk;
    TopLimit(head, foot, s, y);
    Positive(head, y.chunks, y.ends, s.top);
  }

  lemma RetiredSame(head: Heads, top: int, sp: int, e: int, head': Heads, v: Head)
    requires top <= sp && top in head && head' == head[top := v]
    ensures RetiredHead(head', top, sp, e) == RetiredHead(head, top, sp, e)
  {
  }

  lemma NotAnEnd(head: Heads, chunks: set<int>, ends: set<int>, top: int, sp: int, e: int, l: int)
    requires TileOk(head, chunks, ends) && top in chunks && e == Next(head, top) && top <= sp < e
    ensures sp !in ends
  {
    assert ChunkOk(head, top);
  }

  /** add_segment: the region g becomes the current segment. The old top is left
      loose, unless it was so small that the segment record went in its place. */
  lemma AddSegmentOk(head: Heads, foot: map<int, int>, s: Spare, y: Layout, g: Segment)
    requires HeapOk(head, foot, s, y, {}) && FreshRegion(y.segs, g)
    ensures |y.segs| > 0 && g.size >= TOP_FOOT_SIZE && s.top <= RecordAt(s.top, s.topsize)
    ensures var sp, e, n := RecordAt(s.top, s.topsize), EndOfOld(y.segs), g.size - TOP_FOOT_SIZE;
      && s.top != g.base && g.base !in RetiredSet(s.top, sp, e) && sp + RECORD_SIZE < e && (e - sp) % 8 == 0
      && forall c <- y.binned :: c in head && c in RetiredHead(head, s.top, sp, e) && c != g.base
           && RetiredHead(head, s.top, sp, e)[c] == head[c]
    ensures var sp, e, n := RecordAt(s.top, s.topsize), EndOfOld(y.segs), g.size - TOP_FOOT_SIZE;
      HeapOk(RetiredHead(head, s.top, sp, e)[g.base := Head(n, true, false)], RetiredFoot(foot, s.top, sp),
             Spare(s.dv, s.dvsize, g.base, n),
             y.(chunks := y.chunks + RetiredSet(s.top, sp, e) + {g.base}, ends := RetiredEnds(y.segs, y.ends, g),
                pinned := y.pinned + RetiredPins(sp, e), segs := PushedSegs(y.segs, g)),
             RetiredLoose(s.top, sp))
  {
    hide TileOk, FlagsOk, SegsOk, LiveOk, FencesOk, RetiredHead, RetiredSet, RetiredFoot, RetiredEnds, RetiredPins,
      RetiredLoose, TagsOk, NoFreeEnd, PushedSegs, FreshRegion, BinnableSize;
    var sp, n := RecordAt(s.top, s.topsize), g.size - TOP_FOOT_SIZE;
    OldSize(head, foot, y, s);
    var e := EndOfOld(y.segs);
    var h, cs := RetiredHead(head, s.top, sp, e), y.chunks + RetiredSet(s.top, sp, e);
    RetireOld(head, foot, s, y, sp, e);
    RegionFacts(y.segs, g);
    AllClear(head, y, s.top, sp, e, g);
    var ends1 := y.ends - {Limit(y.segs, 0)} + {e};
    NewTopTiles(h, RetiredFoot(foot, s.top, sp), cs, ends1, g.base, n, g.base + g.size);
    assert RetiredEnds(y.segs, y.ends, g) == ends1 + {g.base + n} by { EndsSum(y, g, n); }
    RetireFree(head, y, s, sp, e, g.base, n);
    RetireLive(head, y, s.top, sp, e, g.base, n);
    RetireSegs(head, y, s.top, sp, e, g, n);
    BehindOld(head, foot, s, y);
    InCurrent(head, y, s.top, g);
    RetiredTail(y.chunks, s.top, sp, e, g);
    SegsAre(head, y, s.top);
    RetireFences(head, y, s.top, sp, e, g, n);
    forall c <- y.binned
      ensures c in head && c in h && c != g.base && h[c] == head[c]
    {
      RetiredWhich(head, y.chunks, s.top, sp, e, c);
    }
  }

  /** The order of the writes does not matter. */
  lemma RetiredWrites(head: Heads, top: int, sp: int, e: int, nt: int, n: nat)
    requires top <= sp && sp + RECORD_SIZE < e && (e - sp) % 8 == 0 && nt != top && nt !in RetiredSet(top, sp, e)
    ensures var h := head[nt := Head(n, true, false)][sp := Head(RECORD_SIZE, true, true)] + Fences(sp + RECORD_SIZE, e);
      && sp in h
      && (sp == top ==> h == RetiredHead(head, top, sp, e)[nt := Head(n, true, false)])
      && (sp != top ==>
            SetPinuse(h[top := Head(sp - top, true, false)], sp, false) ==
              RetiredHead(head, top, sp, e)[nt := Head(n, true, false)])
  {
    assert sp !in FenceSet(sp + RECORD_SIZE, e) && (top != sp ==> top !in FenceSet(sp + RECORD_SIZE, e));
  }

  lemma OldTopHead(head: Heads, top: int, sp: int, e: int, nt: int, n: nat)
    requires top <= sp && nt != top
    ensures var h := RetiredHead(head, top, sp, e)[nt := Head(n, true, false)];
            sp != top ==> top in h && h[top].size == sp - top
  {
  }

  lemma FenceMore(head: Heads, f: int, p: int)
    requires f <= p && (p - f) % 8 == 0
    ensures (head + Fences(f, p))[p := Head(8, true, true)] == head + Fences(f, p + 8)
  {
    assert FenceSet(f, p + 8) == FenceSet(f, p) + {p} by {
      assert FenceStop(f, p);
    }
  }

  lemma NoFences(head: Heads, f: int)
    ensures head + Fences(f, f) == head
  {
  }

  lemma EndsSum(y: Layout, g: Segment, n: int)
    requires |y.segs| > 0 && n == g.size - TOP_FOOT_SIZE
    ensures RetiredEnds(y.segs, y.ends, g) == y.ends - {Limit(y.segs, 0)} + {EndOfOld(y.segs)} + {g.base + n}
  {
  }

  lemma AllClear(head: Heads, y: Layout, top: int, sp: int, e: int, g: Segment)
    requires TileOk(head, y.chunks, y.ends) && SegsOk(head, y.chunks, y.ends, top, y.segs) && FreshRegion(y.segs, g)
    requires |y.segs| > 0 && e == EndOfOld(y.segs) && top in y.chunks
    requires y.chunks !! RetiredSet(top, sp, e)
    requires 0 < top <= sp && sp + RECORD_SIZE < e && (e - sp) % 8 == 0
    ensures forall c <- y.chunks + RetiredSet(top, sp, e) ::
              Next(RetiredHead(head, top, sp, e), c) < g.base || g.base + g.size <= c
    ensures forall x <- y.ends - {Limit(y.segs, 0)} + {e} :: x < g.base || g.base + g.size <= x
  {
    hide TileOk, SegsOk, FreshRegion, RetiredSet, RetiredHead, Next;
    EndsClear(head, y, top, g);
    forall c <- y.chunks + RetiredSet(top, sp, e)
      ensures Next(RetiredHead(head, top, sp, e), c) < g.base || g.base + g.size <= c
    {
      RetiredClear(head, y, top, sp, e, g, c);
    }
  }
}
