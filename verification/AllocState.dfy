// What the allocator knows about its chunks: every free chunk is in exactly one
// place, every chunk in use is a live block or pinned, and all of them lie in
// segments (luajit/src/lj_alloc.c).

module AllocState {
  import opened AllocSizes
  import opened AllocBits
  import opened AllocRing
  import opened AllocSmall
  import opened AllocTile
  import opened AllocTrie

  /** Chunk sizes that the bins can hold. */
  predicate BinnableSize(s: nat) { s % 8 == 0 && MIN_CHUNK_SIZE <= s < SIZE_LIMIT }

  lemma BinnableSplits(s: nat)
    requires BinnableSize(s)
    ensures SmallSize(s) || LargeSize(s)
    ensures SmallIndex(s) < NSMALLBINS <==> SmallSize(s)
  {
  }

  /** Every free chunk is exactly one of top, dv, a binned chunk, or a chunk that
      the running operation holds in its hands (loose). */
  ghost predicate FreeOk(head: Heads, chunks: set<int>, binned: set<int>, dv: int, dvsize: nat, top: int, topsize: nat,
                         loose: set<int>) {
    && (forall c <- chunks :: c in head && (!head[c].cinuse <==> c == top || c == dv || c in binned || c in loose))
    && binned <= chunks && loose <= chunks && binned !! loose
    && top in chunks && top !in binned && top !in loose && top != dv
    && (dv != 0 ==> dv in chunks && dv !in binned && dv !in loose)
    && (dvsize == 0 <==> dv == 0) && (dv != 0 ==> dv in head && head[dv].size == dvsize)
    && top in head && head[top].size == topsize < SIZE_LIMIT
    && (forall c <- chunks :: c != top && c in head && !head[c].cinuse ==> BinnableSize(head[c].size))
    && 0 !in chunks
  }

  /** Every chunk in use is a live block, which carries its request, or pinned. */
  ghost predicate LiveOk(head: Heads, chunks: set<int>, live: map<int, nat>, pinned: set<int>) {
    && (forall c <- chunks :: c in head && (head[c].cinuse <==> c in live || c in pinned))
    && live.Keys <= chunks && pinned <= chunks && live.Keys !! pinned
    && (forall c <- live :: c in head && BinnableSize(head[c].size) && live[c] + CHUNK_OVERHEAD <= head[c].size)
  }

  datatype Segment = Segment(base: int, size: nat)

  /** Where the chunks of segment i end: before the footer of the current segment,
      before the last fencepost word of an old one. */
  function Limit(segs: seq<Segment>, i: nat): int
    requires i < |segs|
  {
    segs[i].base + segs[i].size - if i == 0 then TOP_FOOT_SIZE else CHUNK_OVERHEAD
  }

  /** Segments are made of pieces of the granularity. */
  predicate SegmentOk(g: Segment) {
    && g.base > 0 && g.base % 8 == 0 && g.base + g.size < SIZE_LIMIT
    && g.size >= DEFAULT_GRANULARITY && g.size % 8 == 0 && InPieces(g.size)
  }

  predicate InPieces(n: int) { n % DEFAULT_GRANULARITY == 0 }

  lemma PiecesSum(a: int, b: int)
    requires InPieces(a) && InPieces(b)
    ensures InPieces(a + b) && InPieces(a - b)
  {
  }

  predicate Apart(g: Segment, h: Segment) { g.base + g.size <= h.base || h.base + h.size <= g.base }

  predicate InSeg(segs: seq<Segment>, i: nat, c: int)
    requires i < |segs|
  {
    segs[i].base <= c < Limit(segs, i)
  }

  /** The segments do not overlap. */
  ghost predicate SegsApart(segs: seq<Segment>) {
    && |segs| > 0
    && (forall i :: 0 <= i < |segs| ==> SegmentOk(segs[i]))
    && (forall i, j :: 0 <= i < |segs| && 0 <= j < |segs| && i != j ==> Apart(segs[i], segs[j]))
  }

  ghost predicate IsLimit(segs: seq<Segment>, e: int) { exists i :: 0 <= i < |segs| && e == Limit(segs, i) }

  ghost predicate HasSeg(segs: seq<Segment>, c: int) { exists i :: 0 <= i < |segs| && InSeg(segs, i, c) }

  /** The first chunk of segment i starts at its base. */
  ghost predicate BaseOk(head: Heads, chunks: set<int>, g: Segment) {
    g.base in chunks && g.base in head && head[g.base].pinuse
  }

  ghost predicate BasesOk(head: Heads, chunks: set<int>, segs: seq<Segment>) {
    forall i :: 0 <= i < |segs| ==> BaseOk(head, chunks, segs[i])
  }

  ghost predicate SegsOk(head: Heads, chunks: set<int>, ends: set<int>, top: int, segs: seq<Segment>) {
    && |segs| > 0 && SegsApart(segs)
    && (forall e :: e in ends <==> IsLimit(segs, e))
    && (forall c <- chunks :: HasSeg(segs, c))
    && BasesOk(head, chunks, segs)
    && InSeg(segs, 0, top)
  }

  // ------------------------------------------------------- moving free chunks

  lemma LooseToBin(head: Heads, chunks: set<int>, binned: set<int>, dv: int, dvsize: nat, top: int, topsize: nat,
                   loose: set<int>, x: int)
    requires FreeOk(head, chunks, binned, dv, dvsize, top, topsize, loose) && x in loose
    ensures FreeOk(head, chunks, binned + {x}, dv, dvsize, top, topsize, loose - {x})
  {
  }

  lemma DvToLoose(head: Heads, chunks: set<int>, binned: set<int>, dv: int, dvsize: nat, top: int, topsize: nat,
                  loose: set<int>)
    requires FreeOk(head, chunks, binned, dv, dvsize, top, topsize, loose) && dv != 0
    ensures FreeOk(head, chunks, binned, 0, 0, top, topsize, loose + {dv})
  {
  }

  lemma LooseToDv(head: Heads, chunks: set<int>, binned: set<int>, top: int, topsize: nat, loose: set<int>, x: int)
    requires FreeOk(head, chunks, binned, 0, 0, top, topsize, loose) && x in loose
    ensures x in head && head[x].size > 0
    ensures FreeOk(head, chunks, binned, x, head[x].size, top, topsize, loose - {x})
  {
  }

  /** The loose chunk becomes a live block as a whole. */
  lemma UseLooseFree(head: Heads, chunks: set<int>, binned: set<int>, dv: int, dvsize: nat, top: int, topsize: nat,
                     c: int, z: int)
    requires FreeOk(head, chunks, binned, dv, dvsize, top, topsize, {c}) && c in head && z != c
    ensures FreeOk(SetPinuse(head[c := Head(head[c].size, head[c].pinuse, true)], z, true), chunks, binned, dv, dvsize, top,
                   topsize, {})
  {
  }

  lemma UseLooseLive(head: Heads, chunks: set<int>, live: map<int, nat>, pinned: set<int>, c: int, z: int, req: nat)
    requires LiveOk(head, chunks, live, pinned) && c in chunks && !head[c].cinuse && z != c
    requires BinnableSize(head[c].size) && req + CHUNK_OVERHEAD <= head[c].size
    ensures LiveOk(SetPinuse(head[c := Head(head[c].size, head[c].pinuse, true)], z, true), chunks, live[c := req], pinned)
  {
  }

  /** The front of the loose chunk becomes a live block, the rest is loose. */
  lemma SplitLooseFree(head: Heads, chunks: set<int>, binned: set<int>, dv: int, dvsize: nat, top: int, topsize: nat,
                       c: int, m: int, z: int)
    requires FreeOk(head, chunks, binned, dv, dvsize, top, topsize, {c}) && c in head && m !in chunks
    requires 0 <= c < m < z && z == c + head[c].size && BinnableSize(z - m)
    ensures FreeOk(SetPinuse(head[c := Head(m - c, head[c].pinuse, true)][m := Head(z - m, true, false)], z, false),
                   chunks + {m}, binned, dv, dvsize, top, topsize, {m})
  {
  }

  lemma SplitLooseLive(head: Heads, chunks: set<int>, live: map<int, nat>, pinned: set<int>, c: int, m: int, z: int, req: nat)
    requires LiveOk(head, chunks, live, pinned) && c in chunks && !head[c].cinuse && m !in chunks
    requires c < m < z && BinnableSize(m - c) && req + CHUNK_OVERHEAD <= m - c
    ensures LiveOk(SetPinuse(head[c := Head(m - c, head[c].pinuse, true)][m := Head(z - m, true, false)], z, false),
                   chunks + {m}, live[c := req], pinned)
  {
  }

  /** The front of top becomes a live block. */
  lemma SplitTopFree(head: Heads, chunks: set<int>, binned: set<int>, dv: int, dvsize: nat, top: int, topsize: nat, m: int)
    requires FreeOk(head, chunks, binned, dv, dvsize, top, topsize, {}) && m !in chunks
    requires 0 <= top < m < top + topsize
    ensures FreeOk(head[top := Head(m - top, head[top].pinuse, true)][m := Head(top + topsize - m, true, false)],
                   chunks + {m}, binned, dv, dvsize, m, top + topsize - m, {})
  {
  }

  lemma SplitTopLive(head: Heads, chunks: set<int>, live: map<int, nat>, pinned: set<int>, top: int, m: int, z: int, req: nat)
    requires LiveOk(head, chunks, live, pinned) && top in chunks && !head[top].cinuse && m !in chunks
    requires top < m < z && BinnableSize(m - top) && req + CHUNK_OVERHEAD <= m - top
    ensures LiveOk(head[top := Head(m - top, head[top].pinuse, true)][m := Head(z - m, true, false)],
                   chunks + {m}, live[top := req], pinned)
  {
  }

  // ------------------------------------------------------------------ freeing

  /** All free chunks of the run are loose; one loose chunk takes their place. */
  lemma MergeFree(head: Heads, chunks: set<int>, binned: set<int>, dv: int, dvsize: nat, top: int, topsize: nat,
                  loose: set<int>, a: int, z: int)
    requires FreeOk(head, chunks, binned, dv, dvsize, top, topsize, loose) && a in chunks && a < z
    requires forall c <- chunks :: a <= c < z && !head[c].cinuse ==> c in loose
    requires forall c <- loose :: a <= c < z
    requires BinnableSize(z - a)
    ensures FreeOk(SetPinuse(head[a := Head(z - a, true, false)], z, false), chunks - Inside(chunks, a, z), binned, dv,
                   dvsize, top, topsize, {a})
  {
  }

  /** The same where top is in the run: it grows downwards. */
  lemma MergeTop(head: Heads, chunks: set<int>, binned: set<int>, dv: int, dvsize: nat, top: int, topsize: nat,
                 loose: set<int>, a: int, z: int)
    requires FreeOk(head, chunks, binned, dv, dvsize, top, topsize, loose) && a in chunks && a < z && a <= top < z
    requires forall c <- chunks :: a <= c < z && !head[c].cinuse ==> c in loose || c == top
    requires forall c <- loose :: a <= c < z
    requires z - a < SIZE_LIMIT
    ensures FreeOk(head[a := Head(z - a, true, false)], chunks - Inside(chunks, a, z), binned, dv,
                   dvsize, a, z - a, {})
  {
  }

  /** Only the block p of the run was in use. */
  lemma MergeLive(head: Heads, chunks: set<int>, live: map<int, nat>, pinned: set<int>, a: int, z: int, p: int, h: Heads)
    requires LiveOk(head, chunks, live, pinned) && a in chunks && a <= p < z && p in live
    requires forall c <- chunks :: a <= c < z && head[c].cinuse ==> c == p
    requires a in h && !h[a].cinuse
    requires forall c <- chunks :: c != a ==> c in h && h[c].size == head[c].size && h[c].cinuse == head[c].cinuse
    ensures LiveOk(h, chunks - Inside(chunks, a, z), live - {p}, pinned)
  {
  }

  // ----------------------------------------------------------------- segments

  lemma BasesOutside(segs: seq<Segment>, i: nat, a: int, z: int)
    requires SegsApart(segs) && i < |segs| && segs[i].base <= a < z <= Limit(segs, i)
    ensures forall j :: 0 <= j < |segs| ==> !(a < segs[j].base <= z)
  {
    forall j | 0 <= j < |segs|
      ensures !(a < segs[j].base <= z)
    {
      assert SegmentOk(segs[j]) && (j != i ==> Apart(segs[i], segs[j]));
    }
  }

  lemma OneSeg(segs: seq<Segment>, i: nat, j: nat, c: int)
    requires SegsApart(segs) && i < |segs| && j < |segs| && InSeg(segs, i, c) && InSeg(segs, j, c)
    ensures i == j
  {
    assert i != j ==> Apart(segs[i], segs[j]);
  }

  /** A run of chunks stays inside one segment. */
  lemma SegOfRun(head: Heads, chunks: set<int>, ends: set<int>, top: int, segs: seq<Segment>, a: int, z: int)
    returns (i: nat)
    requires TileOk(head, chunks, ends) && SegsOk(head, chunks, ends, top, segs) && Run(head, chunks, a, z)
    ensures i < |segs| && segs[i].base <= a < z <= Limit(segs, i)
    ensures forall j :: 0 <= j < |segs| ==> !(a < segs[j].base <= z)
    ensures a <= top < z ==> i == 0
  {
    hide BasesOk, IsLimit, HasSeg, TileOk, Run, SegsApart;
    RunOk(head, chunks, ends, a, z);
    assert HasSeg(segs, a);
    i := PickSeg(segs, a);
    LimitIsLimit(segs, i);
    BasesOutside(segs, i, a, z);
    if a <= top < z {
      OneSeg(segs, i, 0, top);
    }
  }

  lemma PickSeg(segs: seq<Segment>, c: int) returns (i: nat)
    requires HasSeg(segs, c)
    ensures i < |segs| && InSeg(segs, i, c)
  {
    i :| 0 <= i < |segs| && InSeg(segs, i, c);
  }

  lemma LimitIsLimit(segs: seq<Segment>, i: nat)
    requires i < |segs|
    ensures IsLimit(segs, Limit(segs, i))
  {
  }

  /** Rewriting a run of chunks does not concern the segments. */
  lemma SegsAfterRun(head: Heads, chunks: set<int>, ends: set<int>, top: int, segs: seq<Segment>,
                     head': Heads, a: int, z: int, ms: set<int>, top': int)
    requires TileOk(head, chunks, ends) && SegsOk(head, chunks, ends, top, segs)
    requires Run(head, chunks, a, z) && forall m <- ms :: a < m < z
    requires forall c <- chunks :: c in head && c != z && c !in ms ==> c in head' && head'[c].pinuse == head[c].pinuse
    requires if a <= top < z then a <= top' < z else top' == top
    ensures SegsOk(head', chunks - Inside(chunks, a, z) + ms, ends, top', segs)
  {
    hide TileOk, Run, IsLimit, HasSeg, BasesOk, SegsApart;
    var i := SegOfRun(head, chunks, ends, top, segs, a, z);
    forall m <- ms
      ensures HasSeg(segs, m)
    {
      InSegHas(segs, i, m);
    }
    BasesAfter(head, chunks, segs, head', a, z, ms);
  }

  lemma InSegHas(segs: seq<Segment>, i: nat, m: int)
    requires i < |segs| && InSeg(segs, i, m)
    ensures HasSeg(segs, m)
  {
  }

  lemma BasesAfter(head: Heads, chunks: set<int>, segs: seq<Segment>, head': Heads, a: int, z: int, ms: set<int>)
    requires a < z && BasesOk(head, chunks, segs) && forall m <- ms :: a < m < z
    requires forall c <- chunks :: c in head && c != z && c !in ms ==> c in head' && head'[c].pinuse == head[c].pinuse
    requires forall j :: 0 <= j < |segs| ==> !(a < segs[j].base <= z)
    ensures BasesOk(head', chunks - Inside(chunks, a, z) + ms, segs)
  {
    forall j | 0 <= j < |segs|
      ensures BaseOk(head', chunks - Inside(chunks, a, z) + ms, segs[j])
    {
      assert BaseOk(head, chunks, segs[j]);
      var c := segs[j].base;
      assert !(a < c <= z);
      assert c !in ms && c !in Inside(chunks, a, z);
    }
  }

  // ---------------------------------------------------------- the whole heap

  /** The fields of malloc_state that describe free space outside the bins. */
  datatype Spare = Spare(dv: int, dvsize: nat, top: int, topsize: nat)

  /** The boundaries, blocks and segments of a heap. */
  datatype Layout = Layout(chunks: set<int>, ends: set<int>, binned: set<int>, live: map<int, nat>, pinned: set<int>,
                           segs: seq<Segment>)

  /** Old segments end in the record of the segment and fenceposts, which are pinned. */
  ghost predicate FencesOk(head: Heads, chunks: set<int>, pinned: set<int>, segs: seq<Segment>) {
    forall i :: 1 <= i < |segs| ==> FenceOk(head, chunks, pinned, Limit(segs, i) - 8)
  }

  ghost predicate FenceOk(head: Heads, chunks: set<int>, pinned: set<int>, f: int) {
    f in chunks && f in pinned && f in head && head[f].size == 8 && TailPinned(chunks, pinned, f)
  }

  ghost predicate TailPinned(chunks: set<int>, pinned: set<int>, f: int) { exists r :: TailFrom(chunks, pinned, f, r) }

  /** The record is at r, close to the last fencepost at f, and all that follows it is pinned. */
  ghost predicate TailFrom(chunks: set<int>, pinned: set<int>, f: int, r: int) {
    f - 80 <= r <= f - 48 && r in chunks && forall c <- chunks :: r <= c <= f ==> c in pinned
  }

  ghost predicate HeapOk(head: Heads, foot: map<int, int>, s: Spare, y: Layout, loose: set<int>) {
    && HeapTiles(head, foot, y.chunks, y.ends, s.top)
    && FencesOk(head, y.chunks, y.pinned, y.segs)
    && FreeOk(head, y.chunks, y.binned, s.dv, s.dvsize, s.top, s.topsize, loose)
    && LiveOk(head, y.chunks, y.live, y.pinned)
    && SegsOk(head, y.chunks, y.ends, s.top, y.segs)
  }

  lemma FencesAfterRun(head: Heads, chunks: set<int>, pinned: set<int>, segs: seq<Segment>,
                       head': Heads, a: int, z: int, ms: set<int>)
    requires FencesOk(head, chunks, pinned, segs)
    requires forall f <- pinned :: f in chunks ==> !(a <= f < z)
    requires a in chunks && a < z && forall m <- ms :: a < m < z
    requires forall c <- chunks :: !(a <= c < z) ==> c in head && c in head' && head'[c].size == head[c].size
    ensures FencesOk(head', chunks - Inside(chunks, a, z) + ms, pinned, segs)
  {
    hide TailFrom, TailPinned;
    forall i | 1 <= i < |segs|
      ensures FenceOk(head', chunks - Inside(chunks, a, z) + ms, pinned, Limit(segs, i) - 8)
    {
      assert FenceOk(head, chunks, pinned, Limit(segs, i) - 8);
      TailAfterRun(chunks, pinned, Limit(segs, i) - 8, a, z, ms);
    }
  }

  /** Chunks that are not pinned come and go in front of the record only. */
  lemma TailAfterRun(chunks: set<int>, pinned: set<int>, f: int, a: int, z: int, ms: set<int>)
    requires TailPinned(chunks, pinned, f) && f in chunks && f in pinned
    requires forall f <- pinned :: f in chunks ==> !(a <= f < z)
    requires a in chunks && a < z && forall m <- ms :: a < m < z
    ensures TailPinned(chunks - Inside(chunks, a, z) + ms, pinned, f)
  {
    var r :| TailFrom(chunks, pinned, f, r);
    assert r in pinned;
    assert TailFrom(chunks - Inside(chunks, a, z) + ms, pinned, f, r);
  }

  /** A live block is followed by another chunk. */
  lemma LiveNext(head: Heads, foot: map<int, int>, s: Spare, y: Layout, loose: set<int>, p: int)
    requires HeapOk(head, foot, s, y, loose) && p in y.live
    ensures p in y.chunks && p in head && head[p].cinuse && Next(head, p) in y.chunks && Next(head, p) in head
  {
    assert ChunkOk(head, p);
    assert Next(head, p) in y.chunks ==> ChunkOk(head, Next(head, p));
    if Next(head, p) in y.ends {
      EndNotLive(head, foot, s, y, p);
    }
    hide HeapTiles, FreeOk, SegsOk;
  }

  lemma SameNext(head: Heads, chunks: set<int>, ends: set<int>, p: int, q: int)
    requires TileOk(head, chunks, ends) && p in chunks && q in chunks && Next(head, p) == Next(head, q)
    ensures p == q
  {
    assert ChunkOk(head, p) && ChunkOk(head, q);
  }

  lemma EndNotLive(head: Heads, foot: map<int, int>, s: Spare, y: Layout, p: int)
    requires HeapTiles(head, foot, y.chunks, y.ends, s.top) && SegsOk(head, y.chunks, y.ends, s.top, y.segs)
    requires FencesOk(head, y.chunks, y.pinned, y.segs) && p in y.chunks && p !in y.pinned && p != s.top
    ensures Next(head, p) !in y.ends
  {
    hide BasesOk, HasSeg, TileOk, SegsApart, FlagsOk;
    if Next(head, p) in y.ends {
      var i :| 0 <= i < |y.segs| && Next(head, p) == Limit(y.segs, i);
      TopLimit(head, foot, s, y);
      if i > 0 {
        assert FenceOk(head, y.chunks, y.pinned, Limit(y.segs, i) - 8);
      }
      SameNext(head, y.chunks, y.ends, p, if i > 0 then Limit(y.segs, i) - 8 else s.top);
    }
  }

  /** top reaches up to the footer of the current segment. */
  lemma TopLimit(head: Heads, foot: map<int, int>, s: Spare, y: Layout)
    requires HeapTiles(head, foot, y.chunks, y.ends, s.top) && SegsOk(head, y.chunks, y.ends, s.top, y.segs)
    ensures |y.segs| > 0 && Next(head, s.top) == Limit(y.segs, 0) && s.top in y.chunks
  {
    hide BasesOk, HasSeg;
    LimitIsLimit(y.segs, 0);
    assert ChunkOk(head, s.top);
    var i :| 0 <= i < |y.segs| && Next(head, s.top) == Limit(y.segs, i);
  }

  lemma InsideEmpty(head: Heads, chunks: set<int>, ends: set<int>, a: int)
    requires TileOk(head, chunks, ends) && a in chunks
    ensures Inside(chunks, a, Next(head, a)) == {}
    ensures Run(head, chunks, a, Next(head, a)) && Next(head, a) > a && a in head
    ensures forall m :: a < m < Next(head, a) ==> m !in chunks
  {
    assert ChunkOk(head, a);
  }

  lemma SamePinuse(head: Heads, z: int, b: bool)
    requires z in head && head[z].pinuse == b
    ensures SetPinuse(head, z, b) == head
  {
    assert head[z] == head[z].(pinuse := b);
  }

  /** The successor of a free chunk other than top. */
  lemma AfterFree(head: Heads, foot: map<int, int>, chunks: set<int>, ends: set<int>, top: int, c: int)
    requires HeapTiles(head, foot, chunks, ends, top) && c in chunks && c in head && !head[c].cinuse && c != top
    ensures var z := Next(head, c);
            z in chunks && z in head && head[z].cinuse && !head[z].pinuse && head[c].pinuse && z > c
  {
    FreeFacts(head, foot, chunks, ends, top, c);
    assert BorderOk(head, foot, chunks, c) && ChunkOk(head, c);
  }

  /** A loose chunk is handed out as a whole. */
  lemma UseWholeOk(head: Heads, foot: map<int, int>, s: Spare, y: Layout, c: int, req: nat)
    requires HeapOk(head, foot, s, y, {c})
    requires c in head && req + CHUNK_OVERHEAD <= head[c].size
    ensures Next(head, c) in head
    ensures HeapOk(SetPinuse(head[c := Head(head[c].size, true, true)], Next(head, c), true), foot, s,
                   y.(live := y.live[c := req]), {})
  {
    hide TileOk, FlagsOk, Run, IsLimit, HasSeg, BasesOk, SegsApart, SegsOk, LiveOk, BinnableSize, FencesOk;
    var z := Next(head, c);
    assert c in y.chunks && c != s.top && !head[c].cinuse;
    AfterFree(head, foot, y.chunks, y.ends, s.top, c);
    InsideEmpty(head, y.chunks, y.ends, c);
    var head' := SetPinuse(head[c := Head(head[c].size, true, true)], z, true);
    TopOutside(head, foot, y.chunks, y.ends, s.top, c, z);
    UseRun(head, foot, y.chunks, y.ends, s.top, c, z);
    UseLooseFree(head, y.chunks, y.binned, s.dv, s.dvsize, s.top, s.topsize, c, z);
    UseLooseLive(head, y.chunks, y.live, y.pinned, c, z, req);
    SegsAfterRun(head, y.chunks, y.ends, s.top, y.segs, head', c, z, {}, s.top);
    PinnedOutside(head, y, c, z);
    FencesAfterRun(head, y.chunks, y.pinned, y.segs, head', c, z, {});
    assert y.chunks - Inside(y.chunks, c, z) == y.chunks;
    assert y.chunks - Inside(y.chunks, c, z) + {} == y.chunks;
  }

  /** No pinned chunk lies in a free one. */
  lemma PinnedOutside(head: Heads, y: Layout, c: int, z: int)
    requires TileOk(head, y.chunks, y.ends) && LiveOk(head, y.chunks, y.live, y.pinned)
    requires c in y.chunks && c in head && !head[c].cinuse && z == Next(head, c)
    ensures forall f <- y.pinned :: f in y.chunks ==> !(c <= f < z)
  {
  }

  lemma TopOutside(head: Heads, foot: map<int, int>, chunks: set<int>, ends: set<int>, top: int, c: int, z: int)
    requires HeapTiles(head, foot, chunks, ends, top) && c in chunks && z == Next(head, c) && c != top
    ensures !(c <= top < z)
    ensures forall d <- chunks :: d in head
  {
    assert forall d <- chunks :: ChunkOk(head, d);
  }

  /** The front of a loose chunk is handed out, the rest stays loose. */
  lemma UseFrontOk(head: Heads, foot: map<int, int>, s: Spare, y: Layout, c: int, m: int, req: nat)
    requires HeapOk(head, foot, s, y, {c})
    requires c in head && c < m && (m - c) % 8 == 0 && req + CHUNK_OVERHEAD <= m - c
    requires MIN_CHUNK_SIZE <= m - c && m + MIN_CHUNK_SIZE <= c + head[c].size
    ensures var z := c + head[c].size;
            HeapOk(head[c := Head(m - c, true, true)][m := Head(z - m, true, false)], foot[z := z - m], s,
                   y.(chunks := y.chunks + {m}, live := y.live[c := req]), {m})
  {
    hide TileOk, FlagsOk, Run, IsLimit, HasSeg, BasesOk, SegsApart, SegsOk, LiveOk, FencesOk;
    var z := Next(head, c);
    assert c in y.chunks && c != s.top && !head[c].cinuse && BinnableSize(head[c].size) && 0 !in y.chunks;
    AfterFree(head, foot, y.chunks, y.ends, s.top, c);
    InsideEmpty(head, y.chunks, y.ends, c);
    var h1 := head[c := Head(m - c, true, true)][m := Head(z - m, true, false)];
    SamePinuse(h1, z, false);
    TopOutside(head, foot, y.chunks, y.ends, s.top, c, z);
    Positive(head, y.chunks, y.ends, c);
    UseFront(head, foot, y.chunks, y.ends, s.top, c, m, z);
    SplitLooseFree(head, y.chunks, y.binned, s.dv, s.dvsize, s.top, s.topsize, c, m, z);
    SplitLooseLive(head, y.chunks, y.live, y.pinned, c, m, z, req);
    SegsAfterRun(head, y.chunks, y.ends, s.top, y.segs, h1, c, z, {m}, s.top);
    PinnedOutside(head, y, c, z);
    FencesAfterRun(head, y.chunks, y.pinned, y.segs, h1, c, z, {m});
    assert y.chunks - Inside(y.chunks, c, z) + {m} == y.chunks + {m};
  }

  lemma Positive(head: Heads, chunks: set<int>, ends: set<int>, c: int)
    requires TileOk(head, chunks, ends) && c in chunks
    ensures c > 0 && c % 8 == 0 && c in head && head[c].size % 8 == 0 && head[c].size > 0
  {
    assert ChunkOk(head, c);
  }

  /** The front of top is handed out. */
  lemma UseTopOk(head: Heads, foot: map<int, int>, s: Spare, y: Layout, nb: nat, req: nat)
    requires HeapOk(head, foot, s, y, {})
    requires nb % 8 == 0 && MIN_CHUNK_SIZE <= nb < s.topsize && req + CHUNK_OVERHEAD <= nb
    ensures var m := s.top + nb;
            HeapOk(head[s.top := Head(nb, true, true)][m := Head(s.topsize - nb, true, false)], foot,
                   s.(top := m, topsize := s.topsize - nb),
                   y.(chunks := y.chunks + {m}, live := y.live[s.top := req]), {})
  {
    hide TileOk, FlagsOk, Run, IsLimit, HasSeg, BasesOk, SegsApart, SegsOk, LiveOk, FencesOk;
    var c, m, z := s.top, s.top + nb, Next(head, s.top);
    FreeFacts(head, foot, y.chunks, y.ends, c, c);
    InsideEmpty(head, y.chunks, y.ends, c);
    Positive(head, y.chunks, y.ends, c);
    var h1 := head[c := Head(nb, true, true)][m := Head(z - m, true, false)];
    RunFacts(head, foot, y.chunks, y.ends, s.top, c, z);
    TopEnds(head, foot, y.chunks, y.ends, c);
    UseTopFront(head, foot, y.chunks, y.ends, c, c, m, z);
    SplitTopFree(head, y.chunks, y.binned, s.dv, s.dvsize, c, s.topsize, m);
    SplitTopLive(head, y.chunks, y.live, y.pinned, c, m, z, req);
    SegsAfterRun(head, y.chunks, y.ends, c, y.segs, h1, c, z, {m}, m);
    PinnedOutside(head, y, c, z);
    FencesAfterRun(head, y.chunks, y.pinned, y.segs, h1, c, z, {m});
    assert y.chunks - Inside(y.chunks, c, z) + {m} == y.chunks + {m};
  }

  lemma TopEnds(head: Heads, foot: map<int, int>, chunks: set<int>, ends: set<int>, top: int)
    requires HeapTiles(head, foot, chunks, ends, top)
    ensures top in chunks && top in head && !head[top].cinuse
    ensures Next(head, top) in ends && Next(head, top) !in chunks && Next(head, top) > top
  {
    assert ChunkOk(head, top);
    assert Next(head, top) in chunks ==> ChunkOk(head, Next(head, top));
  }

  // --------------------------------------------------------- freeing a block

  /** Segments bound the size of a run. */
  lemma RunSize(head: Heads, y: Layout, top: int, a: int, z: int)
    requires TileOk(head, y.chunks, y.ends) && SegsOk(head, y.chunks, y.ends, top, y.segs) && Run(head, y.chunks, a, z)
    ensures 0 < a < z < SIZE_LIMIT && (z - a) % 8 == 0
  {
    hide BasesOk, HasSeg, IsLimit;
    var i := SegOfRun(head, y.chunks, y.ends, top, y.segs, a, z);
    RunOk(head, y.chunks, y.ends, a, z);
    assert SegmentOk(y.segs[i]);
    Positive(head, y.chunks, y.ends, a);
  }

  /** The run from a to z holds block p and otherwise only loose chunks (or top). */
  ghost predicate FreedRun(head: Heads, s: Spare, y: Layout, loose: set<int>, p: int, a: int, z: int) {
    && Run(head, y.chunks, a, z) && p in y.live && a <= p < z && a in head && head[a].pinuse
    && (forall c <- y.chunks :: a <= c < z ==> c == p || c in loose || c == s.top)
    && (forall c <- loose :: a <= c < z)
    && z - a >= MIN_CHUNK_SIZE
  }

  lemma FreedRunFacts(head: Heads, foot: map<int, int>, s: Spare, y: Layout, loose: set<int>, p: int, a: int, z: int)
    requires HeapOk(head, foot, s, y, loose) && FreedRun(head, s, y, loose, p, a, z)
    ensures a in y.chunks && a < z && forall c <- y.chunks :: c in head
    ensures forall c <- y.chunks :: a <= c < z && head[c].cinuse ==> c == p
    ensures forall c <- y.chunks :: a <= c < z && !head[c].cinuse ==> c in loose || c == s.top
    ensures forall f <- y.pinned :: f in y.chunks ==> !(a <= f < z)
    ensures BinnableSize(z - a) && z - a < SIZE_LIMIT
  {
    hide BasesOk, HasSeg, IsLimit, FlagsOk, FencesOk;
    RunSize(head, y, s.top, a, z);
    assert p in y.live;
  }

  /** Freed space that is followed by a chunk in use becomes one loose chunk. */
  lemma FreeRunOk(head: Heads, foot: map<int, int>, s: Spare, y: Layout, loose: set<int>, p: int, a: int, z: int)
    requires HeapOk(head, foot, s, y, loose) && FreedRun(head, s, y, loose, p, a, z)
    requires z in y.chunks && z in head && head[z].cinuse && !(a <= s.top < z)
    ensures HeapOk(SetPinuse(head[a := Head(z - a, true, false)], z, false), foot[z := z - a], s,
                   y.(chunks := y.chunks - Inside(y.chunks, a, z), live := y.live - {p}), {a})
  {
    hide TileOk, FlagsOk, Run, IsLimit, HasSeg, BasesOk, SegsApart, SegsOk, FencesOk, BinnableSize, FreeOk, LiveOk, Inside;
    FreedRunFacts(head, foot, s, y, loose, p, a, z);
    var head' := SetPinuse(head[a := Head(z - a, true, false)], z, false);
    FreeRun(head, foot, y.chunks, y.ends, s.top, a, z);
    MergeFree(head, y.chunks, y.binned, s.dv, s.dvsize, s.top, s.topsize, loose, a, z);
    MergeLive(head, y.chunks, y.live, y.pinned, a, z, p, head');
    SegsAfterRun(head, y.chunks, y.ends, s.top, y.segs, head', a, z, {}, s.top);
    FencesAfterRun(head, y.chunks, y.pinned, y.segs, head', a, z, {});
    assert y.chunks - Inside(y.chunks, a, z) + {} == y.chunks - Inside(y.chunks, a, z);
  }

  /** Freed space that reaches top becomes part of top. */
  lemma FreeTopOk(head: Heads, foot: map<int, int>, s: Spare, y: Layout, loose: set<int>, p: int, a: int, z: int)
    requires HeapOk(head, foot, s, y, loose) && FreedRun(head, s, y, loose, p, a, z)
    requires z !in y.chunks && a <= s.top < z
    ensures HeapOk(head[a := Head(z - a, true, false)], foot, s.(top := a, topsize := z - a),
                   y.(chunks := y.chunks - Inside(y.chunks, a, z), live := y.live - {p}), {})
  {
    hide TileOk, FlagsOk, Run, IsLimit, HasSeg, BasesOk, SegsApart, SegsOk, FencesOk, BinnableSize, FreeOk, LiveOk, Inside;
    FreedRunFacts(head, foot, s, y, loose, p, a, z);
    var head' := head[a := Head(z - a, true, false)];
    FreeIntoTop(head, foot, y.chunks, y.ends, s.top, a, z);
    MergeTop(head, y.chunks, y.binned, s.dv, s.dvsize, s.top, s.topsize, loose, a, z);
    MergeLive(head, y.chunks, y.live, y.pinned, a, z, p, head');
    SegsAfterRun(head, y.chunks, y.ends, s.top, y.segs, head', a, z, {}, a);
    FencesAfterRun(head, y.chunks, y.pinned, y.segs, head', a, z, {});
    assert y.chunks - Inside(y.chunks, a, z) + {} == y.chunks - Inside(y.chunks, a, z);
  }

  // -------------------------------------------------------- bins and layout

  /** The set of binned chunks is what the bins hold. */
  ghost predicate BinnedIs(binned: set<int>, b: Bins, g: Trie) { forall x :: x in binned <==> Binned(b, g, x) }

  lemma LooseApart(head: Heads, foot: map<int, int>, s: Spare, y: Layout, p: int)
    requires HeapOk(head, foot, s, y, {p})
    ensures p in y.chunks && p in head && p > 0 && p !in y.binned && !head[p].cinuse && p !in y.live
    ensures y.binned <= y.chunks && (forall c <- y.chunks :: c in head)
    ensures p != s.top && p != s.dv && BinnableSize(head[p].size) && head[p].pinuse
    ensures Next(head, p) in head && Next(head, p) != p
    ensures forall m :: p < m < Next(head, p) ==> m !in y.chunks
  {
    hide SegsOk, FencesOk;
    AfterFree(head, foot, y.chunks, y.ends, s.top, p);
    InsideEmpty(head, y.chunks, y.ends, p);
    Positive(head, y.chunks, y.ends, p);
    hide HeapTiles;
  }

  /** Heads of chunks that are not binned do not concern the bins. */
  lemma BinsKeep(head: Heads, k: Links, fd: Word, bk: Word, smallmap: set<nat>, treebins: seq<int>,
                 treemap: set<nat>, b: Bins, g: Trie, binned: set<int>, head': Heads)
    requires AllBinsOk(head, k, fd, bk, smallmap, treebins, treemap, b, g) && BinnedIs(binned, b, g)
    requires forall z <- binned :: z in head && z in head' && head'[z].size == head[z].size
    ensures AllBinsOk(head', k, fd, bk, smallmap, treebins, treemap, b, g)
  {
    hide SmallOk, BinsOk, Binned;
    AllBinsFrame(head, k, fd, bk, smallmap, treebins, treemap, b, g, head');
  }

  lemma PopOk(head: Heads, foot: map<int, int>, s: Spare, y: Layout, loose: set<int>, x: int)
    requires HeapOk(head, foot, s, y, loose) && x in y.binned
    ensures HeapOk(head, foot, s, y.(binned := y.binned - {x}), loose + {x})
  {
    hide HeapTiles, SegsOk, LiveOk, FencesOk;
  }

  lemma PushOk(head: Heads, foot: map<int, int>, s: Spare, y: Layout, x: int)
    requires HeapOk(head, foot, s, y, {x})
    ensures HeapOk(head, foot, s, y.(binned := y.binned + {x}), {})
  {
    hide HeapTiles, SegsOk, LiveOk, FencesOk;
    LooseToBin(head, y.chunks, y.binned, s.dv, s.dvsize, s.top, s.topsize, {x}, x);
    assert {x} - {x} == {};
  }

  lemma DvFacts(head: Heads, foot: map<int, int>, s: Spare, y: Layout, loose: set<int>)
    requires HeapOk(head, foot, s, y, loose)
    ensures s.dvsize == 0 <==> s.dv == 0
    ensures s.dv != 0 ==> s.dv in head && s.dv in y.chunks && head[s.dv].size == s.dvsize && BinnableSize(s.dvsize)
    ensures s.dv != 0 ==> s.dv !in y.binned && s.dv != s.top && s.dv !in loose && s.dv > 0 && !head[s.dv].cinuse
    ensures s.top in head && s.top in y.chunks && head[s.top].size == s.topsize < SIZE_LIMIT && s.topsize % 8 == 0
    ensures s.top > 0 && s.top % 8 == 0 && s.topsize > 0 && s.top !in y.binned && !head[s.top].cinuse
  {
    hide SegsOk, LiveOk, FencesOk;
    Positive(head, y.chunks, y.ends, s.top);
    if s.dv != 0 {
      Positive(head, y.chunks, y.ends, s.dv);
    }
    hide HeapTiles;
  }

  /** dv is taken in hand. */
  lemma DvLoose(head: Heads, foot: map<int, int>, s: Spare, y: Layout, loose: set<int>)
    requires HeapOk(head, foot, s, y, loose) && s.dv != 0
    ensures HeapOk(head, foot, s.(dv := 0, dvsize := 0), y, loose + {s.dv})
  {
    hide HeapTiles, SegsOk, LiveOk, FencesOk;
    DvToLoose(head, y.chunks, y.binned, s.dv, s.dvsize, s.top, s.topsize, loose);
  }

  /** dv moves into a bin (the chunk p is still loose). */
  lemma DvBinned(head: Heads, foot: map<int, int>, s: Spare, y: Layout, p: int)
    requires HeapOk(head, foot, s, y, {p}) && s.dv != 0
    ensures HeapOk(head, foot, s.(dv := 0, dvsize := 0), y.(binned := y.binned + {s.dv}), {p})
  {
    hide HeapTiles, SegsOk, LiveOk, FencesOk;
    DvToLoose(head, y.chunks, y.binned, s.dv, s.dvsize, s.top, s.topsize, {p});
    LooseToBin(head, y.chunks, y.binned, 0, 0, s.top, s.topsize, {p, s.dv}, s.dv);
    assert {p} + {s.dv} == {p, s.dv};
    assert {p, s.dv} - {s.dv} == {p};
  }

  lemma NewDv(head: Heads, foot: map<int, int>, s: Spare, y: Layout, p: int)
    requires s.dv == 0 ==> HeapOk(head, foot, s, y, {p})
    requires s.dv != 0 ==> HeapOk(head, foot, s.(dv := 0, dvsize := 0), y, {p})
    ensures p in head
    ensures HeapOk(head, foot, s.(dv := p, dvsize := head[p].size), y, {})
  {
    hide HeapTiles, SegsOk, LiveOk, FencesOk;
    LooseToDv(head, y.chunks, y.binned, s.top, s.topsize, {p}, p);
    assert {p} - {p} == {};
  }

  lemma TreeSize(head: Heads, foot: map<int, int>, s: Spare, y: Layout, b: Bins, g: Trie, v: int)
    requires HeapOk(head, foot, s, y, {}) && BinnedIs(y.binned, b, g) && Member(g, v)
    ensures v in y.binned && v in y.chunks && v in head && BinnableSize(head[v].size) && v > 0 && v % 8 == 0
    ensures v !in y.live
  {
    hide SegsOk, FencesOk, Member;
    assert Binned(b, g, v);
    Positive(head, y.chunks, y.ends, v);
    hide HeapTiles;
  }

  // ---------------------------------------------------- cutting a block down

  lemma CutFree(head: Heads, chunks: set<int>, binned: set<int>, dv: int, dvsize: nat, top: int, topsize: nat,
                loose: set<int>, a: int, m: int, z: int)
    requires FreeOk(head, chunks, binned, dv, dvsize, top, topsize, loose) && a in chunks && 0 <= a < m < z
    requires head[a].cinuse
    requires forall c <- chunks :: a < c < z ==> c in loose
    requires forall c <- loose :: a < c < z
    requires BinnableSize(z - m)
    ensures FreeOk(SetPinuse(head[a := Head(m - a, head[a].pinuse, true)][m := Head(z - m, true, false)], z, false),
                   chunks - Inside(chunks, a, z) + {m}, binned, dv, dvsize, top, topsize, {m})
  {
  }

  lemma CutTop(head: Heads, chunks: set<int>, binned: set<int>, dv: int, dvsize: nat, top: int, topsize: nat,
               a: int, m: int, z: int)
    requires FreeOk(head, chunks, binned, dv, dvsize, top, topsize, {}) && a in chunks && 0 <= a < m < z
    requires head[a].cinuse && a < top < z && forall c <- chunks :: a < c < z ==> c == top
    requires z - m < SIZE_LIMIT
    ensures FreeOk(head[a := Head(m - a, head[a].pinuse, true)][m := Head(z - m, true, false)],
                   chunks - Inside(chunks, a, z) + {m}, binned, dv, dvsize, m, z - m, {})
  {
  }

  lemma CutLive(head: Heads, chunks: set<int>, live: map<int, nat>, pinned: set<int>, a: int, m: int, z: int, req: nat, h: Heads)
    requires LiveOk(head, chunks, live, pinned) && a in live && a < m < z
    requires forall c <- chunks :: a < c < z ==> !head[c].cinuse
    requires BinnableSize(m - a) && req + CHUNK_OVERHEAD <= m - a
    requires a in h && h[a].cinuse && h[a].size == m - a && m in h && !h[m].cinuse
    requires forall c <- chunks :: c != a && c != m ==> c in h && h[c].size == head[c].size && h[c].cinuse == head[c].cinuse
    ensures LiveOk(h, chunks - Inside(chunks, a, z) + {m}, live[a := req], pinned)
  {
  }

  /** The run from p to z holds block p and otherwise only the given free chunks. */
  ghost predicate BlockRun(head: Heads, y: Layout, free: set<int>, p: int, z: int) {
    && Run(head, y.chunks, p, z) && p in y.live
    && (forall c <- y.chunks :: p < c < z ==> c in free)
    && (forall c <- free :: p < c < z)
  }

  lemma BlockRunFacts(head: Heads, foot: map<int, int>, s: Spare, y: Layout, loose: set<int>, free: set<int>, p: int, z: int)
    requires HeapOk(head, foot, s, y, loose) && BlockRun(head, y, free, p, z)
    requires forall c <- free :: c in y.chunks ==> c in loose || c == s.top
    ensures p in y.chunks && p in head && head[p].cinuse && 0 < p < z < SIZE_LIMIT && (z - p) % 8 == 0 && p % 8 == 0
    ensures forall c <- y.chunks :: c in head
    ensures forall c <- y.chunks :: p < c < z ==> !head[c].cinuse
    ensures forall f <- y.pinned :: f in y.chunks ==> !(p <= f < z)
    ensures p != s.top
  {
    hide BasesOk, HasSeg, IsLimit, FlagsOk, FencesOk;
    RunSize(head, y, s.top, p, z);
    assert p in y.live;
    Positive(head, y.chunks, y.ends, p);
  }

  /** The block is cut to m - p bytes; what follows up to z is loose. */
  lemma CutBlockOk(head: Heads, foot: map<int, int>, s: Spare, y: Layout, loose: set<int>, p: int, m: int, z: int, req: nat)
    requires HeapOk(head, foot, s, y, loose) && BlockRun(head, y, loose, p, z)
    requires z in y.chunks && z in head && head[z].cinuse && !(p <= s.top < z)
    requires p < m && (m - p) % 8 == 0 && m - p >= MIN_CHUNK_SIZE && z - m >= MIN_CHUNK_SIZE && req + CHUNK_OVERHEAD <= m - p
    ensures p in head
    ensures HeapOk(SetPinuse(head[p := Head(m - p, head[p].pinuse, true)][m := Head(z - m, true, false)], z, false),
                   foot[z := z - m], s,
                   y.(chunks := y.chunks - Inside(y.chunks, p, z) + {m}, live := y.live[p := req]), {m})
  {
    hide TileOk, FlagsOk, Run, IsLimit, HasSeg, BasesOk, SegsApart, SegsOk, FencesOk, FreeOk, LiveOk, Inside;
    BlockRunFacts(head, foot, s, y, loose, loose, p, z);
    var head' := SetPinuse(head[p := Head(m - p, head[p].pinuse, true)][m := Head(z - m, true, false)], z, false);
    UseFront(head, foot, y.chunks, y.ends, s.top, p, m, z);
    CutFree(head, y.chunks, y.binned, s.dv, s.dvsize, s.top, s.topsize, loose, p, m, z);
    CutLive(head, y.chunks, y.live, y.pinned, p, m, z, req, head');
    SegsAfterRun(head, y.chunks, y.ends, s.top, y.segs, head', p, z, {m}, s.top);
    FencesAfterRun(head, y.chunks, y.pinned, y.segs, head', p, z, {m});
  }

  /** The block is cut or grown to m - p bytes; what follows is top. */
  lemma CutBlockTopOk(head: Heads, foot: map<int, int>, s: Spare, y: Layout, p: int, m: int, z: int, req: nat)
    requires HeapOk(head, foot, s, y, {}) && BlockRun(head, y, {s.top}, p, z)
    requires z !in y.chunks
    requires p < m < z && (m - p) % 8 == 0 && m - p >= MIN_CHUNK_SIZE && req + CHUNK_OVERHEAD <= m - p
    ensures p in head
    ensures HeapOk(head[p := Head(m - p, head[p].pinuse, true)][m := Head(z - m, true, false)], foot,
                   s.(top := m, topsize := z - m),
                   y.(chunks := y.chunks - Inside(y.chunks, p, z) + {m}, live := y.live[p := req]), {})
  {
    hide TileOk, FlagsOk, Run, IsLimit, HasSeg, BasesOk, SegsApart, SegsOk, FencesOk, FreeOk, LiveOk, Inside;
    BlockRunFacts(head, foot, s, y, {}, {s.top}, p, z);
    var head' := head[p := Head(m - p, head[p].pinuse, true)][m := Head(z - m, true, false)];
    UseTopFront(head, foot, y.chunks, y.ends, s.top, p, m, z);
    CutTop(head, y.chunks, y.binned, s.dv, s.dvsize, s.top, s.topsize, p, m, z);
    CutLive(head, y.chunks, y.live, y.pinned, p, m, z, req, head');
    SegsAfterRun(head, y.chunks, y.ends, s.top, y.segs, head', p, z, {m}, m);
    FencesAfterRun(head, y.chunks, y.pinned, y.segs, head', p, z, {m});
  }
}
