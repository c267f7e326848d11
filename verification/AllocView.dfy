// The invariant of a whole malloc_state, stated over the values of its fields, and
// the transitions of the larger operations (luajit/src/lj_alloc.c).

module AllocView {
  import opened AllocSizes
  import opened AllocRing
  import opened AllocTile
  import opened AllocState
  import opened AllocSmall
  import opened AllocTrie
  import opened AllocRegion
  import opened AllocSearch
  import opened AllocSegment
  import opened AllocFree

  /** The memory words and fields that the invariant is about. */
  datatype View = View(head: Heads, foot: map<int, int>, fd: Word, bk: Word, links: Links, smallmap: set<nat>,
                       treemap: set<nat>, treebins: seq<int>, segs: seq<Segment>)

  /** What the bins hold. */
  datatype Holdings = Holdings(small: Bins, trie: Trie)

  ghost predicate StateOk(v: View, w: Holdings, s: Spare, y: Layout, loose: set<int>) {
    && AllBinsOk(v.head, v.links, v.fd, v.bk, v.smallmap, v.treebins, v.treemap, w.small, w.trie)
    && BinnedIs(y.binned, w.small, w.trie)
    && y.segs == v.segs
    && HeapOk(v.head, v.foot, s, y, loose)
  }

  /** Rewriting heads and feet while the bins stand still. */
  lemma Rewrite(v: View, w: Holdings, s: Spare, y: Layout, loose: set<int>,
                head': Heads, foot': map<int, int>, segs': seq<Segment>, s': Spare, y': Layout, loose': set<int>)
    requires StateOk(v, w, s, y, loose) && HeapOk(head', foot', s', y', loose')
    requires y'.binned == y.binned && y'.segs == segs'
    requires forall z <- y.binned :: z in v.head && z in head' && head'[z].size == v.head[z].size
    ensures StateOk(v.(head := head', foot := foot', segs := segs'), w, s', y', loose')
  {
    hide AllBinsOk, HeapOk, BinnedIs;
    BinsKeep(v.head, v.links, v.fd, v.bk, v.smallmap, v.treebins, v.treemap, w.small, w.trie, y.binned, head');
  }

  // ---------------------------------------------------------- system allocation

  lemma PrependTopView(v: View, w: Holdings, s: Spare, y: Layout, i: nat, g: Segment, nb: nat, req: nat)
    requires StateOk(v, w, s, y, {}) && FreshRegion(v.segs, g) && i < |v.segs| && g.base + g.size == v.segs[i].base == s.top
    requires nb % 8 == 0 && MIN_CHUNK_SIZE <= nb < g.size && req + CHUNK_OVERHEAD <= nb
    ensures var q, n := g.base + nb, s.topsize + (g.size - nb);
      && y.segs == v.segs
      && StateOk(v.(head := v.head[g.base := Head(nb, true, true)][q := Head(n, true, false)], segs := ExtendedSegs(v.segs, i, g)),
                 w, s.(top := q, topsize := n), PrependLayout(y, i, g, q, s.top + s.topsize, req), {})
  {
    hide AllBinsOk, HeapOk, BinnedIs, FreshRegion, PrependLayout, ExtendedSegs;
    var q, n := g.base + nb, s.topsize + (g.size - nb);
    RegionEmpty(v.head, v.foot, s, y, {}, g);
    PrependTop(v.head, v.foot, s, y, i, g, nb, req);
    Rewrite(v, w, s, y, {}, v.head[g.base := Head(nb, true, true)][q := Head(n, true, false)], v.foot,
            ExtendedSegs(v.segs, i, g), s.(top := q, topsize := n), PrependLayout(y, i, g, q, s.top + s.topsize, req), {});
  }

  lemma PrependDvView(v: View, w: Holdings, s: Spare, y: Layout, i: nat, g: Segment, nb: nat, req: nat)
    requires StateOk(v, w, s, y, {}) && FreshRegion(v.segs, g) && i < |v.segs| && g.base + g.size == v.segs[i].base
    requires v.segs[i].base == s.dv != s.top
    requires nb % 8 == 0 && MIN_CHUNK_SIZE <= nb && nb + MIN_CHUNK_SIZE <= g.size && req + CHUNK_OVERHEAD <= nb
    ensures var q, n := g.base + nb, s.dvsize + (g.size - nb);
      && y.segs == v.segs
      && StateOk(v.(head := v.head[g.base := Head(nb, true, true)][q := Head(n, true, false)], foot := v.foot[q + n := n],
                    segs := ExtendedSegs(v.segs, i, g)),
                 w, s.(dv := q, dvsize := n), PrependLayout(y, i, g, q, s.dv + s.dvsize, req), {})
  {
    hide AllBinsOk, HeapOk, BinnedIs, FreshRegion, PrependLayout, ExtendedSegs;
    var q, n := g.base + nb, s.dvsize + (g.size - nb);
    PrependDv(v.head, v.foot, s, y, i, g, nb, req);
    Rewrite(v, w, s, y, {}, v.head[g.base := Head(nb, true, true)][q := Head(n, true, false)], v.foot[q + n := n],
            ExtendedSegs(v.segs, i, g), s.(dv := q, dvsize := n), PrependLayout(y, i, g, q, s.dv + s.dvsize, req), {});
  }

  function LooseHeads(head: Heads, p: int, nb: nat, q: int, n: nat, z: int): Heads {
    SetPinuse(head[p := Head(nb, true, true)][q := Head(n, true, false)], z, false)
  }

  lemma PrependLooseView(v: View, w: Holdings, s: Spare, y: Layout, loose: set<int>, i: nat, g: Segment, nb: nat, n: nat,
                         z: int, req: nat)
    requires i < |v.segs| && g.base + nb + n == z && nb % 8 == 0
    requires StateOk(v, w, s, y, loose) && FreshRegion(v.segs, g) && g.base + g.size == v.segs[i].base
    requires v.segs[i].base != s.top && z in y.chunks && z in v.head && v.head[z].cinuse
    requires MIN_CHUNK_SIZE <= nb && nb + MIN_CHUNK_SIZE <= g.size && req + CHUNK_OVERHEAD <= nb
    requires (z == v.segs[i].base && loose == {}) || (z == Next(v.head, v.segs[i].base) && loose == {v.segs[i].base})
    ensures y.segs == v.segs && n > 0 && z != g.base
    ensures g.base + nb in LooseHeads(v.head, g.base, nb, g.base + nb, n, z)
    ensures LooseHeads(v.head, g.base, nb, g.base + nb, n, z)[g.base + nb].size == n
    ensures StateOk(v.(head := LooseHeads(v.head, g.base, nb, g.base + nb, n, z), foot := v.foot[z := n],
                       segs := ExtendedSegs(v.segs, i, g)),
                    w, s, PrependLayout(y, i, g, g.base + nb, z, req), {g.base + nb})
  {
    hide AllBinsOk, HeapOk, BinnedIs, FreshRegion, PrependLayout, ExtendedSegs;
    var q := g.base + nb;
    RegionEmpty(v.head, v.foot, s, y, loose, g);
    PrependRest(v.head, v.foot, s, y, loose, i, g, nb, req, z);
    FirstFacts(v.head, v.foot, s, y, loose, i);
    Rewrite(v, w, s, y, loose, LooseHeads(v.head, g.base, nb, q, n, z), v.foot[z := n], ExtendedSegs(v.segs, i, g), s,
            PrependLayout(y, i, g, q, z, req), {q});
  }

  /** The front of top is handed out. */
  lemma SplitTopView(v: View, w: Holdings, s: Spare, y: Layout, nb: nat, req: nat)
    requires StateOk(v, w, s, y, {}) && nb % 8 == 0 && MIN_CHUNK_SIZE <= nb < s.topsize && req + CHUNK_OVERHEAD <= nb
    ensures var m, n := s.top + nb, s.topsize - nb;
      && s.top > 0 && s.top % 8 == 0 && s.top !in y.live
      && StateOk(v.(head := v.head[m := Head(n, true, false)][s.top := Head(nb, true, true)]), w, s.(top := m, topsize := n),
                 y.(chunks := y.chunks + {m}, live := y.live[s.top := req]), {})
  {
    hide AllBinsOk, HeapOk, BinnedIs;
    var m, n := s.top + nb, s.topsize - nb;
    DvFacts(v.head, v.foot, s, y, {});
    TopApart(v.head, v.foot, s, y);
    UseTopOk(v.head, v.foot, s, y, nb, req);
    var h := v.head[s.top := Head(nb, true, true)][m := Head(n, true, false)];
    assert h == v.head[m := Head(n, true, false)][s.top := Head(nb, true, true)];
    Rewrite(v, w, s, y, {}, h, v.foot, v.segs, s.(top := m, topsize := n),
            y.(chunks := y.chunks + {m}, live := y.live[s.top := req]), {});
  }

  /** The region extends the current segment and top. */
  lemma AppendView(v: View, w: Holdings, s: Spare, y: Layout, g: Segment)
    requires StateOk(v, w, s, y, {}) && FreshRegion(v.segs, g) && |v.segs| > 0 && g.base == v.segs[0].base + v.segs[0].size
    ensures y.segs == v.segs
    ensures var l, n := Limit(v.segs, 0), s.topsize + g.size;
      StateOk(v.(head := v.head[s.top := Head(n, true, false)], segs := GrownSegs(v.segs, g.size)), w, s.(topsize := n),
              y.(ends := y.ends - {l} + {l + g.size}, segs := GrownSegs(v.segs, g.size)), {})
  {
    hide AllBinsOk, HeapOk, BinnedIs, FreshRegion, GrownSegs, Limit;
    var l, n := Limit(v.segs, 0), s.topsize + g.size;
    AppendOk(v.head, v.foot, s, y, g);
    TopApart(v.head, v.foot, s, y);
    Rewrite(v, w, s, y, {}, v.head[s.top := Head(n, true, false)], v.foot, GrownSegs(v.segs, g.size), s.(topsize := n),
            y.(ends := y.ends - {l} + {l + g.size}, segs := GrownSegs(v.segs, g.size)), {});
  }

  /** The region becomes a segment of its own; the old top is retired. */
  lemma AddSegmentView(v: View, w: Holdings, s: Spare, y: Layout, g: Segment, sp: int, e: int, n: nat)
    requires |v.segs| > 0 && sp == RecordAt(s.top, s.topsize) && e == EndOfOld(v.segs) && n + TOP_FOOT_SIZE == g.size
    requires FreshRegion(v.segs, g) && StateOk(v, w, s, y, {})
    ensures s.top <= sp && y.segs == v.segs && sp + RECORD_SIZE < e && (e - sp) % 8 == 0
    ensures s.top != g.base && g.base !in RetiredSet(s.top, sp, e)
    ensures StateOk(v.(head := RetiredHead(v.head, s.top, sp, e)[g.base := Head(n, true, false)],
                       foot := RetiredFoot(v.foot, s.top, sp), segs := PushedSegs(v.segs, g)),
                    w, s.(top := g.base, topsize := n),
                    y.(chunks := y.chunks + RetiredSet(s.top, sp, e) + {g.base}, ends := RetiredEnds(y.segs, y.ends, g),
                       pinned := y.pinned + RetiredPins(sp, e), segs := PushedSegs(y.segs, g)),
                    RetiredLoose(s.top, sp))
  {
    hide AllBinsOk, HeapOk, BinnedIs, FreshRegion, RetiredHead, RetiredSet, RetiredFoot, RetiredEnds, RetiredPins,
      RetiredLoose, PushedSegs;
    AddSegmentOk(v.head, v.foot, s, y, g);
    assert Spare(s.dv, s.dvsize, g.base, n) == s.(top := g.base, topsize := n);
    Rewrite(v, w, s, y, {}, RetiredHead(v.head, s.top, sp, e)[g.base := Head(n, true, false)], RetiredFoot(v.foot, s.top, sp),
            PushedSegs(v.segs, g), s.(top := g.base, topsize := n),
            y.(chunks := y.chunks + RetiredSet(s.top, sp, e) + {g.base}, ends := RetiredEnds(y.segs, y.ends, g),
               pinned := y.pinned + RetiredPins(sp, e), segs := PushedSegs(y.segs, g)), RetiredLoose(s.top, sp));
  }

  /** What the code reads off the current segment when it retires top. */
  lemma CurrentSegment(v: View, w: Holdings, s: Spare, y: Layout)
    requires StateOk(v, w, s, y, {})
    ensures |v.segs| > 0 && s.top > 0 && s.top % 8 == 0 && s.topsize % 8 == 0 && s.topsize > 0
    ensures v.segs[0].base + v.segs[0].size == s.top + s.topsize + TOP_FOOT_SIZE
    ensures forall i :: 0 <= i < |v.segs| ==> (Holds(v.segs[i], s.top) <==> i == 0)
    ensures forall i :: 0 <= i < |v.segs| ==> v.segs[i].size > 0
    ensures s.top in v.head && v.head[s.top].size == s.topsize
  {
    hide AllBinsOk, BinnedIs, HeapTiles, SegsOk, LiveOk, FencesOk;
    DvFacts(v.head, v.foot, s, y, {});
    OldSize(v.head, v.foot, y, s);
    forall i | 0 <= i < |v.segs|
      ensures (Holds(v.segs[i], s.top) <==> i == 0) && v.segs[i].size > 0
    {
      OnlyFirstHolds(v.head, y, s.top, i);
      SegSize(v.head, y, s.top, i);
    }
  }

  lemma SegSize(head: Heads, y: Layout, top: int, i: nat)
    requires SegsOk(head, y.chunks, y.ends, top, y.segs) && i < |y.segs|
    ensures y.segs[i].size > 0
  {
    assert SegmentOk(y.segs[i]);
  }

  // ------------------------------------------------------------- malloc and free

  /** A loose chunk is no block, and aligned. */
  lemma LooseView(v: View, w: Holdings, s: Spare, y: Layout, p: int)
    requires StateOk(v, w, s, y, {p})
    ensures p in v.head && p > 0 && p % 8 == 0 && p !in y.live && BinnableSize(v.head[p].size)
  {
    hide AllBinsOk, BinnedIs, SegsOk, FencesOk, FlagsOk;
    LooseApart(v.head, v.foot, s, y, p);
    Positive(v.head, y.chunks, y.ends, p);
  }

  lemma DvView(v: View, w: Holdings, s: Spare, y: Layout)
    requires StateOk(v, w, s, y, {})
    ensures s.dvsize == 0 <==> s.dv == 0
    ensures s.dv != 0 ==> s.dv in v.head && v.head[s.dv].size == s.dvsize && BinnableSize(s.dvsize)
    ensures s.dvsize < SIZE_LIMIT && s.topsize < SIZE_LIMIT
  {
    hide AllBinsOk, BinnedIs, HeapOk;
    DvFacts(v.head, v.foot, s, y, {});
  }

  /** dv is taken in hand. */
  lemma DvLooseView(v: View, w: Holdings, s: Spare, y: Layout)
    requires StateOk(v, w, s, y, {}) && s.dv != 0
    ensures StateOk(v, w, s.(dv := 0, dvsize := 0), y, {s.dv})
  {
    hide AllBinsOk, BinnedIs, HeapOk;
    DvLoose(v.head, v.foot, s, y, {});
    assert {} + {s.dv} == {s.dv};
  }

  /** The loose chunk becomes dv. */
  lemma NewDvView(v: View, w: Holdings, s: Spare, y: Layout, p: int)
    requires StateOk(v, w, s, y, {p}) && s.dv == 0
    ensures p in v.head && StateOk(v, w, s.(dv := p, dvsize := v.head[p].size), y, {})
  {
    hide AllBinsOk, BinnedIs, HeapOk;
    NewDv(v.head, v.foot, s, y, p);
  }

  lemma NoRoomView(v: View, w: Holdings, s: Spare, y: Layout, nb: nat)
    requires StateOk(v, w, s, y, {}) && nb % 8 == 0 && s.dvsize < nb && s.topsize <= nb
    requires nb < MIN_LARGE_SIZE ==> v.treemap == {} && forall i :: i in v.smallmap && i < NSMALLBINS ==> i < nb / 8
    requires nb >= MIN_LARGE_SIZE ==> v.treemap == {} || NoFit(w.trie, nb)
    ensures NoRoom(v.head, s, y, nb)
  {
    hide AllBinsOk, BinnedIs, HeapOk, NoRoom, NoFit;
    if nb < MIN_LARGE_SIZE {
      NoRoomSmall(v.head, v.links, v.fd, v.bk, v.smallmap, v.treebins, v.treemap, w.small, w.trie, s, y, nb);
    } else {
      NoRoomLarge(v.head, v.links, v.fd, v.bk, v.smallmap, v.treebins, v.treemap, w.small, w.trie, s, y, nb);
    }
  }

  lemma NoFitOrDv(g: Trie, nb: nat, dvsize: nat)
    requires dvsize < nb
    ensures !DvFitsBest(g, nb, dvsize)
  {
  }

  /** The layout once block p and free neighbours are one chunk from a to z. */
  ghost function FreedLayout(y: Layout, p: int, a: int, z: int): (r: Layout)
    ensures r.live == y.live - {p} && r.binned == y.binned && r.segs == y.segs
  {
    y.(chunks := y.chunks - Inside(y.chunks, a, z), live := y.live - {p})
  }

  /** Chunk n behind block p, as free sees it. */
  ghost predicate NextOk(head: Heads, s: Spare, y: Layout, p: int, n: int) {
    && n in y.chunks && n in head && head[n].pinuse && n > p && n == Next(head, p)
    && (!head[n].cinuse ==> n == s.top || n == s.dv || n in y.binned)
    && (!head[n].cinuse && n != s.top ==>
          (head[n].size > 0 && Next(head, n) in y.chunks && Next(head, n) in head
           && head[Next(head, n)].cinuse && !head[Next(head, n)].pinuse))
    && (n == s.top ==> !head[n].cinuse && Next(head, n) !in y.chunks)
  }

  /** The chunk p from which free goes on: the block p0 itself, or a free chunk before it. */
  ghost predicate FreeFrom(head: Heads, s: Spare, y: Layout, loose: set<int>, p0: int, p: int) {
    && p0 in y.live && p0 in head && p in head && head[p].pinuse && p != s.top && p in y.chunks && p <= p0
    && (p == p0 || (Next(head, p) == p0 && p != p0))
    && loose == {p} - {p0}
  }

  lemma FreeFromKeep(head: Heads, s: Spare, y: Layout, loose: set<int>, p0: int, p: int, b: set<int>)
    requires FreeFrom(head, s, y, loose, p0, p)
    ensures FreeFrom(head, s, y.(binned := b), loose, p0, p) && p0 in y.live
  {
  }

  lemma NextKeep(head: Heads, s: Spare, y: Layout, p0: int, n: int, x: int)
    requires NextOk(head, s, y, p0, n) && x != n
    ensures NextOk(head, s, y.(binned := y.binned - {x}), p0, n)
  {
  }

  lemma DvInHand(head: Heads, s: Spare, y: Layout, loose: set<int>, p0: int, p: int, n: int)
    requires NextOk(head, s, y, p0, n) && FreeFrom(head, s, y, loose, p0, p) && n != s.dv
    ensures NextOk(head, s.(dv := 0, dvsize := 0), y, p0, n) && FreeFrom(head, s.(dv := 0, dvsize := 0), y, loose, p0, p)
  {
  }

  lemma FreeStart(v: View, w: Holdings, s: Spare, y: Layout, p: int)
    requires StateOk(v, w, s, y, {}) && p in y.live
    ensures p in v.head && v.head[p].cinuse && p > 0 && p % 8 == 0 && p in y.chunks && p != s.top && p != s.dv
    ensures NextOk(v.head, s, y, p, p + v.head[p].size)
    ensures BinnableSize(v.head[p].size) && y.live[p] + CHUNK_OVERHEAD <= v.head[p].size
    ensures s.dv != 0 ==> s.dv > 0
    ensures v.head[p].pinuse ==> FreeFrom(v.head, s, y, {}, p, p)
    ensures !v.head[p].pinuse ==>
      var u := p - Rd(v.foot, p);
      && u in v.head && v.head[u].size == Rd(v.foot, p) > 0 && u > 0 && FreeFrom(v.head, s, y, {u}, p, u)
      && (u == s.dv || u in y.binned) && u != s.top && u != p && u != p + v.head[p].size
  {
    hide AllBinsOk, BinnedIs, HeapOk;
    NextFacts(v.head, v.foot, s, y, p);
    NotSpare(v.head, v.foot, s, y, p);
    DvFacts(v.head, v.foot, s, y, {});
    if !v.head[p].pinuse {
      PrevFacts(v.head, v.foot, s, y, p);
      var u := p - Rd(v.foot, p);
      assert {u} - {p} == {u};
    } else {
      assert {p} - {p} == {};
    }
  }

  lemma NotSpare(head: Heads, foot: map<int, int>, s: Spare, y: Layout, p: int)
    requires HeapOk(head, foot, s, y, {}) && p in y.live
    ensures p != s.top && p != s.dv
  {
    hide HeapTiles, SegsOk, FencesOk;
    assert p in y.chunks;
    assert 0 !in y.chunks;
  }

  /** The merged chunk is written: its head, its foot and the bit behind it. */
  lemma FreeRunView(v: View, w: Holdings, s: Spare, y: Layout, loose: set<int>, p: int, a: int, z: int, n: nat)
    requires StateOk(v, w, s, y, loose) && FreedRun(v.head, s, y, loose, p, a, z)
    requires z in y.chunks && z in v.head && v.head[z].cinuse && !(a <= s.top < z) && n == z - a
    ensures StateOk(v.(head := SetPinuse(v.head[a := Head(n, true, false)], z, false), foot := v.foot[z := n]), w, s,
                    FreedLayout(y, p, a, z), {a})
    ensures a in y.chunks && p in y.live
  {
    hide AllBinsOk, BinnedIs, HeapOk;
    FreeRunOk(v.head, v.foot, s, y, loose, p, a, z);
    RunNotBinned(v.head, v.foot, s, y, loose, p, a, z);
    Rewrite(v, w, s, y, loose, SetPinuse(v.head[a := Head(n, true, false)], z, false), v.foot[z := n], v.segs, s,
            FreedLayout(y, p, a, z), {a});
  }

  lemma RunNotBinned(head: Heads, foot: map<int, int>, s: Spare, y: Layout, loose: set<int>, p: int, a: int, z: int)
    requires HeapOk(head, foot, s, y, loose) && FreedRun(head, s, y, loose, p, a, z)
    ensures a !in y.binned && (forall c <- y.binned :: c in head) && a in y.chunks
  {
    hide HeapTiles, SegsOk, FencesOk;
    assert a in y.chunks && a < z by { hide FreeOk, LiveOk; }
    assert p in y.live && p in y.chunks && head[p].cinuse;
  }

  lemma FreeTopView(v: View, w: Holdings, s: Spare, y: Layout, loose: set<int>, p: int, a: int, z: int, n: nat)
    requires StateOk(v, w, s, y, loose) && FreedRun(v.head, s, y, loose, p, a, z)
    requires z !in y.chunks && a <= s.top < z && n == z - a
    ensures StateOk(v.(head := v.head[a := Head(n, true, false)]), w, s.(top := a, topsize := n), FreedLayout(y, p, a, z), {})
  {
    hide AllBinsOk, BinnedIs, HeapOk;
    FreeTopOk(v.head, v.foot, s, y, loose, p, a, z);
    RunNotBinned(v.head, v.foot, s, y, loose, p, a, z);
    Rewrite(v, w, s, y, loose, v.head[a := Head(n, true, false)], v.foot, v.segs, s.(top := a, topsize := n),
            FreedLayout(y, p, a, z), {});
  }

  // The four ways in which free goes on from p.

  lemma MergeNone(v: View, w: Holdings, s: Spare, y: Layout, loose: set<int>, p0: int, p: int, n: nat)
    requires StateOk(v, w, s, y, loose) && FreeFrom(v.head, s, y, loose, p0, p) && NextOk(v.head, s, y, p0, p + n)
    requires v.head[p + n].cinuse
    ensures StateOk(v.(head := SetPinuse(v.head[p := Head(n, true, false)], p + n, false), foot := v.foot[p + n := n]), w, s,
                    FreedLayout(y, p0, p, p + n), {p})
  {
    hide AllBinsOk, BinnedIs, HeapOk;
    Span(v.head, v.foot, s, y, loose, p0, p, p + n);
    FreeRunView(v, w, s, y, loose, p0, p, p + n, n);
  }

  lemma MergeTopView(v: View, w: Holdings, s: Spare, y: Layout, loose: set<int>, p0: int, p: int, n: nat)
    requires StateOk(v, w, s, y, loose) && FreeFrom(v.head, s, y, loose, p0, p) && NextOk(v.head, s, y, p0, p + n)
    requires p + n == s.top
    ensures StateOk(v.(head := v.head[p := Head(n + s.topsize, true, false)]), w, s.(top := p, topsize := n + s.topsize),
                    FreedLayout(y, p0, p, p + n + s.topsize), {})
  {
    hide AllBinsOk, BinnedIs, HeapOk;
    DvFacts(v.head, v.foot, s, y, loose);
    var z := p + n + s.topsize;
    Span(v.head, v.foot, s, y, loose, p0, p, z);
    FreeTopView(v, w, s, y, loose, p0, p, z, n + s.topsize);
  }

  /** The free chunk behind, of m bytes, is in hand as well. */
  lemma MergeNext(v: View, w: Holdings, s: Spare, y: Layout, loose: set<int>, p0: int, p: int, n: nat, m: nat)
    requires StateOk(v, w, s, y, loose + {p + n}) && FreeFrom(v.head, s, y, loose, p0, p)
    requires p + n in y.chunks && p + n == Next(v.head, p0) && p + n in v.head && v.head[p + n].size == m > 0
    requires p + n != s.top && p + n > p0
    requires p + n + m in y.chunks && p + n + m in v.head && v.head[p + n + m].cinuse && !v.head[p + n + m].pinuse
    ensures StateOk(v.(head := v.head[p := Head(n + m, true, false)], foot := v.foot[p + (n + m) := n + m]), w, s,
                    FreedLayout(y, p0, p, p + (n + m)), {p})
  {
    hide AllBinsOk, BinnedIs, HeapOk;
    var z := p + (n + m);
    assert loose + {p + n} == {p, Next(v.head, p0)} - {p0} - {s.top};
    Span(v.head, v.foot, s, y, loose + {p + n}, p0, p, z);
    FreeRunView(v, w, s, y, loose + {p + n}, p0, p, z, n + m);
    SamePinuse(v.head[p := Head(n + m, true, false)], z, false);
  }

  /** dv lies behind and grows downwards. */
  lemma MergeDv(v: View, w: Holdings, s: Spare, y: Layout, loose: set<int>, p0: int, p: int, n: nat)
    requires StateOk(v, w, s, y, loose) && FreeFrom(v.head, s, y, loose, p0, p) && NextOk(v.head, s, y, p0, p + n)
    requires p + n == s.dv != s.top && !v.head[p + n].cinuse && s.dv != 0
    ensures StateOk(v.(head := v.head[p := Head(n + s.dvsize, true, false)], foot := v.foot[p + (n + s.dvsize) := n + s.dvsize]),
                    w, s.(dv := p, dvsize := n + s.dvsize), FreedLayout(y, p0, p, p + (n + s.dvsize)), {})
  {
    hide AllBinsOk, BinnedIs, HeapOk;
    DvFacts(v.head, v.foot, s, y, loose);
    DvLoose(v.head, v.foot, s, y, loose);
    var m := s.dvsize;
    MergeNext(v, w, s.(dv := 0, dvsize := 0), y, loose, p0, p, n, m);
    NewDvView(v.(head := v.head[p := Head(n + m, true, false)], foot := v.foot[p + (n + m) := n + m]), w,
              s.(dv := 0, dvsize := 0), FreedLayout(y, p0, p, p + (n + m)), p);
  }

  // ------------------------------------------------------------------ realloc

  /** A block's request can be restated within its chunk. */
  lemma Relabel(v: View, w: Holdings, s: Spare, y: Layout, p: int, req: nat)
    requires StateOk(v, w, s, y, {}) && p in y.live
    requires p in v.head && req + CHUNK_OVERHEAD <= v.head[p].size
    ensures StateOk(v, w, s, y.(live := y.live[p := req]), {})
  {
    hide AllBinsOk, BinnedIs, HeapTiles, SegsOk, FencesOk, FreeOk, BinnableSize;
  }

  lemma CutBothView(v: View, w: Holdings, s: Spare, y: Layout, p: int, nb: nat, n: nat, req: nat, rest: nat)
    requires nb % 8 == 0 && nb >= MIN_CHUNK_SIZE && req + CHUNK_OVERHEAD <= nb
    requires n >= MIN_CHUNK_SIZE && rest + CHUNK_OVERHEAD <= n
    requires p in y.live && p in v.head && v.head[p].size == nb + n
    requires StateOk(v, w, s, y, {})
    ensures p + nb !in y.live && p + nb != p
    ensures StateOk(v.(head := CutInTwo(v.head, p, p + nb, p + nb + n)), w, s,
                    y.(chunks := y.chunks + {p + nb}, live := TwoBlocks(y.live, p, req, p + nb, rest)), {})
  {
    hide AllBinsOk, BinnedIs, HeapOk;
    var m, z := p + nb, p + nb + n;
    CutBothOk(v.head, v.foot, s, y, p, m, z, req, rest);
    LiveNotBinned(v.head, v.foot, s, y, p, m);
    Rewrite(v, w, s, y, {}, CutInTwo(v.head, p, m, z), v.foot, v.segs, s,
            y.(chunks := y.chunks + {m}, live := TwoBlocks(y.live, p, req, m, rest)), {});
  }

  lemma LiveNotBinned(head: Heads, foot: map<int, int>, s: Spare, y: Layout, p: int, m: int)
    requires HeapOk(head, foot, s, y, {}) && p in y.live && m !in y.chunks
    ensures p !in y.binned && m !in y.binned && m !in y.live && m != p && forall c <- y.binned :: c in head
  {
    hide HeapTiles, SegsOk, FencesOk;
    assert p in y.chunks;
  }

  /** The block grows into top. */
  lemma GrowTopView(v: View, w: Holdings, s: Spare, y: Layout, p: int, nb: nat, n: nat, req: nat)
    requires nb % 8 == 0 && nb >= MIN_CHUNK_SIZE && req + CHUNK_OVERHEAD <= nb && n > 0
    requires p in y.live && p in v.head && p + v.head[p].size == s.top && v.head[p].size + s.topsize == nb + n
    requires StateOk(v, w, s, y, {})
    ensures StateOk(v.(head := v.head[p := Head(nb, v.head[p].pinuse, true)][p + nb := Head(n, true, false)]), w,
                    s.(top := p + nb, topsize := n), GrownLayout(y, p, p + nb, p + nb + n, req), {})
  {
    hide AllBinsOk, BinnedIs, HeapOk;
    var m, z := p + nb, p + nb + n;
    NextFacts(v.head, v.foot, s, y, p);
    DvFacts(v.head, v.foot, s, y, {});
    PrependRun(v.head, v.foot, s, y, {}, {s.top}, p, s.top, z);
    CutBlockTopOk(v.head, v.foot, s, y, p, m, z, req);
    GrownApart(v.head, v.foot, s, y, p, z);
    Rewrite(v, w, s, y, {}, v.head[p := Head(nb, v.head[p].pinuse, true)][m := Head(n, true, false)], v.foot, v.segs,
            s.(top := m, topsize := n), GrownLayout(y, p, m, z, req), {});
  }

  ghost function GrownLayout(y: Layout, p: int, m: int, z: int, req: nat): (r: Layout)
    ensures r.live == y.live[p := req] && r.binned == y.binned && r.segs == y.segs
  {
    y.(chunks := y.chunks - Inside(y.chunks, p, z) + {m}, live := y.live[p := req])
  }

  lemma GrownApart(head: Heads, foot: map<int, int>, s: Spare, y: Layout, p: int, z: int)
    requires HeapOk(head, foot, s, y, {}) && BlockRun(head, y, {s.top}, p, z)
    ensures forall c <- y.binned :: c in head && (c <= p || z <= c) && c != p
  {
    hide HeapTiles, SegsOk, FencesOk, Run;
    assert p in y.chunks;
  }

  // --------------------------------------------------------- what clients rely on

  /** Live blocks are aligned, at least as large as requested, lie in a segment, and
      no two of them share a byte. The payload of block p is the range from p + 16
      up to the first word of the next chunk, which a block in use borrows. */
  lemma BlocksSafe(v: View, w: Holdings, s: Spare, y: Layout, loose: set<int>)
    requires StateOk(v, w, s, y, loose)
    ensures forall p <- y.live :: p in v.head && (p + 16) % 8 == 0 && p > 0 && y.live[p] <= v.head[p].size - CHUNK_OVERHEAD
    ensures forall p: int, q: int :: p in y.live && q in y.live && p < q ==> p in v.head && p + 16 + (v.head[p].size - CHUNK_OVERHEAD) < q + 16
    ensures forall p <- y.live :: HasPayload(v.segs, p + 16, v.head[p].size - CHUNK_OVERHEAD)
  {
    hide AllBinsOk, BinnedIs, FlagsOk, FreeOk, FencesOk, SegsOk, HasPayload;
    forall p <- y.live
      ensures p in v.head && p > 0 && p % 8 == 0
    {
      assert p in y.chunks;
      Positive(v.head, y.chunks, y.ends, p);
    }
    forall p: int, q: int | p in y.live && q in y.live && p < q
      ensures p + v.head[p].size <= q
    {
      assert p in y.chunks && q in y.chunks && Next(v.head, p) <= q;
    }
    forall p <- y.live
      ensures HasPayload(v.segs, p + 16, v.head[p].size - CHUNK_OVERHEAD)
    {
      PayloadHeld(v.head, y, s.top, p);
    }
  }

  /** Some segment holds the n bytes from a. */
  ghost predicate HasPayload(segs: seq<Segment>, a: int, n: int) {
    exists i :: 0 <= i < |segs| && segs[i].base <= a && a + n <= segs[i].base + segs[i].size
  }

  lemma PayloadHeld(head: Heads, y: Layout, top: int, p: int)
    requires TileOk(head, y.chunks, y.ends) && SegsOk(head, y.chunks, y.ends, top, y.segs) && p in y.chunks && p in head
    ensures HasPayload(y.segs, p + 16, head[p].size - CHUNK_OVERHEAD)
  {
    var i := ChunkBounds(head, y.chunks, y.ends, top, y.segs, p);
    hide TileOk, SegsOk;
    assert Limit(y.segs, i) + 8 <= y.segs[i].base + y.segs[i].size;
  }

  // ------------------------------------------------------------------- creation

  /** pad_request(sizeof(struct malloc_state)) */
  const STATE_SIZE := 872

  function FirstHeads(tbase: int): Heads {
    map[tbase := Head(STATE_SIZE, true, true),
        tbase + STATE_SIZE := Head(DEFAULT_GRANULARITY - STATE_SIZE - TOP_FOOT_SIZE, true, false)]
  }

  function FirstSpare(tbase: int): Spare {
    Spare(0, 0, tbase + STATE_SIZE, DEFAULT_GRANULARITY - STATE_SIZE - TOP_FOOT_SIZE)
  }

  ghost function FirstLayout(tbase: int): (y: Layout)
    ensures y.live == map[] && y.segs == [Segment(tbase, DEFAULT_GRANULARITY)]
  {
    Layout({tbase, tbase + STATE_SIZE}, {tbase + DEFAULT_GRANULARITY - TOP_FOOT_SIZE}, {}, map[], {tbase},
           [Segment(tbase, DEFAULT_GRANULARITY)])
  }

  function FirstView(tbase: int, fd: Word): View {
    View(FirstHeads(tbase), map[], fd, fd, Links(map[], map[], map[], map[]), {}, {}, seq(NTREEBINS, _ => 0),
         [Segment(tbase, DEFAULT_GRANULARITY)])
  }

  /** init_bins: every small bin's list head points to itself. */
  function InitBins(): Word { map i: nat | i < NSMALLBINS :: SmallBinAt(i) := SmallBinAt(i) }

  function EmptyHoldings(): Holdings { Holdings(seq(NSMALLBINS, _ => []), Trie(map[], map[], map[])) }

  lemma FirstTiles(tbase: int)
    requires FreshRegion([], Segment(tbase, DEFAULT_GRANULARITY))
    ensures var y := FirstLayout(tbase); HeapTiles(FirstHeads(tbase), map[], y.chunks, y.ends, FirstSpare(tbase).top)
  {
    hide FreshRegion;
    RegionFacts([], Segment(tbase, DEFAULT_GRANULARITY));
    hide SegmentOk;
    var h, y, t := FirstHeads(tbase), FirstLayout(tbase), tbase + STATE_SIZE;
    assert ChunkOk(h, tbase) && ChunkOk(h, t) && Next(h, tbase) == t && Next(h, t) == tbase + DEFAULT_GRANULARITY - TOP_FOOT_SIZE;
    assert BorderOk(h, map[], y.chunks, tbase) && BorderOk(h, map[], y.chunks, t);
    assert BackOk(h, map[], y.chunks, tbase) && BackOk(h, map[], y.chunks, t);
  }

  lemma FirstSegs(tbase: int)
    requires FreshRegion([], Segment(tbase, DEFAULT_GRANULARITY))
    ensures var y, h, t := FirstLayout(tbase), FirstHeads(tbase), FirstSpare(tbase).top;
      SegsOk(h, y.chunks, y.ends, t, y.segs) && FencesOk(h, y.chunks, y.pinned, y.segs)
  {
    var y, h, t := FirstLayout(tbase), FirstHeads(tbase), FirstSpare(tbase).top;
    assert SegmentOk(y.segs[0]);
    InSegHas(y.segs, 0, tbase);
    InSegHas(y.segs, 0, t);
    LimitIsLimit(y.segs, 0);
    assert BaseOk(h, y.chunks, y.segs[0]);
    forall e
      ensures e in y.ends <==> IsLimit(y.segs, e)
    {
      if IsLimit(y.segs, e) {
        var i := PickLimit(y.segs, e);
      }
    }
  }

  lemma FirstBins(head: Heads, fd: Word)
    ensures AllBinsOk(head, Links(map[], map[], map[], map[]), fd, fd, {}, seq(NTREEBINS, _ => 0), {},
                      EmptyHoldings().small, EmptyHoldings().trie)
    ensures BinnedIs({}, EmptyHoldings().small, EmptyHoldings().trie)
  {
    var b, g := EmptyHoldings().small, EmptyHoldings().trie;
    assert forall i :: 0 <= i < NSMALLBINS ==> SmallBinOk(head, fd, fd, i, b[i]);
    assert SmallOk(head, fd, fd, {}, b);
  }

  /** lj_alloc_create: the state record is a pinned chunk, the rest is top. */
  lemma FirstOk(tbase: int, fd: Word)
    requires FreshRegion([], Segment(tbase, DEFAULT_GRANULARITY))
    ensures StateOk(FirstView(tbase, fd), EmptyHoldings(), FirstSpare(tbase), FirstLayout(tbase), {})
  {
    hide AllBinsOk, BinnedIs, HeapTiles, SegsOk, FencesOk;
    FirstTiles(tbase);
    FirstSegs(tbase);
    FirstBins(FirstHeads(tbase), fd);
  }
}
