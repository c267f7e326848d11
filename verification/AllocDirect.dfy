// Chunks that are mapped directly, each in a region of its own (luajit/src/lj_alloc.c).

module AllocDirect {
  import opened AllocSizes
  import opened AllocRing
  import opened AllocTile
  import opened AllocState
  import opened AllocRegion
  import opened AllocSegment
  import opened AllocSmall
  import opened AllocView
  import opened AllocClient
  import opened AllocFrame

  const DEFAULT_MMAP_THRESHOLD := 0x2_0000
  const DIRECT_FOOT_PAD := 32
  const DIRECT_CHUNK_OVERHEAD := 16
  const IS_DIRECT_BIT := 1
  const LJ_PAGESIZE := 4096

  /** A directly mapped chunk: the size of its region, which starts with it, and its request. */
  datatype Direct = Direct(size: nat, request: nat)

  type Directs = map<int, Direct>

  function Regions(ds: Directs): set<Segment> { set p <- ds :: Segment(p, ds[p].size) }

  function Requests(ds: Directs): map<int, nat> { map p | p in ds :: ds[p].request }

  predicate RegionOk(g: Segment) {
    g.base > 0 && g.base % 8 == 0 && g.base + g.size < SIZE_LIMIT && g.size >= LJ_PAGESIZE && g.size % 8 == 0
  }

  /** The chunk has its size in front, which leaves room for two fenceposts and the footer, and
      its prev_foot is marked; no chunk is before it. */
  ghost predicate DirectOk(head: Heads, foot: map<int, int>, p: int, d: Direct) {
    && RegionOk(Segment(p, d.size)) && d.request + DIRECT_CHUNK_OVERHEAD + DIRECT_FOOT_PAD <= d.size
    && p in head && head[p] == Head(d.size - DIRECT_FOOT_PAD, false, true) && Rd(foot, p) == IS_DIRECT_BIT
  }

  ghost predicate DirectsOk(head: Heads, foot: map<int, int>, ds: Directs) {
    && (forall p <- ds :: DirectOk(head, foot, p, ds[p]))
    && (forall p: int, q: int :: p in ds && q in ds && p != q ==> Apart(Segment(p, ds[p].size), Segment(q, ds[q].size)))
  }

  /** What the system has mapped directly includes these chunks. */
  predicate MappedIn(ds: Directs, mapped: map<int, nat>) { forall p <- ds :: p in mapped && mapped[p] == ds[p].size }

  /** A region is clear of the segments and of what is mapped directly. */
  predicate Vacant(mapped: map<int, nat>, segs: seq<Segment>, g: Segment) {
    && (forall i | 0 <= i < |segs| :: Apart(segs[i], g))
    && forall p <- mapped :: Apart(g, Segment(p, mapped[p]))
  }

  // ------------------------------------------------------------------------- requests

  /** page_align, which wraps around for the largest sizes; mmap_align is the same. */
  function PageAlign(s: nat): nat { (s + LJ_PAGESIZE - 1) % WORD / LJ_PAGESIZE * LJ_PAGESIZE }

  /** The size that direct_alloc and direct_resize ask of the system for a chunk of nb bytes. */
  function DirectRequest(nb: nat): nat { PageAlign((nb + 48 + 7) % WORD) }

  /** It exceeds nb only if nothing wrapped around; it then has room for the chunk, the marks in
      front of it and the fenceposts behind. Where the addition does not wrap around but the
      alignment does, no bytes at all are asked for. */
  lemma DirectRequestFits(nb: nat)
    requires nb < WORD
    ensures DirectRequest(nb) > nb <==> nb + 54 + LJ_PAGESIZE < WORD
    ensures DirectRequest(nb) > nb ==> DirectRequest(nb) >= nb + 55 && DirectRequest(nb) >= LJ_PAGESIZE
    ensures nb + 55 < WORD && DirectRequest(nb) <= nb ==> DirectRequest(nb) == 0
    ensures DirectRequest(nb) % 8 == 0
  {
    var req := (nb + 55) % WORD;
    var x := (req + LJ_PAGESIZE - 1) % WORD;
    PageDown(x);
  }

  lemma PageDown(x: nat)
    ensures x - LJ_PAGESIZE < x / LJ_PAGESIZE * LJ_PAGESIZE <= x
    ensures x / LJ_PAGESIZE * LJ_PAGESIZE % 8 == 0
  {
  }

  // --------------------------------------------------------------------- frame and words

  /** The words of direct chunks are in protected regions. */
  lemma DirectsNow(kept: Shield, u: View, v: View, ds: Directs)
    requires SameKept(kept, u, v) && kept.regions == Regions(ds) && DirectsOk(u.head, u.foot, ds)
    ensures DirectsOk(v.head, v.foot, ds)
  {
    hide RegionOk, ClearBlocks;
    forall p <- ds
      ensures DirectOk(v.head, v.foot, p, ds[p])
    {
      assert DirectOk(u.head, u.foot, p, ds[p]);
      DirectWords(kept, u, v, p, ds[p]);
    }
    hide SameKept, DirectOk;
  }

  lemma DirectWords(kept: Shield, u: View, v: View, p: int, d: Direct)
    requires SameKept(kept, u, v) && Segment(p, d.size) in kept.regions && DirectOk(u.head, u.foot, p, d)
    ensures DirectOk(v.head, v.foot, p, d)
  {
    hide ClearBlocks;
    assert !ClearOf(kept.regions, p + 8) && !ClearOf(kept.regions, p + 0);
    assert SameHead(u.head, v.head, p) || Clear(kept, p + 8);
    assert p <= 0 || Rd(v.foot, p) == Rd(u.foot, p) || Clear(kept, p + 0);
  }

  lemma RegionsApart(kept: Shield, y: Layout, ds: Directs, p: int)
    requires KeptIn(kept, y) && kept.regions == Regions(ds) && p in ds
    ensures forall i | 0 <= i < |y.segs| :: Apart(y.segs[i], Segment(p, ds[p].size))
  {
    assert Segment(p, ds[p].size) in kept.regions;
  }

  // ------------------------------------------------------------------- blocks of both kinds

  /** All live blocks. */
  function AllLive(live: map<int, nat>, ds: Directs): map<int, nat> { live + Requests(ds) }

  /** No block of a segment is a direct one. */
  lemma KeysApart(v: View, w: Holdings, s: Spare, y: Layout, kept: Shield, ds: Directs)
    requires StateOk(v, w, s, y, {}) && KeptIn(kept, y) && kept.regions == Regions(ds) && DirectsOk(v.head, v.foot, ds)
    ensures y.live.Keys !! ds.Keys
    ensures forall p <- y.live, q <- ds :: p in v.head && (Next(v.head, p) + 8 <= q || q + ds[q].size <= p)
  {
    hide StateOk, KeptIn, DirectsOk, Regions;
    forall p <- y.live, q <- ds
      ensures p != q && p in v.head && (Next(v.head, p) + 8 <= q || q + ds[q].size <= p)
    {
      var i := BlockSegment(v, w, s, y, p);
      RegionsApart(kept, y, ds, q);
      DirectSize(v.head, v.foot, ds, q);
      assert Apart(y.segs[i], Segment(q, ds[q].size));
    }
    forall p <- y.live
      ensures p !in ds
    {
      assert p in ds ==> p != p;
    }
  }

  lemma DirectSize(head: Heads, foot: map<int, int>, ds: Directs, q: int)
    requires DirectsOk(head, foot, ds) && q in ds
    ensures DirectOk(head, foot, q, ds[q]) && ds[q].size >= LJ_PAGESIZE && q > 0 && q % 8 == 0
    ensures ds[q].request + DIRECT_CHUNK_OVERHEAD + DIRECT_FOOT_PAD <= ds[q].size
  {
  }

  lemma BlockSegment(v: View, w: Holdings, s: Spare, y: Layout, p: int) returns (i: nat)
    requires StateOk(v, w, s, y, {}) && p in y.live
    ensures i < |y.segs| && p in v.head && y.segs[i].base <= p < Next(v.head, p)
    ensures Next(v.head, p) + 8 <= y.segs[i].base + y.segs[i].size
  {
    hide AllBinsOk, BinnedIs, FlagsOk, FreeOk, FencesOk, SegsOk, TileOk;
    assert p in y.chunks;
    i := ChunkBounds(v.head, y.chunks, y.ends, s.top, y.segs, p);
    LimitBelow(y.segs, i);
  }

  /** Live blocks of either kind are aligned, and no two of them share a byte. */
  lemma AllSafe(v: View, w: Holdings, s: Spare, y: Layout, kept: Shield, ds: Directs)
    requires StateOk(v, w, s, y, {}) && KeptIn(kept, y) && kept.regions == Regions(ds) && DirectsOk(v.head, v.foot, ds)
    ensures var live := AllLive(y.live, ds);
      && (forall p <- live :: p > 0 && (p + 16) % 8 == 0)
      && (forall p: int, q: int :: p in live && q in live && p < q ==> p + 16 + live[p] <= q + 16)
  {
    hide StateOk, KeptIn, DirectsOk, Regions;
    var live := AllLive(y.live, ds);
    KeysApart(v, w, s, y, kept, ds);
    BlocksSafe(v, w, s, y, {});
    forall p <- live
      ensures p > 0 && (p + 16) % 8 == 0
    {
      if p in ds {
        DirectSize(v.head, v.foot, ds, p);
      }
    }
    forall p: int, q: int | p in live && q in live && p < q
      ensures p + 16 + live[p] <= q + 16
    {
      if p in ds {
        DirectSize(v.head, v.foot, ds, p);
        if q in ds {
          DirectPair(v.head, v.foot, ds, p, q);
        }
      }
    }
  }

  lemma DirectPair(head: Heads, foot: map<int, int>, ds: Directs, p: int, q: int)
    requires DirectsOk(head, foot, ds) && p in ds && q in ds && p < q
    ensures p + ds[p].size <= q
  {
    assert DirectOk(head, foot, p, ds[p]) && DirectOk(head, foot, q, ds[q]);
    assert Apart(Segment(p, ds[p].size), Segment(q, ds[q].size));
  }

  /** is_direct tells the blocks apart: the foot before a block of a segment, where there is
      one, is the size of a chunk, which is even. */
  lemma TellsDirect(v: View, w: Holdings, s: Spare, y: Layout, kept: Shield, ds: Directs, p: int)
    requires StateOk(v, w, s, y, {}) && KeptIn(kept, y) && kept.regions == Regions(ds) && DirectsOk(v.head, v.foot, ds)
    requires p in y.live || p in ds
    ensures p in v.head && (p in ds <==> !v.head[p].pinuse && Rd(v.foot, p) % 2 == 1)
    ensures p in ds <==> p !in y.live
  {
    hide StateOk, KeptIn, DirectsOk, Regions;
    KeysApart(v, w, s, y, kept, ds);
    if p in ds {
      DirectSize(v.head, v.foot, ds, p);
    } else {
      FootEven(v, w, s, y, p);
    }
  }

  lemma FootEven(v: View, w: Holdings, s: Spare, y: Layout, p: int)
    requires StateOk(v, w, s, y, {}) && p in y.live
    ensures p in v.head && (!v.head[p].pinuse ==> Rd(v.foot, p) % 8 == 0)
  {
    hide AllBinsOk, BinnedIs, FreeOk, FencesOk, SegsOk;
    assert p in y.chunks;
    assert BackOk(v.head, v.foot, y.chunks, p) && ChunkOk(v.head, p);
    if !v.head[p].pinuse {
      var u := p - Rd(v.foot, p);
      assert ChunkOk(v.head, u);
    }
    hide HeapTiles, LiveOk;
  }

  // ---------------------------------------------------------- writes to a region of its own

  /** Heads and feet are written in the region only. */
  ghost predicate WritesIn(v: View, v': View, g: Segment) {
    && v' == v.(head := v'.head, foot := v'.foot)
    && (forall c :: SameHead(v.head, v'.head, c) || (g.base <= c + 8 && c + 16 <= g.base + g.size))
    && (forall a :: Rd(v'.foot, a) == Rd(v.foot, a) || (g.base <= a && a + 8 <= g.base + g.size))
  }

  lemma SegsSame(v: View, w: Holdings, s: Spare, y: Layout)
    requires StateOk(v, w, s, y, {})
    ensures y.segs == v.segs
  {
    hide AllBinsOk, BinnedIs, HeapOk;
  }

  /** The segments are not concerned. */
  lemma WritesInOk(v: View, w: Holdings, s: Spare, y: Layout, v': View, g: Segment)
    requires StateOk(v, w, s, y, {}) && HolesApart({g}, y.segs) && WritesIn(v, v', g)
    ensures StateOk(v', w, s, y, {})
  {
    hide StateOk, HolesApart, Outside;
    forall c | c > 0 && NotOwned(v.head, y, {g}, c + 8)
      ensures (c in v'.head <==> c in v.head) && (c in v.head ==> v'.head[c] == v.head[c])
    {
      assert SameHead(v.head, v'.head, c);
    }
    forall c | c > 0 && NotOwned(v.head, y, {g}, c)
      ensures SameWord(v.foot, v'.foot, c)
    {
      assert Rd(v'.foot, c) == Rd(v.foot, c);
    }
    ClientWritesOk(v, w, s, y, {g}, v');
  }

  /** Neither are payloads and other regions. */
  lemma WritesInKept(kept: Shield, v: View, w: Holdings, s: Spare, y: Layout, v': View, g: Segment)
    requires StateOk(v, w, s, y, {}) && KeptIn(kept, y) && HolesApart({g}, y.segs) && Unused(kept, g) && WritesIn(v, v', g)
    ensures SameKept(kept, v, v')
  {
    hide StateOk, HolesApart, KeptIn, Clear;
    forall a | g.base <= a && a + 8 <= g.base + g.size
      ensures Clear(kept, a)
    {
      ElsewhereClear(kept, v, w, s, y, g, a);
    }
    AllocFrame.SameFields(kept, v);
    hide SameField;
    FootIn(kept, v.foot, v'.foot, g);
  }

  lemma FootIn(kept: Shield, m: map<int, int>, m': map<int, int>, g: Segment)
    requires forall a :: g.base <= a && a + 8 <= g.base + g.size ==> Clear(kept, a)
    requires forall a :: Rd(m', a) == Rd(m, a) || (g.base <= a && a + 8 <= g.base + g.size)
    ensures SameField(kept, m, m', 0)
  {
    hide Clear;
    forall c ensures c <= 0 || Rd(m', c) == Rd(m, c) || Clear(kept, c + 0) {
      assert c + 0 == c;
    }
  }

  lemma ElsewhereClear(kept: Shield, v: View, w: Holdings, s: Spare, y: Layout, g: Segment, a: int)
    requires StateOk(v, w, s, y, {}) && KeptIn(kept, y) && HolesApart({g}, y.segs) && Unused(kept, g)
    requires g.base <= a && a + 8 <= g.base + g.size
    ensures Clear(kept, a)
  {
    hide StateOk;
    forall p <- kept.blocks
      ensures a + 8 <= p + 16 || p + 16 + kept.blocks[p] <= a
    {
      var i := BlockSegment(v, w, s, y, p);
      BlockRoom(v, w, s, y, p);
      assert Apart(y.segs[i], g);
    }
    hide HolesApart;
  }

  lemma BlockRoom(v: View, w: Holdings, s: Spare, y: Layout, p: int)
    requires StateOk(v, w, s, y, {}) && p in y.live
    ensures p in v.head && y.live[p] + CHUNK_OVERHEAD <= v.head[p].size
  {
    hide AllBinsOk, BinnedIs, HeapTiles, FreeOk, FencesOk, SegsOk, BinnableSize;
  }

  /** Protecting both is protecting each. */
  lemma KeptBoth(blocks: map<int, nat>, r1: set<Segment>, r2: set<Segment>, u: View, v: View)
    requires SameKept(Shield(blocks, r1), u, v) && SameKept(Shield(map[], r2), u, v)
    ensures SameKept(Shield(blocks, r1 + r2), u, v)
  {
    var a, b, c := Shield(blocks, r1), Shield(map[], r2), Shield(blocks, r1 + r2);
    FieldBoth(a, b, c, u.foot, v.foot, 0);
    FieldBoth(a, b, c, u.fd, v.fd, 16);
    FieldBoth(a, b, c, u.bk, v.bk, 24);
    FieldBoth(a, b, c, u.links.left, v.links.left, 32);
    FieldBoth(a, b, c, u.links.right, v.links.right, 40);
    FieldBoth(a, b, c, u.links.parent, v.links.parent, 48);
    FieldBoth(a, b, c, u.links.index, v.links.index, 56);
    forall z ensures SameHead(u.head, v.head, z) || Clear(c, z + 8) {
      ClearBoth(a, b, c, z + 8);
    }
    hide SameField, Clear;
  }

  lemma ClearBoth(a: Shield, b: Shield, c: Shield, z: int)
    requires c == Shield(a.blocks, a.regions + b.regions)
    ensures Clear(a, z) && Clear(b, z) ==> Clear(c, z)
  {
  }

  lemma FieldBoth(a: Shield, b: Shield, c: Shield, m: map<int, int>, m': map<int, int>, off: int)
    requires c == Shield(a.blocks, a.regions + b.regions) && SameField(a, m, m', off) && SameField(b, m, m', off)
    ensures SameField(c, m, m', off)
  {
    forall z ensures z <= 0 || Rd(m', z) == Rd(m, z) || Clear(c, z + off) {
      ClearBoth(a, b, c, z + off);
      assert z <= 0 || Rd(m', z) == Rd(m, z) || Clear(a, z + off);
      assert z <= 0 || Rd(m', z) == Rd(m, z) || Clear(b, z + off);
    }
    hide Clear;
  }

  /** The heads of a direct chunk: its own, and two fenceposts. */
  function DirectHeads(head: Heads, p: int, psize: nat): Heads {
    head[p := Head(psize, false, true)][p + psize := Head(8, true, true)][p + psize + 8 := Head(0, false, false)]
  }

  lemma DirectHeadsIn(v: View, p: int, size: nat)
    requires size >= LJ_PAGESIZE
    ensures var psize := size - DIRECT_FOOT_PAD;
      && WritesIn(v, v.(head := DirectHeads(v.head, p, psize), foot := v.foot[p := IS_DIRECT_BIT]), Segment(p, size))
      && WritesIn(v, v.(head := DirectHeads(v.head, p, psize)), Segment(p, size))
  {
  }

  /** The heads are clear of the first bytes of the payload. */
  lemma OwnKept(v: View, p: int, size: nat, n: nat)
    requires size >= LJ_PAGESIZE && n + DIRECT_CHUNK_OVERHEAD + DIRECT_FOOT_PAD <= size
    ensures SameKept(Shield(map[], {Segment(p + 16, n)}), v, v.(head := DirectHeads(v.head, p, size - DIRECT_FOOT_PAD)))
  {
  }

  lemma OthersKept(ds: Directs, p: int)
    ensures Regions(ds - {p}) <= Regions(ds)
    ensures p in ds ==> forall r <- Regions(ds) :: r in Regions(ds - {p}) || r == Segment(p, ds[p].size)
  {
    forall r <- Regions(ds - {p}) ensures r in Regions(ds) {
      var q :| q in ds - {p} && r == Segment(q, (ds - {p})[q].size);
      assert q in ds;
    }
    if p in ds {
      forall r <- Regions(ds) ensures r in Regions(ds - {p}) || r == Segment(p, ds[p].size) {
        var q :| q in ds && r == Segment(q, ds[q].size);
        assert q != p ==> q in ds - {p};
      }
    }
  }

  lemma PlusRegion(ds: Directs, p: int, d: Direct)
    ensures forall r :: r in Regions(ds[p := d]) <==> r in Regions(ds - {p}) || r == Segment(p, d.size)
  {
    var ds' := ds[p := d];
    forall r ensures r in Regions(ds') <==> r in Regions(ds - {p}) || r == Segment(p, d.size) {
      if r in Regions(ds') {
        var q :| q in ds' && r == Segment(q, ds'[q].size);
        assert q != p ==> q in ds - {p};
      }
      if r in Regions(ds - {p}) {
        var q :| q in ds - {p} && r == Segment(q, (ds - {p})[q].size);
        assert q in ds';
      }
      assert p in ds';
    }
  }

  /** A direct chunk comes to be, or has another size, in a region clear of all others. */
  lemma DirectsWith(head: Heads, foot: map<int, int>, ds: Directs, p: int, d: Direct)
    requires DirectsOk(head, foot, ds - {p}) && DirectOk(head, foot, p, d)
    requires forall r <- Regions(ds - {p}) :: Apart(Segment(p, d.size), r)
    ensures DirectsOk(head, foot, ds[p := d])
  {
    hide DirectOk;
    var ds' := ds[p := d];
    forall q <- ds' ensures DirectOk(head, foot, q, ds'[q]) {
      assert q != p ==> q in ds - {p};
    }
    forall q, r | q in ds' && r in ds' && q != r
      ensures Apart(Segment(q, ds'[q].size), Segment(r, ds'[r].size))
    {
      assert q != p ==> q in ds - {p} && Segment(q, (ds - {p})[q].size) in Regions(ds - {p});
      assert r != p ==> r in ds - {p} && Segment(r, (ds - {p})[r].size) in Regions(ds - {p});
    }
  }

  lemma DirectsFewer(head: Heads, foot: map<int, int>, ds: Directs, p: int)
    requires DirectsOk(head, foot, ds)
    ensures DirectsOk(head, foot, ds - {p})
  {
    hide DirectOk;
  }

  // ------------------------------------------------------------------------ operations

  lemma NoDirects(y: Layout, v: View, mapped: map<int, nat>)
    ensures var ds: Directs := map[];
            KeptIn(Shield(map[], Regions(ds)), y) && DirectsOk(v.head, v.foot, ds) && MappedIn(ds, mapped)
  {
  }

  lemma OtherBlocks(kept: Shield, y: Layout, y': Layout, blocks: map<int, nat>)
    requires KeptIn(kept, y) && y'.segs == y.segs && forall p <- blocks :: p in y'.live && blocks[p] <= y'.live[p]
    ensures KeptIn(Shield(blocks, kept.regions), y')
  {
    hide HolesApart;
  }

  lemma FewerRegions(kept: Shield, y: Layout, regions: set<Segment>)
    requires KeptIn(kept, y) && regions <= kept.regions
    ensures KeptIn(Shield(kept.blocks, regions), y)
  {
  }

  /** What the system hands out is clear of the direct chunks. */
  lemma VacantUnused(kept: Shield, ds: Directs, mapped: map<int, nat>, segs: seq<Segment>, g: Segment)
    requires kept.regions == Regions(ds) && MappedIn(ds, mapped) && Vacant(mapped, segs, g)
    ensures Unused(kept, g) && HolesApart({g}, segs)
  {
  }

  /** The region g holds a direct chunk from now on, in place of the one there, if any. */
  lemma DirectHere(kept: Shield, v: View, w: Holdings, s: Spare, y: Layout, ds: Directs, v': View, g: Segment, req: nat)
    requires StateOk(v, w, s, y, {}) && KeptIn(kept, y) && kept.regions == Regions(ds - {g.base})
    requires DirectsOk(v.head, v.foot, ds - {g.base}) && DirectOk(v'.head, v'.foot, g.base, Direct(g.size, req))
    requires HolesApart({g}, y.segs) && Unused(kept, g) && WritesIn(v, v', g)
    ensures StateOk(v', w, s, y, {}) && SameKept(kept, v, v')
    ensures DirectsOk(v'.head, v'.foot, ds[g.base := Direct(g.size, req)])
    ensures KeptIn(Shield(kept.blocks, Regions(ds[g.base := Direct(g.size, req)])), y)
  {
    hide StateOk, WritesIn, DirectsOk, SameKept, HolesApart, Regions, ClearBlocks;
    WritesInOk(v, w, s, y, v', g);
    WritesInKept(kept, v, w, s, y, v', g);
    DirectsNow(kept, v, v', ds - {g.base});
    DirectsWith(v'.head, v'.foot, ds, g.base, Direct(g.size, req));
    PlusRegion(ds, g.base, Direct(g.size, req));
    OneMore(kept, y, g, Regions(ds[g.base := Direct(g.size, req)]));
  }

  lemma OneMore(kept: Shield, y: Layout, g: Segment, regions: set<Segment>)
    requires KeptIn(kept, y) && HolesApart({g}, y.segs) && g.size > 0
    requires forall r :: r in regions <==> r in kept.regions || r == g
    ensures KeptIn(Shield(kept.blocks, regions), y)
  {
  }

  /** direct_alloc */
  lemma DirectAllocOk(kept: Shield, u: View, v: View, w: Holdings, s: Spare, y: Layout, ds: Directs, mapped: map<int, nat>,
                      g: Segment, req: nat)
    requires StateOk(v, w, s, y, {}) && KeptOk(kept, u, v, y) && kept.regions == Regions(ds) && DirectsOk(v.head, v.foot, ds)
    requires MappedIn(ds, mapped) && RegionOk(g) && Vacant(mapped, v.segs, g)
    requires req + DIRECT_CHUNK_OVERHEAD + DIRECT_FOOT_PAD <= g.size
    ensures var d, v' := Direct(g.size, req), v.(head := DirectHeads(v.head, g.base, g.size - DIRECT_FOOT_PAD), foot := v.foot[g.base := IS_DIRECT_BIT]);
      && StateOk(v', w, s, y, {}) && SameKept(kept, u, v') && DirectsOk(v'.head, v'.foot, ds[g.base := d])
      && KeptIn(Shield(kept.blocks, Regions(ds[g.base := d])), y)
    ensures g.base !in ds && MappedIn(ds[g.base := Direct(g.size, req)], mapped[g.base := g.size])
  {
    hide StateOk, DirectsOk, SameKept, KeptIn, HolesApart, Regions, Vacant, Unused;
    var v' := v.(head := DirectHeads(v.head, g.base, g.size - DIRECT_FOOT_PAD), foot := v.foot[g.base := IS_DIRECT_BIT]);
    SegsSame(v, w, s, y);
    VacantUnused(kept, ds, mapped, v.segs, g);
    NotYet(v.head, v.foot, ds, mapped, v.segs, g);
    assert ds - {g.base} == ds;
    DirectHeadsIn(v, g.base, g.size);
    DirectHeadsOk(v.head, v.foot[g.base := IS_DIRECT_BIT], g.base, Direct(g.size, req));
    hide DirectHeads, WritesIn;
    DirectHere(kept, v, w, s, y, ds, v', g, req);
    KeptTrans(kept, u, v, v');
  }

  lemma NotYet(head: Heads, foot: map<int, int>, ds: Directs, mapped: map<int, nat>, segs: seq<Segment>, g: Segment)
    requires DirectsOk(head, foot, ds) && MappedIn(ds, mapped) && RegionOk(g) && Vacant(mapped, segs, g)
    ensures g.base !in ds
  {
    forall q <- ds
      ensures q != g.base
    {
      DirectSize(head, foot, ds, q);
      assert Apart(g, Segment(q, mapped[q]));
    }
  }

  lemma DirectHeadsOk(head: Heads, foot: map<int, int>, p: int, d: Direct)
    requires RegionOk(Segment(p, d.size)) && d.request + DIRECT_CHUNK_OVERHEAD + DIRECT_FOOT_PAD <= d.size
    requires Rd(foot, p) == IS_DIRECT_BIT
    ensures DirectOk(DirectHeads(head, p, d.size - DIRECT_FOOT_PAD), foot, p, d)
  {
  }

  /** The region of a direct chunk is clear of all else, whatever its size, if the system says so. */
  lemma VacantOthers(kept: Shield, ds: Directs, mapped: map<int, nat>, segs: seq<Segment>, g: Segment)
    requires kept.regions == Regions(ds - {g.base}) && MappedIn(ds, mapped) && Vacant(mapped - {g.base}, segs, g)
    ensures Unused(kept, g) && HolesApart({g}, segs)
    ensures forall d: Direct :: d.size == g.size ==> MappedIn(ds[g.base := d], mapped[g.base := g.size])
  {
    forall r <- kept.regions
      ensures Apart(g, r)
    {
      var q :| q in ds - {g.base} && r == Segment(q, (ds - {g.base})[q].size);
      assert q in mapped - {g.base};
    }
  }

  /** direct_resize, where the region got another size. */
  lemma DirectResizeOk(blocks: map<int, nat>, v: View, w: Holdings, s: Spare, y: Layout, ds: Directs, mapped: map<int, nat>,
                       g: Segment, req: nat, n: nat)
    requires StateOk(v, w, s, y, {}) && KeptIn(Shield(blocks, Regions(ds)), y) && DirectsOk(v.head, v.foot, ds) && g.base in ds
    requires MappedIn(ds, mapped) && RegionOk(g) && Vacant(mapped - {g.base}, v.segs, g)
    requires req + DIRECT_CHUNK_OVERHEAD + DIRECT_FOOT_PAD <= g.size && n <= req
    ensures var d, v' := Direct(g.size, req), v.(head := DirectHeads(v.head, g.base, g.size - DIRECT_FOOT_PAD));
      && StateOk(v', w, s, y, {}) && DirectsOk(v'.head, v'.foot, ds[g.base := d])
      && SameKept(Shield(blocks, Regions(ds - {g.base}) + {Segment(g.base + 16, n)}), v, v')
      && KeptIn(Shield(blocks, Regions(ds[g.base := d])), y)
    ensures MappedIn(ds[g.base := Direct(g.size, req)], mapped[g.base := g.size])
  {
    hide StateOk, DirectsOk, SameKept, KeptIn, HolesApart, Regions, Vacant, Unused;
    var v' := v.(head := DirectHeads(v.head, g.base, g.size - DIRECT_FOOT_PAD));
    var kept := Shield(blocks, Regions(ds - {g.base}));
    SegsSame(v, w, s, y);
    OthersKept(ds, g.base);
    FewerRegions(Shield(blocks, Regions(ds)), y, Regions(ds - {g.base}));
    VacantOthers(kept, ds, mapped, v.segs, g);
    DirectsFewer(v.head, v.foot, ds, g.base);
    DirectSize(v.head, v.foot, ds, g.base);
    DirectHeadsIn(v, g.base, g.size);
    DirectHeadsOk(v.head, v.foot, g.base, Direct(g.size, req));
    OwnKept(v, g.base, g.size, n);
    hide DirectHeads, WritesIn;
    DirectHere(kept, v, w, s, y, ds, v', g, req);
    KeptBoth(blocks, Regions(ds - {g.base}), {Segment(g.base + 16, n)}, v, v');
  }

  /** A direct chunk is taken to hold another number of bytes, which it has room for. */
  lemma RequestAs(head: Heads, foot: map<int, int>, ds: Directs, mapped: map<int, nat>, p: int, n: nat)
    requires DirectsOk(head, foot, ds) && MappedIn(ds, mapped) && p in ds
    requires n + DIRECT_CHUNK_OVERHEAD + DIRECT_FOOT_PAD <= ds[p].size
    ensures var ds' := ds[p := Direct(ds[p].size, n)];
            DirectsOk(head, foot, ds') && MappedIn(ds', mapped) && Regions(ds') == Regions(ds)
  {
    var ds' := ds[p := Direct(ds[p].size, n)];
    hide RegionOk;
    forall r ensures r in Regions(ds') <==> r in Regions(ds) {
      if r in Regions(ds') {
        var q :| q in ds' && r == Segment(q, ds'[q].size);
        assert q in ds;
      }
      if r in Regions(ds) {
        var q :| q in ds && r == Segment(q, ds[q].size);
        assert q in ds';
      }
    }
    forall q <- ds' ensures DirectOk(head, foot, q, ds'[q]) {
      assert DirectOk(head, foot, q, ds[q]);
    }
  }

  // --------------------------------------------------------------------- client writes

  /** The bytes of direct chunks that clients may write to. */
  function Payloads(ds: Directs): set<Segment> {
    set p <- ds | ds[p].size >= DIRECT_CHUNK_OVERHEAD + DIRECT_FOOT_PAD :: Segment(p + 16, ds[p].size - DIRECT_CHUNK_OVERHEAD - DIRECT_FOOT_PAD)
  }

  lemma PayloadsApart(kept: Shield, y: Layout, ds: Directs)
    requires KeptIn(kept, y) && kept.regions == Regions(ds)
    ensures HolesApart(Payloads(ds), y.segs)
  {
    forall g <- Payloads(ds), i | 0 <= i < |y.segs|
      ensures Apart(y.segs[i], g)
    {
      var p :| p in ds && ds[p].size >= DIRECT_CHUNK_OVERHEAD + DIRECT_FOOT_PAD && g == Segment(p + 16, ds[p].size - 48);
      RegionsApart(kept, y, ds, p);
    }
  }

  /** The words of a direct chunk are in no payload. */
  lemma MarksNotOwned(v: View, w: Holdings, s: Spare, y: Layout, kept: Shield, ds: Directs, p: int, a: int)
    requires StateOk(v, w, s, y, {}) && KeptIn(kept, y) && kept.regions == Regions(ds) && DirectsOk(v.head, v.foot, ds)
    requires p in ds && p <= a <= p + 8
    ensures NotOwned(v.head, y, Payloads(ds), a)
  {
    hide StateOk, KeptIn, DirectsOk, Regions;
    KeysApart(v, w, s, y, kept, ds);
    DirectSize(v.head, v.foot, ds, p);
    forall g <- Payloads(ds)
      ensures a + 8 <= g.base || g.base + g.size <= a
    {
      var q :| q in ds && ds[q].size >= DIRECT_CHUNK_OVERHEAD + DIRECT_FOOT_PAD && g == Segment(q + 16, ds[q].size - 48);
      if p < q {
        DirectPair(v.head, v.foot, ds, p, q);
      } else if q < p {
        DirectPair(v.head, v.foot, ds, q, p);
      }
    }
  }

  /** Whatever clients write in their payloads, the direct chunks stay, as do the segments. */
  lemma DirectsAfterClients(v: View, w: Holdings, s: Spare, y: Layout, kept: Shield, ds: Directs, v': View)
    requires StateOk(v, w, s, y, {}) && KeptIn(kept, y) && kept.regions == Regions(ds) && DirectsOk(v.head, v.foot, ds)
    requires ClientWrites(v, y, Payloads(ds), v')
    ensures StateOk(v', w, s, y, {}) && DirectsOk(v'.head, v'.foot, ds)
  {
    hide StateOk, KeptIn, HolesApart, Regions, Payloads, NotOwned, RegionOk;
    PayloadsApart(kept, y, ds);
    ClientWritesOk(v, w, s, y, Payloads(ds), v');
    forall p <- ds
      ensures DirectOk(v'.head, v'.foot, p, ds[p])
    {
      assert DirectOk(v.head, v.foot, p, ds[p]);
      DirectSize(v.head, v.foot, ds, p);
      MarksNotOwned(v, w, s, y, kept, ds, p, p);
      MarksNotOwned(v, w, s, y, kept, ds, p, p + 8);
      assert SameWord(v.foot, v'.foot, p);
    }
    hide DirectOk, ClientWrites;
  }

  // ------------------------------------------------------------------- what is protected

  /** The first bytes of a block are protected as a region of their own. */
  lemma BlockAsRegion(live: map<int, nat>, regions: set<Segment>, p: int, n: nat, u: View, v: View)
    requires SameKept(Shield(live[p := n], regions), u, v)
    ensures SameKept(Shield(live - {p}, regions + {Segment(p + 16, n)}), u, v)
  {
    hide Clear, SameKept;
    var a, b := Shield(live[p := n], regions), Shield(live - {p}, regions + {Segment(p + 16, n)});
    forall z ensures Clear(a, z) ==> Clear(b, z) {
      ClearAsRegion(live, regions, p, n, z);
    }
    SameByClear(a, b, u, v);
  }

  lemma ClearAsRegion(live: map<int, nat>, regions: set<Segment>, p: int, n: nat, z: int)
    ensures Clear(Shield(live[p := n], regions), z) ==> Clear(Shield(live - {p}, regions + {Segment(p + 16, n)}), z)
  {
    var l := live[p := n];
    if Clear(Shield(l, regions), z) {
      assert p in l && l[p] == n;
      forall q <- live - {p} ensures z + 8 <= q + 16 || q + 16 + (live - {p})[q] <= z {
        assert q in l && l[q] == (live - {p})[q];
      }
      assert ClearBlocks(live - {p}, z);
      forall g <- regions + {Segment(p + 16, n)} ensures z + 8 <= g.base || g.base + g.size <= z {
        if g !in regions {
          assert g.base == p + 16 && g.size == n;
        }
      }
      assert ClearOf(regions + {Segment(p + 16, n)}, z);
    }
  }

  lemma SameByClear(a: Shield, b: Shield, u: View, v: View)
    requires SameKept(a, u, v) && forall z :: Clear(a, z) ==> Clear(b, z)
    ensures SameKept(b, u, v)
  {
    hide Clear;
    forall c ensures SameHead(u.head, v.head, c) || Clear(b, c + 8) {
      assert Clear(a, c + 8) ==> Clear(b, c + 8);
    }
    ByClear(a, b, u.foot, v.foot, 0);
    ByClear(a, b, u.fd, v.fd, 16);
    ByClear(a, b, u.bk, v.bk, 24);
    ByClear(a, b, u.links.left, v.links.left, 32);
    ByClear(a, b, u.links.right, v.links.right, 40);
    ByClear(a, b, u.links.parent, v.links.parent, 48);
    ByClear(a, b, u.links.index, v.links.index, 56);
    hide SameField;
  }

  lemma ByClear(a: Shield, b: Shield, m: Word, m': Word, off: int)
    requires SameField(a, m, m', off) && forall z :: Clear(a, z) ==> Clear(b, z)
    ensures SameField(b, m, m', off)
  {
    hide Clear;
    forall c ensures c <= 0 || Rd(m', c) == Rd(m, c) || Clear(b, c + off) {
      assert Clear(a, c + off) ==> Clear(b, c + off);
    }
  }

  /** Block p, of either kind, is taken to hold n bytes. */
  ghost predicate Reckoned(live: map<int, nat>, ds: Directs, live': map<int, nat>, ds': Directs, p: int, n: nat) {
    && live' == (if p in live then live[p := n] else live)
    && ds' == if p in ds then ds[p := Direct(ds[p].size, n)] else ds
  }

  lemma ReckonedLive(live: map<int, nat>, ds: Directs, live': map<int, nat>, ds': Directs, p: int, n: nat)
    requires Reckoned(live, ds, live', ds', p, n) && (p in live || p in ds)
    ensures AllLive(live', ds') == AllLive(live, ds)[p := n]
    ensures Within(Shield(live - {p}, Regions(ds - {p})), Shield(live', Regions(ds')))
  {
    var all := AllLive(live, ds)[p := n];
    assert AllLive(live', ds') == all;
    RegionsWithin(ds, ds', {p});
    hide Regions, AllLive;
  }

  lemma RegionsWithin(ds: Directs, ds': Directs, gone: set<int>)
    requires forall q <- ds :: q in gone || (q in ds' && ds'[q].size == ds[q].size)
    ensures Regions(ds - gone) <= Regions(ds')
  {
    forall r <- Regions(ds - gone)
      ensures r in Regions(ds')
    {
      var q :| q in ds - gone && r == Segment(q, (ds - gone)[q].size);
      assert q in ds && q in ds';
    }
  }
}
