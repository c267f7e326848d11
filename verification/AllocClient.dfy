// Clients own the payload of their blocks: whatever they write there, the
// allocator's invariant stands (luajit/src/lj_alloc.c).

module AllocClient {
  import opened AllocSizes
  import opened AllocBits
  import opened AllocRing
  import opened AllocTile
  import opened AllocState
  import opened AllocFree
  import opened AllocRegion
  import opened AllocSegment
  import opened AllocSmall
  import opened AllocTrie
  import opened AllocView

  /** The word at address a lies outside the payload of every live block. */
  ghost predicate Outside(head: Heads, y: Layout, a: int) {
    forall p <- y.live :: p in head ==> a + 8 <= p + 16 || p + head[p].size + 8 <= a
  }

  /** The word at a shares no byte with certain regions elsewhere. */
  ghost predicate ClearOf(holes: set<Segment>, a: int) {
    forall g <- holes :: a + 8 <= g.base || g.base + g.size <= a
  }

  ghost predicate SameWord(m: Word, m': Word, c: int) { Rd(m', c) == Rd(m, c) }

  /** Memory after clients wrote to their payloads, in blocks of the segments or in other
      regions: words outside are as before. The fields of the chunk at c are the words at c,
      c + 8, ..., c + 56; those of bins (at negative keys) are not in any payload. */
  ghost predicate ClientWrites(v: View, y: Layout, holes: set<Segment>, v': View) {
    && v' == v.(head := v'.head, foot := v'.foot, fd := v'.fd, bk := v'.bk, links := v'.links)
    && (forall c :: c > 0 && NotOwned(v.head, y, holes, c + 8) ==>
          (c in v'.head <==> c in v.head) && (c in v.head ==> v'.head[c] == v.head[c]))
    && (forall c :: c > 0 && NotOwned(v.head, y, holes, c) ==> SameWord(v.foot, v'.foot, c))
    && (forall c :: c < 0 || NotOwned(v.head, y, holes, c + 16) ==> SameWord(v.fd, v'.fd, c))
    && (forall c :: c < 0 || NotOwned(v.head, y, holes, c + 24) ==> SameWord(v.bk, v'.bk, c))
    && (forall c :: NotOwned(v.head, y, holes, c + 32) ==> SameWord(v.links.left, v'.links.left, c))
    && (forall c :: NotOwned(v.head, y, holes, c + 40) ==> SameWord(v.links.right, v'.links.right, c))
    && (forall c :: NotOwned(v.head, y, holes, c + 48) ==> SameWord(v.links.parent, v'.links.parent, c))
    && (forall c :: NotOwned(v.head, y, holes, c + 56) ==> SameWord(v.links.index, v'.links.index, c))
  }

  ghost predicate NotOwned(head: Heads, y: Layout, holes: set<Segment>, a: int) { Outside(head, y, a) && ClearOf(holes, a) }

  /** The regions are elsewhere than the segments. */
  ghost predicate HolesApart(holes: set<Segment>, segs: seq<Segment>) {
    forall g <- holes, i | 0 <= i < |segs| :: Apart(segs[i], g)
  }

  /** The words of a chunk, and the one behind it, are in its segment. */
  lemma ClearOfHoles(head: Heads, y: Layout, top: int, holes: set<Segment>, c: int, a: int)
    requires TileOk(head, y.chunks, y.ends) && SegsOk(head, y.chunks, y.ends, top, y.segs) && HolesApart(holes, y.segs)
    requires c in y.chunks && c in head && c <= a <= Next(head, c)
    ensures ClearOf(holes, a)
  {
    hide TileOk, SegsOk, SegmentOk;
    var i := ChunkBounds(head, y.chunks, y.ends, top, y.segs, c);
    forall g <- holes
      ensures a + 8 <= g.base || g.base + g.size <= a
    {
      assert Apart(y.segs[i], g);
      LimitBelow(y.segs, i);
    }
  }

  lemma LimitBelow(segs: seq<Segment>, i: nat)
    requires i < |segs|
    ensures Limit(segs, i) + 8 <= segs[i].base + segs[i].size
  {
  }

  // ------------------------------------------------- words the allocator relies on

  lemma HeadOutside(head: Heads, y: Layout, c: int)
    requires TileOk(head, y.chunks, y.ends) && y.live.Keys <= y.chunks && c in y.chunks
    ensures Outside(head, y, c + 8)
  {
    forall p <- y.live | p in head
      ensures c + 16 <= p + 16 || p + head[p].size + 8 <= c + 8
    {
      assert p in y.chunks;
      assert p < c ==> Next(head, p) <= c;
    }
  }

  /** The foot of a free chunk lies in no payload. */
  lemma FootOutside(head: Heads, foot: map<int, int>, y: Layout, top: int, c: int)
    requires HeapTiles(head, foot, y.chunks, y.ends, top) && y.live.Keys <= y.chunks && c in y.chunks
    requires forall p <- y.live :: p in head && head[p].cinuse
    requires c in head && !head[c].pinuse
    ensures Outside(head, y, c)
  {
    forall p <- y.live
      ensures c + 8 <= p + 16 || p + head[p].size + 8 <= c
    {
      if p < c {
        BehindBlock(head, foot, y.chunks, y.ends, top, p, c);
      }
    }
  }

  lemma BehindBlock(head: Heads, foot: map<int, int>, chunks: set<int>, ends: set<int>, top: int, p: int, c: int)
    requires HeapTiles(head, foot, chunks, ends, top) && p in chunks && c in chunks && p < c
    requires p in head && head[p].cinuse && c in head && !head[c].pinuse
    ensures p + head[p].size + 8 <= c
  {
    hide TileOk, FlagsOk, ChunkOk;
    var n := Next(head, p);
    Positive(head, chunks, ends, p);
    Positive(head, chunks, ends, c);
    if n in chunks {
      NextPinuse(head, foot, chunks, ends, top, p);
    }
    NextBelow(head, chunks, ends, p, c);
  }

  lemma NextBelow(head: Heads, chunks: set<int>, ends: set<int>, p: int, c: int)
    requires TileOk(head, chunks, ends) && p in chunks && c in chunks && p < c
    ensures Next(head, p) <= c && (Next(head, p) !in chunks ==> Next(head, p) < c)
  {
  }

  /** The first words of a free chunk, up to offset off, lie in no payload. */
  lemma FieldOutside(head: Heads, y: Layout, c: int, off: int)
    requires TileOk(head, y.chunks, y.ends) && y.live.Keys <= y.chunks && c in y.chunks && c !in y.live
    requires c in head && 16 <= off <= head[c].size
    ensures Outside(head, y, c + off)
  {
    forall p <- y.live | p in head
      ensures c + off + 8 <= p + 16 || p + head[p].size + 8 <= c + off
    {
      assert p in y.chunks && p != c;
      assert p < c ==> Next(head, p) <= c;
      assert c < p ==> Next(head, c) <= p;
    }
  }

  // ------------------------------------------------------------------- the heap

  lemma SameTag(head: Heads, foot: map<int, int>, y: Layout, head': Heads, foot': map<int, int>, c: int)
    requires BorderOk(head, foot, y.chunks, c) && BackOk(head, foot, y.chunks, c) && c in y.chunks
    requires forall d <- y.chunks :: d in head && d in head' && head'[d] == head[d]
    requires forall d <- y.chunks :: !head[d].pinuse ==> Rd(foot', d) == Rd(foot, d)
    ensures BorderOk(head', foot', y.chunks, c) && BackOk(head', foot', y.chunks, c)
  {
  }

  lemma SameTags(head: Heads, foot: map<int, int>, y: Layout, top: int, head': Heads, foot': map<int, int>)
    requires FlagsOk(head, foot, y.chunks, y.ends, top)
    requires forall c <- y.chunks :: c in head && c in head' && head'[c] == head[c]
    requires forall c <- y.chunks :: !head[c].pinuse ==> Rd(foot', c) == Rd(foot, c)
    ensures FlagsOk(head', foot', y.chunks, y.ends, top)
  {
    hide BorderOk, BackOk;
    forall c <- y.chunks
      ensures BorderOk(head', foot', y.chunks, c) && BackOk(head', foot', y.chunks, c)
    {
      SameTag(head, foot, y, head', foot', c);
    }
  }

  lemma SameBases(head: Heads, y: Layout, head': Heads)
    requires BasesOk(head, y.chunks, y.segs)
    requires forall c <- y.chunks :: c in head && c in head' && head'[c] == head[c]
    ensures BasesOk(head', y.chunks, y.segs)
  {
    forall i | 0 <= i < |y.segs|
      ensures BaseOk(head', y.chunks, y.segs[i])
    {
      assert BaseOk(head, y.chunks, y.segs[i]);
    }
  }

  lemma SameFences(head: Heads, y: Layout, head': Heads)
    requires FencesOk(head, y.chunks, y.pinned, y.segs)
    requires forall c <- y.chunks :: c in head && c in head' && head'[c] == head[c]
    ensures FencesOk(head', y.chunks, y.pinned, y.segs)
  {
    hide TailPinned;
    forall i | 1 <= i < |y.segs|
      ensures FenceOk(head', y.chunks, y.pinned, Limit(y.segs, i) - 8)
    {
      assert FenceOk(head, y.chunks, y.pinned, Limit(y.segs, i) - 8);
    }
  }

  lemma SameSegs(head: Heads, y: Layout, top: int, head': Heads)
    requires SegsOk(head, y.chunks, y.ends, top, y.segs)
    requires forall c <- y.chunks :: c in head && c in head' && head'[c] == head[c]
    ensures SegsOk(head', y.chunks, y.ends, top, y.segs)
  {
    hide SegsApart, IsLimit, HasSeg, BasesOk;
    SameBases(head, y, head');
  }

  lemma SameHeap(head: Heads, foot: map<int, int>, s: Spare, y: Layout, head': Heads, foot': map<int, int>)
    requires HeapOk(head, foot, s, y, {})
    requires forall c <- y.chunks :: c in head && c in head' && head'[c] == head[c]
    requires forall c <- y.chunks :: !head[c].pinuse ==> Rd(foot', c) == Rd(foot, c)
    ensures HeapOk(head', foot', s, y, {})
  {
    hide TileOk, FlagsOk, SegsOk, FencesOk, BinnableSize;
    SameSizes(head, y.chunks, y.ends, head');
    SameTags(head, foot, y, s.top, head', foot');
    SameSegs(head, y, s.top, head');
    SameFences(head, y, head');
  }

  // ------------------------------------------------------------------- the bins

  lemma MemberIn(g: Trie, s: nat, j: nat)
    requires s in g.ring && j < |g.ring[s]|
    ensures Member(g, g.ring[s][j])
  {
  }

  ghost predicate SameFields(k: Links, k': Links, z: int) {
    && SameWord(k.left, k'.left, z) && SameWord(k.right, k'.right, z)
    && SameWord(k.parent, k'.parent, z) && SameWord(k.index, k'.index, z)
  }

  lemma SameNodes(k: Links, g: Trie, k': Links)
    requires ShapeOk(g) && NodesOk(k, g) && forall z :: Member(g, z) ==> SameFields(k, k', z)
    ensures NodesOk(k', g)
  {
    hide Member;
    forall l <- g.loc
      ensures NodeOk(k', g, l)
    {
      assert NodeOk(k, g, l);
      MemberIn(g, g.loc[l], 0);
      assert SameFields(k, k', Node(g, l));
    }
  }

  lemma SameTails(k: Links, g: Trie, k': Links)
    requires TailsOk(k, g) && forall z :: Member(g, z) ==> SameFields(k, k', z)
    ensures TailsOk(k', g)
  {
    hide Member;
    forall s <- g.ring, j | 1 <= j < |g.ring[s]|
      ensures Detached(k', g.ring[s][j]) && Rd(k'.parent, g.ring[s][j]) == 0
    {
      MemberIn(g, s, j);
      assert SameFields(k, k', g.ring[s][j]);
    }
  }

  lemma SameIndex(k: Links, g: Trie, k': Links)
    requires ShapeOk(g) && IndexOk(k, g) && forall z :: Member(g, z) ==> SameFields(k, k', z)
    ensures IndexOk(k', g)
  {
    hide Member;
    forall s <- g.ring, j | 0 <= j < |g.ring[s]|
      ensures Rd(k'.index, g.ring[s][j]) == g.home[s].bin
    {
      MemberIn(g, s, j);
      assert SameFields(k, k', g.ring[s][j]);
    }
  }

  lemma SameTrees(v: View, g: Trie, v': View)
    requires BinsOk(v.head, v.links, v.fd, v.bk, v.treebins, v.treemap, g)
    requires forall z :: Member(g, z) ==> z in v.head && z in v'.head && v'.head[z].size == v.head[z].size
    requires forall z :: Member(g, z) ==> SameWord(v.fd, v'.fd, z) && SameWord(v.bk, v'.bk, z)
    requires forall z :: Member(g, z) ==> SameFields(v.links, v'.links, z)
    ensures BinsOk(v'.head, v'.links, v'.fd, v'.bk, v.treebins, v.treemap, g)
  {
    hide ShapeOk, PlaceOk, SizesOk, RingsOk, RootsOk, NodesOk, TailsOk, IndexOk, Member;
    BinsFrame(v.head, v.links, v.fd, v.bk, v.treebins, v.treemap, g, v'.head, v'.fd, v'.bk);
    SameNodes(v.links, g, v'.links);
    SameTails(v.links, g, v'.links);
    SameIndex(v.links, g, v'.links);
  }

  /** What clients write in their payloads cannot upset the allocator. */
  lemma ClientWritesOk(v: View, w: Holdings, s: Spare, y: Layout, holes: set<Segment>, v': View)
    requires StateOk(v, w, s, y, {}) && HolesApart(holes, y.segs) && ClientWrites(v, y, holes, v')
    ensures StateOk(v', w, s, y, {})
  {
    hide AllBinsOk, BinnedIs, HeapOk, ClientWrites, HolesApart;
    ChunkWords(v, s, y, holes, v');
    SameHeap(v.head, v.foot, s, y, v'.head, v'.foot);
    BinWords(v, w, s, y, holes, v');
  }

  lemma LiveTiles(v: View, s: Spare, y: Layout)
    requires HeapOk(v.head, v.foot, s, y, {})
    ensures HeapTiles(v.head, v.foot, y.chunks, y.ends, s.top) && y.live.Keys <= y.chunks && y.binned <= y.chunks
    ensures forall p <- y.live :: p in v.head && v.head[p].cinuse
    ensures forall c <- y.chunks :: c in v.head && c > 0
    ensures forall c <- y.binned :: c !in y.live && BinnableSize(v.head[c].size)
  {
    hide SegsOk, FencesOk, FlagsOk;
    forall c <- y.chunks
      ensures c in v.head && c > 0
    {
      Positive(v.head, y.chunks, y.ends, c);
    }
    hide TileOk;
  }

  lemma ChunkWords(v: View, s: Spare, y: Layout, holes: set<Segment>, v': View)
    requires HeapOk(v.head, v.foot, s, y, {}) && HolesApart(holes, y.segs) && ClientWrites(v, y, holes, v')
    ensures forall c <- y.chunks :: c in v.head && c in v'.head && v'.head[c] == v.head[c]
    ensures forall c <- y.chunks :: !v.head[c].pinuse ==> Rd(v'.foot, c) == Rd(v.foot, c)
  {
    hide HeapOk, Outside, HeapTiles, ClearOf, HolesApart, TileOk, SegsOk;
    LiveTiles(v, s, y);
    TilesOnly(v, s, y);
    forall c <- y.chunks
      ensures c in v.head && c in v'.head && v'.head[c] == v.head[c]
      ensures !v.head[c].pinuse ==> Rd(v'.foot, c) == Rd(v.foot, c)
    {
      HeadOutside(v.head, y, c);
      Positive(v.head, y.chunks, y.ends, c);
      ClearOfHoles(v.head, y, s.top, holes, c, c + 8);
      assert NotOwned(v.head, y, holes, c + 8);
      if !v.head[c].pinuse {
        FootOutside(v.head, v.foot, y, s.top, c);
        ClearOfHoles(v.head, y, s.top, holes, c, c);
        assert NotOwned(v.head, y, holes, c);
        assert SameWord(v.foot, v'.foot, c);
      }
    }
  }

  lemma TilesOnly(v: View, s: Spare, y: Layout)
    requires HeapOk(v.head, v.foot, s, y, {})
    ensures TileOk(v.head, y.chunks, y.ends) && SegsOk(v.head, y.chunks, y.ends, s.top, y.segs)
  {
  }

  lemma FieldNotOwned(v: View, s: Spare, y: Layout, holes: set<Segment>, c: int, off: int)
    requires HeapOk(v.head, v.foot, s, y, {}) && HolesApart(holes, y.segs) && c in y.chunks && c !in y.live
    requires c in v.head && 16 <= off <= v.head[c].size
    ensures NotOwned(v.head, y, holes, c + off)
  {
    hide HeapOk, Outside, ClearOf, HolesApart, TileOk, SegsOk;
    LiveTiles(v, s, y);
    TilesOnly(v, s, y);
    FieldOutside(v.head, y, c, off);
    ClearOfHoles(v.head, y, s.top, holes, c, c + off);
  }

  lemma BinnedWords(v: View, s: Spare, y: Layout, holes: set<Segment>, v': View, c: int)
    requires HeapOk(v.head, v.foot, s, y, {}) && HolesApart(holes, y.segs) && ClientWrites(v, y, holes, v') && c in y.binned
    ensures c in v.head && SameWord(v.fd, v'.fd, c) && SameWord(v.bk, v'.bk, c)
    ensures v.head[c].size >= MIN_LARGE_SIZE ==> SameFields(v.links, v'.links, c)
  {
    hide HeapOk, NotOwned, HeapTiles, SameWord, HolesApart;
    LiveTiles(v, s, y);
    FieldNotOwned(v, s, y, holes, c, 16);
    FieldNotOwned(v, s, y, holes, c, 24);
    if v.head[c].size >= MIN_LARGE_SIZE {
      FieldNotOwned(v, s, y, holes, c, 32);
      FieldNotOwned(v, s, y, holes, c, 40);
      FieldNotOwned(v, s, y, holes, c, 48);
      FieldNotOwned(v, s, y, holes, c, 56);
    }
  }

  lemma MemberLarge(v: View, w: Holdings, z: int)
    requires AllBinsOk(v.head, v.links, v.fd, v.bk, v.smallmap, v.treebins, v.treemap, w.small, w.trie) && Member(w.trie, z)
    ensures z in v.head && v.head[z].size >= MIN_LARGE_SIZE
  {
    hide SmallOk, RootsOk;
    var s, j, l := FindMember(v.head, v.links, v.fd, v.bk, w.trie, z);
  }

  lemma BinWords(v: View, w: Holdings, s: Spare, y: Layout, holes: set<Segment>, v': View)
    requires AllBinsOk(v.head, v.links, v.fd, v.bk, v.smallmap, v.treebins, v.treemap, w.small, w.trie)
    requires BinnedIs(y.binned, w.small, w.trie) && HeapOk(v.head, v.foot, s, y, {})
    requires HolesApart(holes, y.segs) && ClientWrites(v, y, holes, v')
    requires forall c <- y.chunks :: c in v.head && c in v'.head && v'.head[c] == v.head[c]
    ensures AllBinsOk(v'.head, v'.links, v'.fd, v'.bk, v'.smallmap, v'.treebins, v'.treemap, w.small, w.trie)
    ensures v'.segs == v.segs
  {
    hide HeapOk, NotOwned, HeapTiles, BinsOk, SmallOk, InSmall, Member, SameWord, SameFields, HolesApart;
    LiveTiles(v, s, y);
    forall z <- y.binned
      ensures z in v.head && z in v'.head && v'.head[z] == v.head[z]
      ensures SameWord(v.fd, v'.fd, z) && SameWord(v.bk, v'.bk, z)
    {
      BinnedWords(v, s, y, holes, v', z);
    }
    forall z | Member(w.trie, z)
      ensures z in y.binned && SameFields(v.links, v'.links, z)
    {
      assert Binned(w.small, w.trie, z);
      MemberLarge(v, w, z);
      BinnedWords(v, s, y, holes, v', z);
    }
    forall z | InSmall(w.small, z)
      ensures z in y.binned
    {
      assert Binned(w.small, w.trie, z);
    }
    SameSmall(v, w, v');
    SameTrees(v, w.trie, v');
  }

  lemma SameSmall(v: View, w: Holdings, v': View)
    requires SmallOk(v.head, v.fd, v.bk, v.smallmap, w.small)
    requires forall z :: InSmall(w.small, z) ==> z in v.head && z in v'.head && v'.head[z].size == v.head[z].size
    requires forall z :: InSmall(w.small, z) ==> SameWord(v.fd, v'.fd, z) && SameWord(v.bk, v'.bk, z)
    requires forall z :: z < 0 ==> SameWord(v.fd, v'.fd, z) && SameWord(v.bk, v'.bk, z)
    ensures SmallOk(v'.head, v'.fd, v'.bk, v.smallmap, w.small)
  {
    hide SmallOk, InSmall;
    forall z | SmallLink(w.small, z)
      ensures Rd(v'.fd, z) == Rd(v.fd, z) && Rd(v'.bk, z) == Rd(v.bk, z)
    {
      assert SameWord(v.fd, v'.fd, z) && SameWord(v.bk, v'.bk, z);
    }
    SmallOkFrame(v.head, v.fd, v.bk, v.smallmap, w.small, v'.head, v'.fd, v'.bk);
  }

  // -------------------------------------------------------------- the tiling

  lemma {:induction false} CoverFrom(head: Heads, chunks: set<int>, ends: set<int>, c: int, a: int, l: int) returns (d: int)
    requires TileOk(head, chunks, ends) && c in chunks && c <= a < l && forall e <- ends :: !(c < e < l)
    ensures d in chunks && d <= a < Next(head, d)
    decreases a - c
  {
    assert ChunkOk(head, c);
    if a < Next(head, c) {
      d := c;
    } else {
      assert Next(head, c) in chunks;
      d := CoverFrom(head, chunks, ends, Next(head, c), a, l);
    }
  }

  lemma NoEndInside(y: Layout, i: nat, e: int)
    requires SegsApart(y.segs) && i < |y.segs| && IsLimit(y.segs, e)
    ensures !(y.segs[i].base < e < Limit(y.segs, i))
  {
    var j :| 0 <= j < |y.segs| && e == Limit(y.segs, j);
    assert SegmentOk(y.segs[i]) && SegmentOk(y.segs[j]) && (i != j ==> Apart(y.segs[i], y.segs[j]));
  }

  /** Each byte of a segment, up to its footer or last fencepost word, is in exactly one chunk. */
  lemma ChunksTileSegment(v: View, w: Holdings, s: Spare, y: Layout, loose: set<int>, i: nat, a: int) returns (c: int)
    requires StateOk(v, w, s, y, loose) && i < |v.segs| && v.segs[i].base <= a < Limit(v.segs, i)
    ensures c in y.chunks && c <= a < Next(v.head, c)
    ensures forall d <- y.chunks :: d <= a < Next(v.head, d) ==> d == c
  {
    hide AllBinsOk, BinnedIs, FlagsOk, FreeOk, LiveOk, FencesOk, HasSeg, IsLimit, SegsApart;
    SegBase(v.head, y.chunks, y.segs, i);
    forall e <- y.ends
      ensures !(y.segs[i].base < e < Limit(y.segs, i))
    {
      NoEndInside(y, i, e);
    }
    c := CoverFrom(v.head, y.chunks, y.ends, y.segs[i].base, a, Limit(y.segs, i));
  }

  /** The boundary tags around chunk c: its successor knows whether it is in use; if it
      is free its size stands in its foot, its neighbours are in use, and it is exactly
      one of top, dv and the bins. */
  lemma TagsOf(v: View, w: Holdings, s: Spare, y: Layout, c: int)
    requires StateOk(v, w, s, y, {}) && c in y.chunks
    ensures c in v.head
    ensures var n := Next(v.head, c);
      n in y.chunks ==> n in v.head && v.head[n].pinuse == v.head[c].cinuse
                        && (!v.head[c].cinuse ==> v.head[n].cinuse && Rd(v.foot, n) == v.head[c].size)
    ensures !v.head[c].cinuse ==> v.head[c].pinuse
    ensures !v.head[c].cinuse <==> c == s.top || c == s.dv || Binned(w.small, w.trie, c)
    ensures c == s.top ==> c != s.dv && !Binned(w.small, w.trie, c)
    ensures c == s.dv ==> !Binned(w.small, w.trie, c)
  {
    hide AllBinsOk, SegsOk, FencesOk, Binned;
    TagAt(v.head, v.foot, y.chunks, y.ends, s.top, c);
    if !v.head[c].cinuse {
      FreeFacts(v.head, v.foot, y.chunks, y.ends, s.top, c);
    }
    hide HeapTiles;
    assert s.dv == c ==> s.dv != 0;
  }

  lemma TagAt(head: Heads, foot: map<int, int>, chunks: set<int>, ends: set<int>, top: int, c: int)
    requires HeapTiles(head, foot, chunks, ends, top) && c in chunks
    ensures c in head && BorderOk(head, foot, chunks, c)
  {
    assert ChunkOk(head, c);
  }
}
