// What free and realloc rely on: the neighbours of a live block, the run of chunks
// that freeing it merges, and cutting a block in two (luajit/src/lj_alloc.c).

module AllocFree {
  import opened AllocSizes
  import opened AllocRing
  import opened AllocTile
  import opened AllocState
  import opened AllocSmall
  import opened AllocBits
  import opened AllocTrie
  import opened AllocSearch

  /** The chunk behind a live block: what it is if it is free, and what follows it. */
  lemma NextFacts(head: Heads, foot: map<int, int>, s: Spare, y: Layout, p: int)
    requires HeapOk(head, foot, s, y, {}) && p in y.live
    ensures p in y.chunks && p in head && head[p].cinuse && p > 0 && p % 8 == 0 && head[p].size % 8 == 0 && p !in y.pinned
    ensures BinnableSize(head[p].size) && y.live[p] + CHUNK_OVERHEAD <= head[p].size
    ensures var n := Next(head, p);
      && n in y.chunks && n in head && head[n].pinuse && n > p && head[n].size > 0 && n == p + head[p].size
      && (!head[n].cinuse ==> n == s.top || n == s.dv || n in y.binned)
      && (!head[n].cinuse && n != s.top ==>
            (BinnableSize(head[n].size) && Next(head, n) in y.chunks && Next(head, n) in head
             && head[Next(head, n)].cinuse && !head[Next(head, n)].pinuse))
      && (n == s.top ==> !head[n].cinuse && Next(head, n) !in y.chunks)
  {
    hide SegsOk, FencesOk;
    LiveNext(head, foot, s, y, {}, p);
    Positive(head, y.chunks, y.ends, p);
    var n := Next(head, p);
    Positive(head, y.chunks, y.ends, n);
    NextPinuse(head, foot, y.chunks, y.ends, s.top, p);
    if !head[n].cinuse {
      if n != s.top {
        AfterFree(head, foot, y.chunks, y.ends, s.top, n);
      } else {
        TopEnds(head, foot, y.chunks, y.ends, n);
      }
    }
    hide HeapTiles;
  }

  lemma NextPinuse(head: Heads, foot: map<int, int>, chunks: set<int>, ends: set<int>, top: int, p: int)
    requires HeapTiles(head, foot, chunks, ends, top) && p in chunks && p in head && head[p].cinuse && Next(head, p) in chunks
    ensures Next(head, p) in head && head[Next(head, p)].pinuse
  {
    assert BorderOk(head, foot, chunks, p);
  }

  /** Chunk v is free, lies right in front of p, and is dv or in a bin. */
  ghost predicate PrevIs(head: Heads, foot: map<int, int>, s: Spare, y: Layout, p: int, v: int) {
    && v in y.chunks && v in head && !head[v].cinuse && head[v].pinuse && v > 0 && v < p
    && Next(head, v) == p && head[v].size == Rd(foot, p) && v != s.top && (v == s.dv || v in y.binned)
    && BinnableSize(head[v].size)
  }

  /** The free chunk in front of a live block is found through prev_foot. */
  lemma PrevFacts(head: Heads, foot: map<int, int>, s: Spare, y: Layout, p: int)
    requires HeapOk(head, foot, s, y, {}) && p in y.live && p in head && !head[p].pinuse
    ensures PrevIs(head, foot, s, y, p, p - Rd(foot, p))
  {
    hide SegsOk, FencesOk, HeapTiles, TileOk;
    var v := p - Rd(foot, p);
    assert p in y.chunks;
    TilesOf(head, foot, y.chunks, y.ends, s.top);
    PrevChunk(head, foot, y.chunks, y.ends, s.top, p);
    Positive(head, y.chunks, y.ends, v);
    TopEnds(head, foot, y.chunks, y.ends, s.top);
    FreeFacts(head, foot, y.chunks, y.ends, s.top, v);
    hide TileOk;
  }

  lemma TilesOf(head: Heads, foot: map<int, int>, chunks: set<int>, ends: set<int>, top: int)
    requires HeapTiles(head, foot, chunks, ends, top)
    ensures TileOk(head, chunks, ends)
  {
  }

  lemma PrevChunk(head: Heads, foot: map<int, int>, chunks: set<int>, ends: set<int>, top: int, p: int)
    requires HeapTiles(head, foot, chunks, ends, top) && p in chunks && p in head && !head[p].pinuse
    ensures var v := p - Rd(foot, p); v in chunks && v in head && !head[v].cinuse && Next(head, v) == p
  {
    assert BackOk(head, foot, chunks, p);
  }

  /** The run of a live block with a loose chunk before it, behind it, on both sides, or neither. */
  lemma Span(head: Heads, foot: map<int, int>, s: Spare, y: Layout, loose: set<int>, p: int, a: int, z: int)
    requires HeapOk(head, foot, s, y, loose) && p in y.live && p in head
    requires a == p || (a in y.chunks && a in head && Next(head, a) == p)
    requires z == Next(head, p) || (Next(head, p) in y.chunks && z == Next(head, Next(head, p)))
    requires a in head && head[a].pinuse
    requires loose == {a, Next(head, p)} - {p} - (if z == Next(head, p) then {z} else {s.top})
    requires Next(head, p) == s.top ==> z != s.top
    ensures FreedRun(head, s, y, loose, p, a, z)
    ensures a != s.top && Next(head, p) != s.top ==> !(a <= s.top < z)
  {
    hide HeapTiles, SegsOk, FencesOk;
    assert p in y.chunks && s.top in y.chunks && p != s.top;
    SpanOf(head, foot, y.chunks, y.ends, s.top, p, a, z);
  }

  lemma SpanOf(head: Heads, foot: map<int, int>, chunks: set<int>, ends: set<int>, top: int, p: int, a: int, z: int)
    requires HeapTiles(head, foot, chunks, ends, top) && p in chunks
    requires a == p || (a in chunks && a in head && Next(head, a) == p)
    requires z == Next(head, p) || (Next(head, p) in chunks && z == Next(head, Next(head, p)))
    ensures Run(head, chunks, a, z) && a <= p < Next(head, p) <= z && p in head && p + head[p].size == Next(head, p)
    ensures forall c <- chunks :: a <= c < z ==> c == a || c == p || c == Next(head, p)
    ensures z != Next(head, p) ==> Next(head, p) < z
  {
    hide FlagsOk;
    InsideEmpty(head, chunks, ends, p);
    if a != p {
      InsideEmpty(head, chunks, ends, a);
    }
    if z != Next(head, p) {
      InsideEmpty(head, chunks, ends, Next(head, p));
    }
  }

  // ------------------------------------------------------ cutting a block in two

  lemma CutBothFree(head: Heads, chunks: set<int>, binned: set<int>, dv: int, dvsize: nat, top: int, topsize: nat,
                    a: int, m: int, z: int)
    requires FreeOk(head, chunks, binned, dv, dvsize, top, topsize, {}) && a in chunks && head[a].cinuse && 0 <= a < m < z
    requires m !in chunks
    ensures FreeOk(SetPinuse(head[a := Head(m - a, head[a].pinuse, true)][m := Head(z - m, true, true)], z, true),
                   chunks + {m}, binned, dv, dvsize, top, topsize, {})
  {
  }

  lemma CutBothLive(head: Heads, chunks: set<int>, live: map<int, nat>, pinned: set<int>, a: int, m: int, z: int,
                    req: nat, rest: nat)
    requires LiveOk(head, chunks, live, pinned) && a in live && a < m < z && m !in chunks
    requires BinnableSize(m - a) && req + CHUNK_OVERHEAD <= m - a && BinnableSize(z - m) && rest + CHUNK_OVERHEAD <= z - m
    ensures LiveOk(SetPinuse(head[a := Head(m - a, head[a].pinuse, true)][m := Head(z - m, true, true)], z, true),
                   chunks + {m}, live[a := req][m := rest], pinned)
  {
  }

  function TwoBlocks(live: map<int, nat>, a: int, req: nat, m: int, rest: nat): map<int, nat> {
    var first := live[a := req];
    first[m := rest]
  }

  /** The heads once the chunk at a is cut at m into two chunks in use. */
  function CutInTwo(head: Heads, a: int, m: int, z: int): Heads {
    if a in head && a < m < z then SetPinuse(head[a := Head(m - a, head[a].pinuse, true)][m := Head(z - m, true, true)], z, true)
    else head
  }

  /** The tail of a block becomes a block of its own. */
  lemma CutBothOk(head: Heads, foot: map<int, int>, s: Spare, y: Layout, p: int, m: int, z: int, req: nat, rest: nat)
    requires p < m && (m - p) % 8 == 0 && m - p >= MIN_CHUNK_SIZE && req + CHUNK_OVERHEAD <= m - p
    requires m + MIN_CHUNK_SIZE <= z && rest + CHUNK_OVERHEAD <= z - m
    requires p in y.live && p in head && z == Next(head, p)
    requires HeapOk(head, foot, s, y, {})
    ensures m !in y.chunks
    ensures HeapOk(CutInTwo(head, p, m, z), foot, s, y.(chunks := y.chunks + {m}, live := TwoBlocks(y.live, p, req, m, rest)), {})
  {
    hide TileOk, FlagsOk, Run, IsLimit, HasSeg, BasesOk, SegsApart, SegsOk, FencesOk, FreeOk, LiveOk, Inside;
    NextFacts(head, foot, s, y, p);
    InsideEmpty(head, y.chunks, y.ends, p);
    BlockRunFacts(head, foot, s, y, {}, {}, p, z);
    var head' := SetPinuse(head[p := Head(m - p, head[p].pinuse, true)][m := Head(z - m, true, true)], z, true);
    TopOutside(head, foot, y.chunks, y.ends, s.top, p, z);
    UseBoth(head, foot, y.chunks, y.ends, s.top, p, m, z);
    CutBothFree(head, y.chunks, y.binned, s.dv, s.dvsize, s.top, s.topsize, p, m, z);
    CutBothLive(head, y.chunks, y.live, y.pinned, p, m, z, req, rest);
    SegsAfterRun(head, y.chunks, y.ends, s.top, y.segs, head', p, z, {m}, s.top);
    FencesAfterRun(head, y.chunks, y.pinned, y.segs, head', p, z, {m});
    assert y.chunks - Inside(y.chunks, p, z) + {m} == y.chunks + {m};
  }

  // ------------------------------------------------------------------- no room

  /** No free chunk, wherever it is, has nb bytes (top: nb bytes and a rest). */
  ghost predicate NoRoom(head: Heads, s: Spare, y: Layout, nb: nat) {
    && s.dvsize < nb && s.topsize <= nb
    && forall c <- y.binned :: c in head && head[c].size < nb
  }

  lemma SmallTooSmall(head: Heads, k: Links, fd: Word, bk: Word, smallmap: set<nat>, treebins: seq<int>, treemap: set<nat>,
                      b: Bins, g: Trie, nb: nat, c: int)
    requires AllBinsOk(head, k, fd, bk, smallmap, treebins, treemap, b, g) && InSmall(b, c)
    requires forall i <- smallmap :: 8 * i < nb
    ensures c in head && head[c].size < nb
  {
    var i, j := FindSmall(head, fd, bk, smallmap, b, c);
    hide SmallBinOk;
  }

  lemma RootBit(treebins: seq<int>, treemap: set<nat>, g: Trie, l: Loc)
    requires ShapeOk(g) && RootsOk(treebins, treemap, g) && l in g.loc && l.bin < NTREEBINS
    ensures l.bin in treemap
  {
    Ancestors(g, l, 0);
    assert Loc(l.bin, []) == Loc(l.bin, l.path[..0]);
  }

  lemma EmptyTrees(head: Heads, k: Links, fd: Word, bk: Word, treebins: seq<int>, treemap: set<nat>, g: Trie, c: int)
    requires BinsOk(head, k, fd, bk, treebins, treemap, g) && treemap == {}
    ensures !Member(g, c)
  {
    if Member(g, c) {
      var s, j, l := FindMember(head, k, fd, bk, g, c);
      RootBit(treebins, treemap, g, l);
      hide BinsOk, TrieOk;
      assert false;
    }
  }

  lemma SmallBits(head: Heads, fd: Word, bk: Word, smallmap: set<nat>, b: Bins)
    requires SmallOk(head, fd, bk, smallmap, b)
    ensures forall i <- smallmap :: i < NSMALLBINS
  {
  }

  /** A small request finds no room when no small bin of its size or above and no tree bin is occupied. */
  lemma NoRoomSmall(head: Heads, k: Links, fd: Word, bk: Word, smallmap: set<nat>, treebins: seq<int>, treemap: set<nat>,
                    b: Bins, g: Trie, s: Spare, y: Layout, nb: nat)
    requires AllBinsOk(head, k, fd, bk, smallmap, treebins, treemap, b, g) && BinnedIs(y.binned, b, g)
    requires nb % 8 == 0 && treemap == {} && (forall i :: i in smallmap && i < NSMALLBINS ==> i < nb / 8)
    requires s.dvsize < nb && s.topsize <= nb
    ensures NoRoom(head, s, y, nb)
  {
    SmallBits(head, fd, bk, smallmap, b);
    hide SmallOk, BinsOk, InSmall, Member;
    forall c <- y.binned
      ensures c in head && head[c].size < nb
    {
      assert Binned(b, g, c);
      EmptyTrees(head, k, fd, bk, treebins, treemap, g, c);
      SmallTooSmall(head, k, fd, bk, smallmap, treebins, treemap, b, g, nb, c);
    }
  }

  lemma MemberBelow(head: Heads, k: Links, fd: Word, bk: Word, treebins: seq<int>, treemap: set<nat>, g: Trie, nb: nat, c: int)
    requires BinsOk(head, k, fd, bk, treebins, treemap, g) && Member(g, c) && NoFit(g, nb)
    ensures c in head && head[c].size < nb
  {
    var s, j, l := FindMember(head, k, fd, bk, g, c);
  }

  lemma NoRoomLarge(head: Heads, k: Links, fd: Word, bk: Word, smallmap: set<nat>, treebins: seq<int>, treemap: set<nat>,
                    b: Bins, g: Trie, s: Spare, y: Layout, nb: nat)
    requires AllBinsOk(head, k, fd, bk, smallmap, treebins, treemap, b, g) && BinnedIs(y.binned, b, g)
    requires nb >= MIN_LARGE_SIZE && (treemap == {} || NoFit(g, nb)) && s.dvsize < nb && s.topsize <= nb
    ensures NoRoom(head, s, y, nb)
  {
    SmallBits(head, fd, bk, smallmap, b);
    hide SmallOk, BinsOk, InSmall, Member, NoFit;
    forall c <- y.binned
      ensures c in head && head[c].size < nb
    {
      assert Binned(b, g, c);
      if Member(g, c) {
        if treemap == {} {
          EmptyTrees(head, k, fd, bk, treebins, treemap, g, c);
        } else {
          MemberBelow(head, k, fd, bk, treebins, treemap, g, nb, c);
        }
      } else {
        SmallTooSmall(head, k, fd, bk, smallmap, treebins, treemap, b, g, nb, c);
      }
    }
  }

  /** top as seen from everything else. */
  lemma TopApart(head: Heads, foot: map<int, int>, s: Spare, y: Layout)
    requires HeapOk(head, foot, s, y, {})
    ensures s.top !in y.live && s.top !in y.binned && y.binned <= y.chunks && forall c <- y.chunks :: c in head
    ensures forall m :: s.top < m < s.top + s.topsize ==> m !in y.chunks
  {
    hide SegsOk, FencesOk;
    InsideEmpty(head, y.chunks, y.ends, s.top);
    hide HeapTiles;
  }
}
