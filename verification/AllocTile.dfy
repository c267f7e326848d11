// Boundary tags: chunks tile the segments, every chunk knows whether its
// predecessor is in use, and free chunks never touch (luajit/src/lj_alloc.c).

module AllocTile {
  import opened AllocSizes
  import opened AllocRing

  /** next_chunk */
  function Next(head: Heads, c: int): int { if c in head then c + head[c].size else c }

  predicate ChunkOk(head: Heads, c: int) {
    c > 0 && c % MALLOC_ALIGNMENT == 0 && c in head && head[c].size > 0 && head[c].size % 8 == 0
  }

  /** The chunks lie one behind the other, without gap or overlap, up to an end. */
  ghost predicate TileOk(head: Heads, chunks: set<int>, ends: set<int>) {
    && (forall c <- chunks :: ChunkOk(head, c))
    && (forall c <- chunks :: Next(head, c) in chunks || Next(head, c) in ends)
    && (forall c, d :: c in chunks && d in chunks && c < d ==> Next(head, c) <= d)
    && (forall c, e :: c in chunks && e in ends ==> Next(head, c) <= e || e < c)
  }

  /** The tags at the border between chunk c and its successor. */
  ghost predicate BorderOk(head: Heads, foot: map<int, int>, chunks: set<int>, c: int) {
    c in head && Next(head, c) in chunks ==>
      var n := Next(head, c);
      && n in head
      && head[n].pinuse == head[c].cinuse
      && (!head[c].cinuse ==> head[n].cinuse && Rd(foot, n) == head[c].size)
  }

  /** A chunk whose predecessor is free finds it through its prev_foot. */
  ghost predicate BackOk(head: Heads, foot: map<int, int>, chunks: set<int>, c: int) {
    c in head && !head[c].pinuse ==>
      var p := c - Rd(foot, c);
      p in chunks && p in head && !head[p].cinuse && Next(head, p) == c
  }

  ghost predicate FlagsOk(head: Heads, foot: map<int, int>, chunks: set<int>, ends: set<int>, top: int) {
    && (forall c <- chunks :: BorderOk(head, foot, chunks, c))
    && (forall c <- chunks :: BackOk(head, foot, chunks, c))
    && (forall c <- chunks :: c in head && !head[c].cinuse && Next(head, c) in ends ==> c == top)
    && top in chunks && top in head && !head[top].cinuse && Next(head, top) in ends
  }

  /** The chunks strictly between a and z. */
  ghost function Inside(chunks: set<int>, a: int, z: int): set<int> { set c <- chunks | a < c < z }

  /** Up to three neighbouring chunks reach from a to z. */
  ghost predicate Run(head: Heads, chunks: set<int>, a: int, z: int) {
    && a in chunks
    && (z == Next(head, a)
        || (Next(head, a) in chunks && z == Next(head, Next(head, a)))
        || (Next(head, a) in chunks && Next(head, Next(head, a)) in chunks
            && z == Next(head, Next(head, Next(head, a)))))
  }

  lemma RunOk(head: Heads, chunks: set<int>, ends: set<int>, a: int, z: int)
    requires TileOk(head, chunks, ends) && Run(head, chunks, a, z)
    ensures a in chunks && a < z && (z - a) % 8 == 0 && (z in chunks || z in ends)
    ensures forall e <- ends :: z <= e || e < a
    ensures forall c <- chunks :: c < a ==> Next(head, c) <= a
    ensures forall c <- chunks :: a <= c < z ==> Next(head, c) <= z
  {
    var n := Next(head, a);
    assert ChunkOk(head, a);
    if n in chunks {
      assert ChunkOk(head, n);
      var m := Next(head, n);
      if m in chunks {
        assert ChunkOk(head, m);
      }
    }
  }

  /** Rewrites the run of chunks from a to z as one chunk. */
  lemma MergeTiles(head: Heads, chunks: set<int>, ends: set<int>, head': Heads, a: int, z: int)
    requires TileOk(head, chunks, ends) && Run(head, chunks, a, z)
    requires a in head' && head'[a].size == z - a
    requires forall c <- chunks :: c != a ==> c in head' && head'[c].size == head[c].size
    ensures TileOk(head', chunks - Inside(chunks, a, z), ends)
  {
    RunOk(head, chunks, ends, a, z);
    var chunks' := chunks - Inside(chunks, a, z);
    forall c <- chunks' | c != a
      ensures Next(head', c) == Next(head, c) && (Next(head, c) <= a || z <= c)
      ensures Next(head', c) in chunks' || Next(head', c) in ends
    {
    }
  }

  /** Adding one chunk to a tiling, possibly after another one shrank or grew. */
  lemma AddTile(head: Heads, chunks: set<int>, ends: set<int>, head': Heads, ends': set<int>, x: int)
    requires TileOk(head, chunks, ends) && ChunkOk(head', x)
    requires forall c <- chunks :: c != x ==> ChunkOk(head', c) && Next(head', c) == Next(head, c)
    requires forall c <- chunks :: c != x ==> Next(head, c) <= x || Next(head', x) <= c
    requires forall c <- chunks :: c != x ==> Next(head, c) in chunks || Next(head, c) == x || Next(head, c) in ends'
    requires forall e <- ends' :: Next(head', x) <= e || e < x
    requires forall e, c :: e in ends' && e !in ends && c in chunks && c != x ==> Next(head, c) <= e || e < c
    requires Next(head', x) in chunks || Next(head', x) in ends'
    ensures TileOk(head', chunks + {x}, ends')
  {
    assert Next(head', x) > x;
    forall c <- chunks | c != x
      ensures Next(head', c) > c
    {
      assert ChunkOk(head', c);
    }
    hide ChunkOk, Next;
  }

  /** Old chunks keep their extent, which lies before a or behind z. */
  ghost predicate SplitAt(head: Heads, chunks: set<int>, head': Heads, a: int, m: int, z: int) {
    && a in chunks && a < m < z && m !in chunks && Next(head', a) == m && Next(head', m) == z && Next(head, a) == z
    && forall c <- chunks :: c != a ==> Next(head', c) == Next(head, c) && (Next(head, c) <= a || z <= c)
  }

  lemma SplitPair(head: Heads, chunks: set<int>, ends: set<int>, head': Heads, a: int, m: int, z: int, c: int, d: int)
    requires TileOk(head, chunks, ends) && SplitAt(head, chunks, head', a, m, z)
    requires c in chunks + {m} && d in chunks + {m} && c < d
    ensures Next(head', c) <= d
  {
    hide ChunkOk, Next;
  }

  lemma SplitEnd(head: Heads, chunks: set<int>, ends: set<int>, head': Heads, a: int, m: int, z: int, c: int, e: int)
    requires TileOk(head, chunks, ends) && SplitAt(head, chunks, head', a, m, z) && c in chunks + {m} && e in ends
    ensures Next(head', c) <= e || e < c
  {
    hide ChunkOk, Next;
  }

  lemma SplitOne(head: Heads, chunks: set<int>, ends: set<int>, head': Heads, a: int, m: int, z: int)
    requires TileOk(head, chunks, ends) && a in chunks && z == Next(head, a)
    requires a < m < z && (m - a) % 8 == 0
    requires a in head' && head'[a].size == m - a && m in head' && head'[m].size == z - m
    requires forall c <- chunks :: c != a ==> c in head' && head'[c].size == head[c].size
    ensures TileOk(head', chunks + {m}, ends)
  {
    SplitChunks(head, chunks, ends, head', a, m, z);
    hide ChunkOk, Next, SplitAt;
    forall c <- chunks + {m}
      ensures Next(head', c) in chunks + {m} || Next(head', c) in ends
    {
      SplitNext(head, chunks, ends, head', a, m, z, c);
    }
    forall c, d | c in chunks + {m} && d in chunks + {m} && c < d
      ensures Next(head', c) <= d
    {
      SplitPair(head, chunks, ends, head', a, m, z, c, d);
    }
    forall c, e | c in chunks + {m} && e in ends
      ensures Next(head', c) <= e || e < c
    {
      SplitEnd(head, chunks, ends, head', a, m, z, c, e);
    }
  }

  lemma SplitNext(head: Heads, chunks: set<int>, ends: set<int>, head': Heads, a: int, m: int, z: int, c: int)
    requires TileOk(head, chunks, ends) && SplitAt(head, chunks, head', a, m, z) && c in chunks + {m}
    ensures Next(head', c) in chunks + {m} || Next(head', c) in ends
  {
    hide ChunkOk, Next;
  }

  lemma SplitChunks(head: Heads, chunks: set<int>, ends: set<int>, head': Heads, a: int, m: int, z: int)
    requires TileOk(head, chunks, ends) && a in chunks && z == Next(head, a)
    requires a < m < z && (m - a) % 8 == 0
    requires a in head' && head'[a].size == m - a && m in head' && head'[m].size == z - m
    requires forall c <- chunks :: c != a ==> c in head' && head'[c].size == head[c].size
    ensures SplitAt(head, chunks, head', a, m, z) && forall c <- chunks + {m} :: ChunkOk(head', c)
  {
    assert ChunkOk(head, a) && m !in chunks;
    forall c <- chunks | c != a
      ensures ChunkOk(head', c) && Next(head', c) == Next(head, c) && (Next(head, c) <= a || z <= c)
    {
      assert ChunkOk(head, c);
    }
    assert ChunkOk(head', a) && ChunkOk(head', m) && Next(head', a) == m && Next(head', m) == z;
    hide ChunkOk, Next;
  }

  /** Rewrites the run of chunks from a to z as two, with the border at m. */
  lemma SplitTiles(head: Heads, chunks: set<int>, ends: set<int>, head': Heads, a: int, m: int, z: int)
    requires TileOk(head, chunks, ends) && Run(head, chunks, a, z)
    requires a < m < z && (m - a) % 8 == 0
    requires a in head' && head'[a].size == m - a && m in head' && head'[m].size == z - m
    requires forall c <- chunks :: c != a && c != m ==> c in head' && head'[c].size == head[c].size
    ensures TileOk(head', chunks - Inside(chunks, a, z) + {m}, ends)
  {
    var head1 := head[a := Head(z - a, true, true)];
    var chunks1 := chunks - Inside(chunks, a, z);
    MergeTiles(head, chunks, ends, head1, a, z);
    hide TileOk;
    SplitOne(head1, chunks1, ends, head', a, m, z);
  }

  /** Only the run from a to z was rewritten; ms are the new borders inside it. */
  ghost predicate Rewritten(head: Heads, foot: map<int, int>, chunks: set<int>,
                            head': Heads, foot': map<int, int>, chunks': set<int>, a: int, z: int, ms: set<int>) {
    && (forall m <- ms :: a < m < z)
    && chunks' == chunks - Inside(chunks, a, z) + ms
    && (forall c <- chunks :: c != a && c != z && c !in ms ==> c in head && c in head' && head'[c] == head[c])
    && (forall n :: n != z && n !in ms ==> Rd(foot', n) == Rd(foot, n))
    && a in head && a in head' && head'[a].pinuse == head[a].pinuse
    && (head'[a].cinuse || head[a].pinuse)
    && (z in chunks ==> z in head && z in head' && head'[z].size == head[z].size && head'[z].cinuse == head[z].cinuse)
  }

  /** A chunk outside the rewritten part keeps its size and its own tag, but for a itself. */
  lemma KeepChunk(head: Heads, foot: map<int, int>, chunks: set<int>,
                  head': Heads, foot': map<int, int>, chunks': set<int>, a: int, z: int, ms: set<int>, c: int)
    requires Rewritten(head, foot, chunks, head', foot', chunks', a, z, ms) && a in chunks && a < z
    requires c in chunks && c in head && (c < a || z <= c)
    ensures c in chunks' && c in head' && head'[c].size == head[c].size && head'[c].cinuse == head[c].cinuse
    ensures c != z ==> head'[c] == head[c] && Rd(foot', c) == Rd(foot, c)
  {
  }

  lemma KeepTagged(head: Heads, foot: map<int, int>, chunks: set<int>,
                   head': Heads, foot': map<int, int>, chunks': set<int>, a: int, z: int, ms: set<int>, c: int)
    requires Rewritten(head, foot, chunks, head', foot', chunks', a, z, ms) && a in chunks && a < z
    requires c in chunks && c in head && (c <= a || z < c)
    ensures c in chunks' && c in head' && head'[c].pinuse == head[c].pinuse && Rd(foot', c) == Rd(foot, c)
  {
    if c != a {
      KeepChunk(head, foot, chunks, head', foot', chunks', a, z, ms, c);
    }
  }

  /** A neighbour of a chunk outside the rewritten part is outside as well. */
  lemma KeepPlace(head: Heads, chunks: set<int>, ends: set<int>, a: int, z: int, p: int)
    requires TileOk(head, chunks, ends) && a in chunks && a < z && (z in chunks || z in ends) && p in chunks
    ensures p in head && p < Next(head, p)
    ensures Next(head, p) <= a || z < Next(head, p) ==> p < a || z <= p
    ensures p < a || z <= p ==> Next(head, p) <= a || z < Next(head, p)
  {
    assert ChunkOk(head, p);
  }

  lemma FlagsAt(head: Heads, foot: map<int, int>, chunks: set<int>, ends: set<int>, top: int, c: int)
    requires FlagsOk(head, foot, chunks, ends, top) && c in chunks
    ensures BorderOk(head, foot, chunks, c) && BackOk(head, foot, chunks, c)
  {
    hide BorderOk, BackOk;
  }

  lemma KeepBorder(head: Heads, foot: map<int, int>, chunks: set<int>, ends: set<int>, top: int,
                   head': Heads, foot': map<int, int>, chunks': set<int>, a: int, z: int, ms: set<int>, c: int)
    requires TileOk(head, chunks, ends) && FlagsOk(head, foot, chunks, ends, top)
    requires Run(head, chunks, a, z) && Rewritten(head, foot, chunks, head', foot', chunks', a, z, ms)
    requires c in chunks && (c < a || z <= c)
    ensures BorderOk(head', foot', chunks', c)
  {
    hide FlagsOk, TileOk, Rewritten, Run;
    RunOk(head, chunks, ends, a, z);
    FlagsAt(head, foot, chunks, ends, top, c);
    KeepPlace(head, chunks, ends, a, z, c);
    KeepChunk(head, foot, chunks, head', foot', chunks', a, z, ms, c);
    var n := Next(head, c);
    KeepIn(head, foot, chunks, head', foot', chunks', a, z, ms, n);
    if n in chunks {
      KeepPlace(head, chunks, ends, a, z, n);
      KeepTagged(head, foot, chunks, head', foot', chunks', a, z, ms, n);
      KeepUsed(head, foot, chunks, head', foot', chunks', a, z, ms, n);
    }
  }

  lemma KeepIn(head: Heads, foot: map<int, int>, chunks: set<int>,
               head': Heads, foot': map<int, int>, chunks': set<int>, a: int, z: int, ms: set<int>, n: int)
    requires Rewritten(head, foot, chunks, head', foot', chunks', a, z, ms) && (n <= a || z < n)
    ensures n in chunks' ==> n in chunks
  {
  }

  lemma KeepUsed(head: Heads, foot: map<int, int>, chunks: set<int>,
                 head': Heads, foot': map<int, int>, chunks': set<int>, a: int, z: int, ms: set<int>, n: int)
    requires Rewritten(head, foot, chunks, head', foot', chunks', a, z, ms) && a in chunks && a < z
    requires n in chunks && n in head && (n <= a || z < n)
    ensures n in head' && (n != a ==> head'[n].cinuse == head[n].cinuse) && (n == a ==> head'[a].cinuse || head[a].pinuse)
  {
    if n != a {
      KeepChunk(head, foot, chunks, head', foot', chunks', a, z, ms, n);
    }
  }

  lemma KeepBack(head: Heads, foot: map<int, int>, chunks: set<int>, ends: set<int>, top: int,
                 head': Heads, foot': map<int, int>, chunks': set<int>, a: int, z: int, ms: set<int>, c: int)
    requires TileOk(head, chunks, ends) && FlagsOk(head, foot, chunks, ends, top)
    requires Run(head, chunks, a, z) && Rewritten(head, foot, chunks, head', foot', chunks', a, z, ms)
    requires c in chunks && (c <= a || z < c)
    ensures BackOk(head', foot', chunks', c)
  {
    hide FlagsOk, TileOk, Rewritten, Run;
    RunOk(head, chunks, ends, a, z);
    FlagsAt(head, foot, chunks, ends, top, c);
    KeepPlace(head, chunks, ends, a, z, c);
    KeepTagged(head, foot, chunks, head', foot', chunks', a, z, ms, c);
    var p := c - Rd(foot, c);
    if !head[c].pinuse {
      KeepPlace(head, chunks, ends, a, z, p);
      KeepChunk(head, foot, chunks, head', foot', chunks', a, z, ms, p);
    }
  }

  /** What has to hold at the new chunks themselves. */
  ghost predicate Patched(head': Heads, foot': map<int, int>, chunks': set<int>, ends: set<int>,
                          a: int, z: int, ms: set<int>, top: int, top': int) {
    && BorderOk(head', foot', chunks', a)
    && (forall m <- ms :: BorderOk(head', foot', chunks', m) && BackOk(head', foot', chunks', m))
    && (z in chunks' ==> BackOk(head', foot', chunks', z))
    && (forall c :: (c == a || c in ms) && c in head' && !head'[c].cinuse && Next(head', c) in ends ==> c == top')
    && (if a <= top < z then top' == a || top' in ms else top' == top)
    && top' in chunks' && top' in head' && !head'[top'].cinuse && Next(head', top') in ends
  }

  lemma PatchFlags(head: Heads, foot: map<int, int>, chunks: set<int>, ends: set<int>, top: int,
                   head': Heads, foot': map<int, int>, chunks': set<int>, a: int, z: int, ms: set<int>, top': int)
    requires TileOk(head, chunks, ends) && FlagsOk(head, foot, chunks, ends, top)
    requires Run(head, chunks, a, z) && Rewritten(head, foot, chunks, head', foot', chunks', a, z, ms)
    requires Patched(head', foot', chunks', ends, a, z, ms, top, top')
    ensures FlagsOk(head', foot', chunks', ends, top')
  {
    RunOk(head, chunks, ends, a, z);
    hide BorderOk, BackOk;
    forall c <- chunks'
      ensures BorderOk(head', foot', chunks', c) && BackOk(head', foot', chunks', c)
      ensures c in head' && !head'[c].cinuse && Next(head', c) in ends ==> c == top'
    {
      assert c in ms || c in chunks;
      if c in chunks {
        KeepHere(head, foot, chunks, ends, top, head', foot', chunks', a, z, ms, top', c);
      }
    }
  }

  lemma KeepHere(head: Heads, foot: map<int, int>, chunks: set<int>, ends: set<int>, top: int,
                 head': Heads, foot': map<int, int>, chunks': set<int>, a: int, z: int, ms: set<int>, top': int, c: int)
    requires TileOk(head, chunks, ends) && FlagsOk(head, foot, chunks, ends, top)
    requires Run(head, chunks, a, z) && Rewritten(head, foot, chunks, head', foot', chunks', a, z, ms)
    requires Patched(head', foot', chunks', ends, a, z, ms, top, top')
    requires c in chunks && c in chunks'
    ensures BorderOk(head', foot', chunks', c) && BackOk(head', foot', chunks', c)
    ensures c in head' && !head'[c].cinuse && Next(head', c) in ends ==> c == top'
  {
    hide BorderOk, BackOk;
    RunOk(head, chunks, ends, a, z);
    if c !in ms {
      assert c <= a || z <= c;
      if c != a {
        KeepBorder(head, foot, chunks, ends, top, head', foot', chunks', a, z, ms, c);
      }
      if c != z {
        KeepBack(head, foot, chunks, ends, top, head', foot', chunks', a, z, ms, c);
      }
      assert ChunkOk(head, c);
    }
  }

  // --------------------------------------------------------- transitions

  ghost predicate HeapTiles(head: Heads, foot: map<int, int>, chunks: set<int>, ends: set<int>, top: int) {
    TileOk(head, chunks, ends) && FlagsOk(head, foot, chunks, ends, top)
  }

  /** clear_pinuse and its opposite */
  function SetPinuse(head: Heads, c: int, b: bool): Heads {
    if c in head then head[c := head[c].(pinuse := b)] else head
  }

  lemma NotAfterFree(head: Heads, foot: map<int, int>, chunks: set<int>, c: int)
    requires c in chunks && BackOk(head, foot, chunks, c) && c in head && !head[c].cinuse
    requires forall p <- chunks :: BorderOk(head, foot, chunks, p)
    ensures head[c].pinuse
  {
    assert c - Rd(foot, c) in chunks ==> BorderOk(head, foot, chunks, c - Rd(foot, c));
  }

  /** The predecessor of a free chunk is in use. */
  lemma FreeFacts(head: Heads, foot: map<int, int>, chunks: set<int>, ends: set<int>, top: int, c: int)
    requires HeapTiles(head, foot, chunks, ends, top) && c in chunks && c in head && !head[c].cinuse
    ensures head[c].pinuse
    ensures c != top ==> Next(head, c) in chunks && Next(head, c) in head && head[Next(head, c)].cinuse
  {
    NotAfterFree(head, foot, chunks, c);
    assert ChunkOk(head, c) && BorderOk(head, foot, chunks, c);
  }

  lemma RunFacts(head: Heads, foot: map<int, int>, chunks: set<int>, ends: set<int>, top: int, a: int, z: int)
    requires HeapTiles(head, foot, chunks, ends, top) && Run(head, chunks, a, z)
    ensures a < z && (z - a) % 8 == 0 && a in chunks && a % 8 == 0 && a > 0
    ensures forall c <- chunks :: c in head
    ensures z in chunks ==> z !in ends
    ensures z !in chunks ==> z in ends
    ensures top in chunks && !head[top].cinuse && Next(head, top) in ends
  {
    RunOk(head, chunks, ends, a, z);
    assert forall c <- chunks :: ChunkOk(head, c);
  }

  /** The run becomes one chunk in use. */
  lemma UseRun(head: Heads, foot: map<int, int>, chunks: set<int>, ends: set<int>, top: int, a: int, z: int)
    requires HeapTiles(head, foot, chunks, ends, top) && Run(head, chunks, a, z) && a in head
    requires z in chunks && !(a <= top < z)
    ensures HeapTiles(SetPinuse(head[a := Head(z - a, head[a].pinuse, true)], z, true), foot,
                      chunks - Inside(chunks, a, z), ends, top)
  {
    hide TileOk, FlagsOk, Run;
    RunFacts(head, foot, chunks, ends, top, a, z);
    var head' := SetPinuse(head[a := Head(z - a, head[a].pinuse, true)], z, true);
    var chunks' := chunks - Inside(chunks, a, z);
    MergeTiles(head, chunks, ends, head', a, z);
    PatchFlags(head, foot, chunks, ends, top, head', foot, chunks', a, z, {}, top);
  }

  /** The run becomes one free chunk. */
  lemma FreeRun(head: Heads, foot: map<int, int>, chunks: set<int>, ends: set<int>, top: int, a: int, z: int)
    requires HeapTiles(head, foot, chunks, ends, top) && Run(head, chunks, a, z) && a in head && head[a].pinuse
    requires z in chunks && z in head && head[z].cinuse && !(a <= top < z)
    ensures HeapTiles(SetPinuse(head[a := Head(z - a, true, false)], z, false), foot[z := z - a],
                      chunks - Inside(chunks, a, z), ends, top)
  {
    hide TileOk, FlagsOk, Run;
    RunFacts(head, foot, chunks, ends, top, a, z);
    var head' := SetPinuse(head[a := Head(z - a, true, false)], z, false);
    var chunks' := chunks - Inside(chunks, a, z);
    MergeTiles(head, chunks, ends, head', a, z);
    PatchFlags(head, foot, chunks, ends, top, head', foot[z := z - a], chunks', a, z, {}, top);
  }

  /** The run reaches the end of its segment and becomes the top chunk. */
  lemma FreeIntoTop(head: Heads, foot: map<int, int>, chunks: set<int>, ends: set<int>, top: int, a: int, z: int)
    requires HeapTiles(head, foot, chunks, ends, top) && Run(head, chunks, a, z) && a in head && head[a].pinuse
    requires z !in chunks && a <= top < z
    ensures HeapTiles(head[a := Head(z - a, true, false)], foot, chunks - Inside(chunks, a, z), ends, a)
  {
    hide TileOk, FlagsOk, Run;
    RunFacts(head, foot, chunks, ends, top, a, z);
    var head' := head[a := Head(z - a, true, false)];
    var chunks' := chunks - Inside(chunks, a, z);
    MergeTiles(head, chunks, ends, head', a, z);
    PatchFlags(head, foot, chunks, ends, top, head', foot, chunks', a, z, {}, a);
  }

  /** The run becomes a chunk in use followed by a free one. */
  lemma UseFront(head: Heads, foot: map<int, int>, chunks: set<int>, ends: set<int>, top: int, a: int, m: int, z: int)
    requires HeapTiles(head, foot, chunks, ends, top) && Run(head, chunks, a, z) && a in head
    requires z in chunks && z in head && head[z].cinuse && !(a <= top < z)
    requires a < m < z && (m - a) % 8 == 0
    ensures HeapTiles(SetPinuse(head[a := Head(m - a, head[a].pinuse, true)][m := Head(z - m, true, false)], z, false),
                      foot[z := z - m], chunks - Inside(chunks, a, z) + {m}, ends, top)
  {
    hide TileOk, FlagsOk, Run;
    RunFacts(head, foot, chunks, ends, top, a, z);
    var head' := SetPinuse(head[a := Head(m - a, head[a].pinuse, true)][m := Head(z - m, true, false)], z, false);
    var chunks' := chunks - Inside(chunks, a, z) + {m};
    SplitTiles(head, chunks, ends, head', a, m, z);
    PatchFlags(head, foot, chunks, ends, top, head', foot[z := z - m], chunks', a, z, {m}, top);
  }

  /** The run at the end of a segment becomes a chunk in use followed by top. */
  lemma UseTopFront(head: Heads, foot: map<int, int>, chunks: set<int>, ends: set<int>, top: int, a: int, m: int, z: int)
    requires HeapTiles(head, foot, chunks, ends, top) && Run(head, chunks, a, z) && a in head
    requires z !in chunks && a <= top < z
    requires a < m < z && (m - a) % 8 == 0
    ensures HeapTiles(head[a := Head(m - a, head[a].pinuse, true)][m := Head(z - m, true, false)], foot,
                      chunks - Inside(chunks, a, z) + {m}, ends, m)
  {
    hide TileOk, FlagsOk, Run;
    RunFacts(head, foot, chunks, ends, top, a, z);
    var head' := head[a := Head(m - a, head[a].pinuse, true)][m := Head(z - m, true, false)];
    var chunks' := chunks - Inside(chunks, a, z) + {m};
    SplitTiles(head, chunks, ends, head', a, m, z);
    PatchFlags(head, foot, chunks, ends, top, head', foot, chunks', a, z, {m}, m);
  }

  /** The run becomes two chunks in use. */
  lemma UseBoth(head: Heads, foot: map<int, int>, chunks: set<int>, ends: set<int>, top: int, a: int, m: int, z: int)
    requires HeapTiles(head, foot, chunks, ends, top) && Run(head, chunks, a, z) && a in head
    requires z in chunks && !(a <= top < z)
    requires a < m < z && (m - a) % 8 == 0
    ensures HeapTiles(SetPinuse(head[a := Head(m - a, head[a].pinuse, true)][m := Head(z - m, true, true)], z, true),
                      foot, chunks - Inside(chunks, a, z) + {m}, ends, top)
  {
    hide TileOk, FlagsOk, Run;
    RunFacts(head, foot, chunks, ends, top, a, z);
    var head' := SetPinuse(head[a := Head(m - a, head[a].pinuse, true)][m := Head(z - m, true, true)], z, true);
    var chunks' := chunks - Inside(chunks, a, z) + {m};
    SplitTiles(head, chunks, ends, head', a, m, z);
    PatchFlags(head, foot, chunks, ends, top, head', foot, chunks', a, z, {m}, top);
  }
}
