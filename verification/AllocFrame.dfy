// The allocator keeps its own words out of the payload of its clients' blocks
// (luajit/src/lj_alloc.c).

module AllocFrame {
  import opened AllocSizes
  import opened AllocBits
  import opened AllocRing
  import opened AllocTile
  import opened AllocState
  import opened AllocFree
  import opened AllocRegion
  import opened AllocSegment
  import opened AllocSmall
  import opened AllocTrie
  import opened AllocView
  import opened AllocRelease
  import opened AllocClient

  // ------------------------------------------------------------- protected bytes

  /** What is protected: the first blocks[p] payload bytes of each block p, and whole regions
      elsewhere. */
  datatype Shield = Shield(blocks: map<int, nat>, regions: set<Segment>)

  /** The word at a shares no byte with what is protected. */
  ghost predicate Clear(kept: Shield, a: int) { ClearBlocks(kept.blocks, a) && ClearOf(kept.regions, a) }

  ghost predicate ClearBlocks(blocks: map<int, nat>, a: int) {
    forall p <- blocks :: a + 8 <= p + 16 || p + 16 + blocks[p] <= a
  }

  predicate SameHead(h: Heads, h': Heads, c: int) { (c in h <==> c in h') && (c in h && c in h' ==> h'[c] == h[c]) }

  /** Words at offset off of a chunk that reach into protected bytes are the same. The words
      of bins, at negative keys, are elsewhere. */
  ghost predicate SameField(kept: Shield, m: Word, m': Word, off: int) {
    forall c :: c <= 0 || Rd(m', c) == Rd(m, c) || Clear(kept, c + off)
  }

  /** Every word that reaches into protected bytes, whatever it is used for, is the same. */
  ghost predicate SameKept(kept: Shield, u: View, v: View) {
    && (forall c :: SameHead(u.head, v.head, c) || Clear(kept, c + 8))
    && SameField(kept, u.foot, v.foot, 0)
    && SameField(kept, u.fd, v.fd, 16)
    && SameField(kept, u.bk, v.bk, 24)
    && SameField(kept, u.links.left, v.links.left, 32)
    && SameField(kept, u.links.right, v.links.right, 40)
    && SameField(kept, u.links.parent, v.links.parent, 48)
    && SameField(kept, u.links.index, v.links.index, 56)
  }

  /** The protected bytes belong to live blocks, and the regions are clear of the segments. */
  ghost predicate KeptIn(kept: Shield, y: Layout) {
    && (forall p <- kept.blocks :: p in y.live && kept.blocks[p] <= y.live[p])
    && (forall g <- kept.regions :: g.size > 0) && HolesApart(kept.regions, y.segs)
  }

  ghost predicate KeptOk(kept: Shield, u: View, v: View, y: Layout) { KeptIn(kept, y) && SameKept(kept, u, v) }

  lemma KeptStart(kept: Shield, v: View)
    ensures SameKept(kept, v, v)
  {
  }

  lemma FieldTrans(kept: Shield, m: Word, m': Word, m'': Word, off: int)
    requires SameField(kept, m, m', off) && SameField(kept, m', m'', off)
    ensures SameField(kept, m, m'', off)
  {
    hide Clear;
    forall c ensures c <= 0 || Rd(m'', c) == Rd(m, c) || Clear(kept, c + off) {
      assert c <= 0 || Rd(m', c) == Rd(m, c) || Clear(kept, c + off);
    }
  }

  lemma KeptTrans(kept: Shield, u: View, v: View, w: View)
    requires SameKept(kept, u, v) && SameKept(kept, v, w)
    ensures SameKept(kept, u, w)
  {
    hide Clear, SameField;
    FieldTrans(kept, u.foot, v.foot, w.foot, 0);
    FieldTrans(kept, u.fd, v.fd, w.fd, 16);
    FieldTrans(kept, u.bk, v.bk, w.bk, 24);
    FieldTrans(kept, u.links.left, v.links.left, w.links.left, 32);
    FieldTrans(kept, u.links.right, v.links.right, w.links.right, 40);
    FieldTrans(kept, u.links.parent, v.links.parent, w.links.parent, 48);
    FieldTrans(kept, u.links.index, v.links.index, w.links.index, 56);
    forall c ensures SameHead(u.head, w.head, c) || Clear(kept, c + 8) {
      assert SameHead(u.head, v.head, c) || Clear(kept, c + 8);
      assert SameHead(v.head, w.head, c) || Clear(kept, c + 8);
    }
  }

  /** Fewer bytes. */
  ghost predicate Within(less: Shield, kept: Shield) {
    && (forall p <- less.blocks :: p in kept.blocks && less.blocks[p] <= kept.blocks[p])
    && less.regions <= kept.regions
  }

  lemma FieldFewer(kept: Shield, less: Shield, m: Word, m': Word, off: int)
    requires SameField(kept, m, m', off) && Within(less, kept)
    ensures SameField(less, m, m', off)
  {
    forall c ensures c <= 0 || Rd(m', c) == Rd(m, c) || Clear(less, c + off) {
      ClearFewer(kept, less, c + off);
    }
    hide Clear;
  }

  lemma ClearFewer(kept: Shield, less: Shield, a: int)
    requires Within(less, kept)
    ensures Clear(kept, a) ==> Clear(less, a)
  {
  }

  lemma KeptFewer(kept: Shield, less: Shield, u: View, v: View)
    requires SameKept(kept, u, v) && Within(less, kept)
    ensures SameKept(less, u, v)
  {
    hide Clear, SameField, Within;
    FieldFewer(kept, less, u.foot, v.foot, 0);
    FieldFewer(kept, less, u.fd, v.fd, 16);
    FieldFewer(kept, less, u.bk, v.bk, 24);
    FieldFewer(kept, less, u.links.left, v.links.left, 32);
    FieldFewer(kept, less, u.links.right, v.links.right, 40);
    FieldFewer(kept, less, u.links.parent, v.links.parent, 48);
    FieldFewer(kept, less, u.links.index, v.links.index, 56);
    forall c ensures SameHead(u.head, v.head, c) || Clear(less, c + 8) {
      ClearFewer(kept, less, c + 8);
    }
  }

  // --------------------------------------------------------- where the words are

  lemma OutsideClear(head: Heads, y: Layout, kept: Shield, a: int)
    requires Outside(head, y, a) && ClearOf(kept.regions, a) && LiveOk(head, y.chunks, y.live, y.pinned) && KeptIn(kept, y)
    ensures Clear(kept, a)
  {
    hide BinnableSize, ClearOf, HolesApart;
  }

  /** A head word is in no payload. */
  lemma HeadClear(head: Heads, y: Layout, top: int, kept: Shield, c: int)
    requires TileOk(head, y.chunks, y.ends) && SegsOk(head, y.chunks, y.ends, top, y.segs)
    requires LiveOk(head, y.chunks, y.live, y.pinned) && KeptIn(kept, y) && c in y.chunks
    ensures Clear(kept, c + 8)
  {
    hide BinnableSize, Clear, TileOk, SegsOk, Outside, HolesApart, ClearOf;
    HeadOutside(head, y, c);
    Positive(head, y.chunks, y.ends, c);
    ClearOfHoles(head, y, top, kept.regions, c, c + 8);
    OutsideClear(head, y, kept, c + 8);
  }

  /** Neither is the foot behind a chunk that is no block. */
  lemma FootClear(head: Heads, y: Layout, top: int, kept: Shield, a: int)
    requires TileOk(head, y.chunks, y.ends) && SegsOk(head, y.chunks, y.ends, top, y.segs)
    requires LiveOk(head, y.chunks, y.live, y.pinned) && KeptIn(kept, y) && a in y.chunks && a !in y.live
    ensures Clear(kept, Next(head, a))
  {
    hide BinnableSize, Clear, SegsOk, HolesApart, ClearOf;
    assert ChunkOk(head, a);
    forall p <- y.live | p in head
      ensures Next(head, a) + 8 <= p + 16 || p + head[p].size + 8 <= Next(head, a)
    {
      assert p in y.chunks && p != a;
      assert p < a ==> Next(head, p) <= a;
      assert a < p ==> Next(head, a) <= p;
    }
    hide TileOk;
    ClearOfHoles(head, y, top, kept.regions, a, Next(head, a));
    OutsideClear(head, y, kept, Next(head, a));
  }

  lemma FieldClear(head: Heads, y: Layout, top: int, kept: Shield, c: int, off: int)
    requires TileOk(head, y.chunks, y.ends) && SegsOk(head, y.chunks, y.ends, top, y.segs)
    requires LiveOk(head, y.chunks, y.live, y.pinned) && KeptIn(kept, y)
    requires c in y.chunks && c !in y.live && c in head && 16 <= off <= head[c].size
    ensures Clear(kept, c + off)
  {
    hide BinnableSize, Clear, TileOk, SegsOk, HolesApart, ClearOf, Outside;
    FieldOutside(head, y, c, off);
    ClearOfHoles(head, y, top, kept.regions, c, c + off);
    OutsideClear(head, y, kept, c + off);
  }

  // ------------------------------------------------------------- heads and feet

  /** Heads are written at cs only, and a foot only behind the free chunk a, if at all. */
  ghost predicate Writes(v: View, v': View, cs: set<int>, a: int) {
    && v'.fd == v.fd && v'.bk == v.bk && v'.links == v.links
    && (forall c :: c in cs || SameHead(v.head, v'.head, c))
    && (v'.foot == v.foot || forall n :: n == Next(v'.head, a) || Rd(v'.foot, n) == Rd(v.foot, n))
  }

  lemma KeptWrites(kept: Shield, u: View, v: View, w: Holdings, s: Spare, y: Layout, loose: set<int>,
                   v': View, w': Holdings, s': Spare, y': Layout, loose': set<int>, cs: set<int>, a: int)
    requires StateOk(v, w, s, y, loose) && StateOk(v', w', s', y', loose')
    requires KeptOk(kept, u, v, y) && KeptIn(kept, y') && Writes(v, v', cs, a)
    requires forall c <- cs :: c in y.chunks || c in y'.chunks
    requires v'.foot == v.foot || (a in y'.chunks && a in v'.head && !v'.head[a].cinuse)
    ensures KeptOk(kept, u, v', y')
  {
    hide AllBinsOk, BinnedIs, TileOk, FlagsOk, LiveOk, FreeOk, FencesOk, SegsOk, Clear, KeptIn, SameField, Next;
    forall c ensures SameHead(v.head, v'.head, c) || Clear(kept, c + 8) {
      if c in cs {
        if c in y.chunks {
          HeadClear(v.head, y, s.top, kept, c);
        } else {
          HeadClear(v'.head, y', s'.top, kept, c);
        }
      }
    }
    if v'.foot != v.foot {
      FreeNotLive(v'.head, y', a);
      FootClear(v'.head, y', s'.top, kept, a);
    }
    FootField(kept, v.foot, v'.foot, Next(v'.head, a));
    SameFields(kept, v);
    KeptTrans(kept, u, v, v');
  }

  lemma FreeNotLive(head: Heads, y: Layout, a: int)
    requires LiveOk(head, y.chunks, y.live, y.pinned) && a in y.chunks && a in head && !head[a].cinuse
    ensures a !in y.live
  {
  }

  lemma FootField(kept: Shield, m: map<int, int>, m': map<int, int>, n: int)
    requires m' == m || (Clear(kept, n) && forall c :: c == n || Rd(m', c) == Rd(m, c))
    ensures SameField(kept, m, m', 0)
  {
    hide Clear;
  }

  lemma SameFields(kept: Shield, v: View)
    ensures SameField(kept, v.fd, v.fd, 16) && SameField(kept, v.bk, v.bk, 24)
    ensures SameField(kept, v.links.left, v.links.left, 32) && SameField(kept, v.links.right, v.links.right, 40)
    ensures SameField(kept, v.links.parent, v.links.parent, 48) && SameField(kept, v.links.index, v.links.index, 56)
  {
  }

  // ------------------------------------------------------------------ bin links

  /** Ring links are written at x, at binned chunks and at bins only; tree links are written
      if x is large, at x and at chunks of the tree bins. */
  ghost predicate LinkWrites(fd: Word, bk: Word, k: Links, fd': Word, bk': Word, k': Links, b: Bins, g: Trie, x: int, large: bool) {
    && BinWrites(fd, bk, fd', bk', b, g, x)
    && if large then TreeWrites(k, k', g, x) else k' == k
  }

  lemma RingFields(kept: Shield, head: Heads, y: Layout, top: int, b: Bins, g: Trie, x: int, m: Word, m': Word, off: int)
    requires TileOk(head, y.chunks, y.ends) && SegsOk(head, y.chunks, y.ends, top, y.segs)
    requires LiveOk(head, y.chunks, y.live, y.pinned) && KeptIn(kept, y)
    requires 16 <= off <= 24 && x in y.chunks && x !in y.live && BinnedIs(y.binned, b, g)
    requires forall c <- y.binned + {x} :: c in y.chunks && c !in y.live && c in head && head[c].size >= MIN_CHUNK_SIZE
    requires forall z :: z > 0 && z != x && !Binned(b, g, z) ==> Rd(m', z) == Rd(m, z)
    ensures SameField(kept, m, m', off)
  {
    hide LiveOk, TileOk, SegsOk, Clear, Binned;
    forall z ensures z <= 0 || Rd(m', z) == Rd(m, z) || Clear(kept, z + off) {
      if z in y.binned + {x} {
        FieldClear(head, y, top, kept, z, off);
      } else if z > 0 {
        assert !Binned(b, g, z);
      }
    }
  }

  lemma TreeFields(kept: Shield, head: Heads, y: Layout, top: int, g: Trie, x: int, k: Links, k': Links)
    requires TileOk(head, y.chunks, y.ends) && SegsOk(head, y.chunks, y.ends, top, y.segs)
    requires LiveOk(head, y.chunks, y.live, y.pinned) && KeptIn(kept, y)
    requires TreeWrites(k, k', g, x)
    requires forall c :: Member(g, c) || c == x ==> c in y.chunks && c !in y.live && c in head && head[c].size >= MIN_LARGE_SIZE
    ensures SameField(kept, k.left, k'.left, 32) && SameField(kept, k.right, k'.right, 40)
    ensures SameField(kept, k.parent, k'.parent, 48) && SameField(kept, k.index, k'.index, 56)
  {
    hide LiveOk, TileOk, SegsOk, Clear, Member, KeptIn;
    forall z
      ensures Rd(k'.left, z) == Rd(k.left, z) || Clear(kept, z + 32)
      ensures Rd(k'.right, z) == Rd(k.right, z) || Clear(kept, z + 40)
      ensures Rd(k'.parent, z) == Rd(k.parent, z) || Clear(kept, z + 48)
      ensures Rd(k'.index, z) == Rd(k.index, z) || Clear(kept, z + 56)
    {
      if z == x || Member(g, z) {
        FieldClear(head, y, top, kept, z, 32);
        FieldClear(head, y, top, kept, z, 40);
        FieldClear(head, y, top, kept, z, 48);
        FieldClear(head, y, top, kept, z, 56);
      } else {
        assert SameLinks(k, k', z);
      }
    }
  }

  /** Binned chunks, and the free chunk x, may be written to. */
  lemma FreeToWrite(head: Heads, foot: map<int, int>, s: Spare, y: Layout, loose: set<int>, x: int)
    requires HeapOk(head, foot, s, y, loose) && x in y.chunks && x != s.top
    requires x in head && !head[x].cinuse
    ensures forall c :: c in y.binned || c == x ==> c in y.chunks && c !in y.live && c in head && head[c].size >= MIN_CHUNK_SIZE
  {
    hide HeapTiles, SegsOk, FencesOk;
  }

  lemma TreeToWrite(v: View, w: Holdings, y: Layout)
    requires AllBinsOk(v.head, v.links, v.fd, v.bk, v.smallmap, v.treebins, v.treemap, w.small, w.trie)
    requires BinnedIs(y.binned, w.small, w.trie)
    ensures forall c :: Member(w.trie, c) ==> c in y.binned && c in v.head && v.head[c].size >= MIN_LARGE_SIZE
  {
    hide SmallOk, BinsOk, Member, InSmall;
    forall c | Member(w.trie, c)
      ensures c in y.binned && c in v.head && v.head[c].size >= MIN_LARGE_SIZE
    {
      LargeMember(v.head, v.links, v.fd, v.bk, v.treebins, v.treemap, w.trie, c);
      assert Binned(w.small, w.trie, c);
    }
  }

  /** The bins are changed by linking or unlinking the free chunk x. */
  lemma KeptLinks(kept: Shield, u: View, v: View, w: Holdings, s: Spare, y: Layout, loose: set<int>,
                  fd': Word, bk': Word, k': Links, x: int)
    requires AllBinsOk(v.head, v.links, v.fd, v.bk, v.smallmap, v.treebins, v.treemap, w.small, w.trie)
    requires BinnedIs(y.binned, w.small, w.trie) && HeapOk(v.head, v.foot, s, y, loose) && KeptOk(kept, u, v, y)
    requires x in y.chunks && x != s.top && x in v.head && !v.head[x].cinuse
    requires LinkWrites(v.fd, v.bk, v.links, fd', bk', k', w.small, w.trie, x, v.head[x].size >= MIN_LARGE_SIZE)
    ensures SameKept(kept, u, v.(fd := fd', bk := bk', links := k'))
  {
    hide AllBinsOk, BinnedIs, TileOk, FlagsOk, LiveOk, FreeOk, FencesOk, SegsOk, Clear, KeptIn, SameField,
      TreeWrites, Binned, Member;
    FreeToWrite(v.head, v.foot, s, y, loose, x);
    TreeToWrite(v, w, y);
    RingFields(kept, v.head, y, s.top, w.small, w.trie, x, v.fd, fd', 16);
    RingFields(kept, v.head, y, s.top, w.small, w.trie, x, v.bk, bk', 24);
    SameFields(kept, v);
    FootField(kept, v.foot, v.foot, 0);
    if v.head[x].size >= MIN_LARGE_SIZE {
      TreeFields(kept, v.head, y, s.top, w.trie, x, v.links, k');
    }
    KeptTrans(kept, u, v, v.(fd := fd', bk := bk', links := k'));
  }

  // ------------------------------------------------------------------ transitions

  lemma KeptLive(kept: Shield, y: Layout, live': map<int, nat>)
    requires KeptIn(kept, y)
    requires forall p <- kept.blocks :: p in y.live ==> p in live' && (live'[p] == y.live[p] || kept.blocks[p] <= live'[p])
    ensures KeptIn(kept, y.(live := live'))
  {
  }

  /** Behind a loose chunk there is another one. */
  lemma BehindLoose(v: View, w: Holdings, s: Spare, y: Layout, c: int)
    requires StateOk(v, w, s, y, {c})
    ensures c in v.head && Next(v.head, c) in y.chunks
  {
    hide AllBinsOk, BinnedIs, HeapTiles, LiveOk, SegsOk, FencesOk;
    AfterFree(v.head, v.foot, y.chunks, y.ends, s.top, c);
  }

  lemma BehindLive(v: View, w: Holdings, s: Spare, y: Layout, c: int)
    requires StateOk(v, w, s, y, {}) && c in y.live
    ensures c in v.head && Next(v.head, c) in y.chunks
  {
    hide AllBinsOk, BinnedIs, HeapOk;
    LiveNext(v.head, v.foot, s, y, {}, c);
  }

  lemma UseWholeKept(kept: Shield, u: View, v: View, w: Holdings, s: Spare, y: Layout, p: int, n: nat, req: nat)
    requires StateOk(v, w, s, y, {p}) && KeptOk(kept, u, v, y) && p in v.head && v.head[p].size == n
    requires StateOk(v.(head := SetPinuse(v.head[p := Head(n, true, true)], p + n, true)), w, s, y.(live := y.live[p := req]), {})
    requires p in y.chunks && p !in y.live
    ensures KeptOk(kept, u, v.(head := SetPinuse(v.head[p := Head(n, true, true)], p + n, true)), y.(live := y.live[p := req]))
  {
    hide StateOk, SameKept;
    var v', y' := v.(head := SetPinuse(v.head[p := Head(n, true, true)], p + n, true)), y.(live := y.live[p := req]);
    BehindLoose(v, w, s, y, p);
    assert Writes(v, v', {p, p + n}, 0);
    hide Writes;
    KeptWrites(kept, u, v, w, s, y, {p}, v', w, s, y', {}, {p, p + n}, 0);
  }

  lemma UseFrontKept(kept: Shield, u: View, v: View, w: Holdings, s: Spare, y: Layout, p: int, n: nat, nb: nat, req: nat)
    requires StateOk(v, w, s, y, {p}) && KeptOk(kept, u, v, y) && p in y.chunks && p !in y.live && nb < n
    requires var r := p + nb;
             StateOk(v.(head := v.head[p := Head(nb, true, true)][r := Head(n - nb, true, false)],
                     foot := v.foot[r + (n - nb) := n - nb]),
                     w, s, y.(chunks := y.chunks + {r}, live := y.live[p := req]), {r})
    ensures var r := p + nb;
            KeptOk(kept, u, v.(head := v.head[p := Head(nb, true, true)][r := Head(n - nb, true, false)],
                               foot := v.foot[r + (n - nb) := n - nb]), y.(chunks := y.chunks + {r}, live := y.live[p := req]))
  {
    hide StateOk, SameKept;
    var r := p + nb;
    var v' := v.(head := v.head[p := Head(nb, true, true)][r := Head(n - nb, true, false)], foot := v.foot[r + (n - nb) := n - nb]);
    var y' := y.(chunks := y.chunks + {r}, live := y.live[p := req]);
    assert Writes(v, v', {p, r}, r);
    hide Writes;
    KeptWrites(kept, u, v, w, s, y, {p}, v', w, s, y', {r}, {p, r}, r);
  }

  lemma SplitTopKept(kept: Shield, u: View, v: View, w: Holdings, s: Spare, y: Layout, nb: nat, req: nat)
    requires StateOk(v, w, s, y, {}) && nb % 8 == 0 && MIN_CHUNK_SIZE <= nb < s.topsize && req + CHUNK_OVERHEAD <= nb
    requires KeptOk(kept, u, v, y)
    ensures var m, n := s.top + nb, s.topsize - nb;
            KeptOk(kept, u, v.(head := v.head[m := Head(n, true, false)][s.top := Head(nb, true, true)]),
                   y.(chunks := y.chunks + {m}, live := y.live[s.top := req]))
  {
    hide StateOk, SameKept;
    var m, n := s.top + nb, s.topsize - nb;
    var v', y' := v.(head := v.head[m := Head(n, true, false)][s.top := Head(nb, true, true)]),
                  y.(chunks := y.chunks + {m}, live := y.live[s.top := req]);
    SplitTopView(v, w, s, y, nb, req);
    TopChunk(v, w, s, y, {});
    assert Writes(v, v', {m, s.top}, 0);
    hide Writes;
    KeptWrites(kept, u, v, w, s, y, {}, v', w, s.(top := m, topsize := n), y', {}, {m, s.top}, 0);
  }

  lemma TopChunk(v: View, w: Holdings, s: Spare, y: Layout, loose: set<int>)
    requires StateOk(v, w, s, y, loose)
    ensures s.top in y.chunks && s.top in v.head && !v.head[s.top].cinuse
  {
    hide AllBinsOk, BinnedIs, HeapTiles, LiveOk, SegsOk, FencesOk;
  }

  /** A new region is clear of the protected ones. */
  ghost predicate Unused(kept: Shield, g: Segment) { forall r <- kept.regions :: Apart(g, r) }

  lemma GrownApart(kept: Shield, y: Layout, g: Segment, live': map<int, nat>)
    requires KeptIn(kept, y) && Unused(kept, g) && |y.segs| > 0
    requires forall p <- kept.blocks :: p in live' && kept.blocks[p] <= live'[p]
    ensures y.segs[0].base + y.segs[0].size == g.base ==> KeptIn(kept, y.(live := live', segs := GrownSegs(y.segs, g.size)))
    ensures KeptIn(kept, y.(live := live', segs := PushedSegs(y.segs, g)))
  {
  }

  lemma ExtendedKept(kept: Shield, y: Layout, i: nat, g: Segment, q: int, z: int, req: nat)
    requires KeptIn(kept, y) && Unused(kept, g) && i < |y.segs| && g.base + g.size == y.segs[i].base && g.base !in y.live
    ensures KeptIn(kept, PrependLayout(y, i, g, q, z, req))
  {
  }

  lemma AppendKept(kept: Shield, u: View, v: View, w: Holdings, s: Spare, y: Layout, g: Segment)
    requires StateOk(v, w, s, y, {}) && FreshRegion(v.segs, g) && Unused(kept, g)
    requires |v.segs| > 0 && g.base == v.segs[0].base + v.segs[0].size
    requires KeptOk(kept, u, v, y)
    ensures y.segs == v.segs
    ensures var l, n := Limit(v.segs, 0), s.topsize + g.size;
            KeptOk(kept, u, v.(head := v.head[s.top := Head(n, true, false)], segs := GrownSegs(v.segs, g.size)),
                   y.(ends := y.ends - {l} + {l + g.size}, segs := GrownSegs(v.segs, g.size)))
  {
    hide StateOk, SameKept, FreshRegion, GrownSegs, Limit;
    var l, n := Limit(v.segs, 0), s.topsize + g.size;
    var v', y' := v.(head := v.head[s.top := Head(n, true, false)], segs := GrownSegs(v.segs, g.size)),
                  y.(ends := y.ends - {l} + {l + g.size}, segs := GrownSegs(v.segs, g.size));
    AppendView(v, w, s, y, g);
    TopChunk(v, w, s, y, {});
    GrownApart(kept, y, g, y.live);
    hide HolesApart, Unused;
    assert Writes(v, v', {s.top}, 0);
    hide Writes;
    KeptWrites(kept, u, v, w, s, y, {}, v', w, s.(topsize := n), y', {}, {s.top}, 0);
  }

  lemma TrimmedKept(kept: Shield, y: Layout, n: nat)
    requires KeptIn(kept, y) && |y.segs| > 0 && n <= y.segs[0].size
    ensures KeptIn(kept, y.(segs := TrimmedSegs(y.segs, n)))
  {
  }

  lemma TrimKept(kept: Shield, u: View, v: View, w: Holdings, s: Spare, y: Layout, n: nat)
    requires StateOk(v, w, s, y, {}) && InPieces(n) && n % 8 == 0 && n + TOP_FOOT_SIZE < s.topsize && KeptOk(kept, u, v, y)
    ensures y.segs == v.segs && |v.segs| > 0 && n < v.segs[0].size
    ensures var l := Limit(v.segs, 0);
            KeptOk(kept, u, v.(head := v.head[s.top := Head(s.topsize - n, true, false)], segs := TrimmedSegs(v.segs, n)),
                   y.(ends := y.ends - {l} + {l - n}, segs := TrimmedSegs(y.segs, n)))
  {
    hide StateOk, SameKept, TrimmedSegs, Limit, InPieces;
    TrimView(v, w, s, y, n);
    var l := Limit(v.segs, 0);
    var v', y' := v.(head := v.head[s.top := Head(s.topsize - n, true, false)], segs := TrimmedSegs(v.segs, n)),
                  y.(ends := y.ends - {l} + {l - n}, segs := TrimmedSegs(y.segs, n));
    TopChunk(v, w, s, y, {});
    TrimmedKept(kept, y, n);
    hide HolesApart;
    assert Writes(v, v', {s.top}, 0);
    hide Writes;
    KeptWrites(kept, u, v, w, s, y, {}, v', w, s.(topsize := s.topsize - n), y', {}, {s.top}, 0);
  }

  lemma ReleaseKept(kept: Shield, u: View, v: View, y: Layout, i: nat)
    requires KeptOk(kept, u, v, y) && i < |v.segs| && y.segs == v.segs
    ensures KeptOk(kept, u, v.(segs := WithoutSeg(v.segs, i)), ReleasedLayout(y, i))
  {
    hide SameField, Clear;
  }

  lemma PrependTopKept(kept: Shield, u: View, v: View, w: Holdings, s: Spare, y: Layout, i: nat, g: Segment, nb: nat, req: nat)
    requires StateOk(v, w, s, y, {}) && FreshRegion(v.segs, g) && Unused(kept, g)
    requires i < |v.segs| && g.base + g.size == v.segs[i].base == s.top
    requires nb % 8 == 0 && MIN_CHUNK_SIZE <= nb < g.size && req + CHUNK_OVERHEAD <= nb && KeptOk(kept, u, v, y)
    ensures y.segs == v.segs
    ensures var q, n := g.base + nb, s.topsize + (g.size - nb);
            KeptOk(kept, u, v.(head := v.head[g.base := Head(nb, true, true)][q := Head(n, true, false)],
                               segs := ExtendedSegs(v.segs, i, g)), PrependLayout(y, i, g, q, s.top + s.topsize, req))
  {
    hide StateOk, SameKept, FreshRegion, PrependLayout, ExtendedSegs;
    var q, n := g.base + nb, s.topsize + (g.size - nb);
    var v' := v.(head := v.head[g.base := Head(nb, true, true)][q := Head(n, true, false)], segs := ExtendedSegs(v.segs, i, g));
    PrependTopView(v, w, s, y, i, g, nb, req);
    var y' := PrependLayout(y, i, g, q, s.top + s.topsize, req);
    PrependChunks(v, w, s, y, {}, i, g, q, s.top + s.topsize, req);
    ExtendedKept(kept, y, i, g, q, s.top + s.topsize, req);
    assert Writes(v, v', {g.base, q}, 0);
    hide Writes;
    KeptWrites(kept, u, v, w, s, y, {}, v', w, s.(top := q, topsize := n), y', {}, {g.base, q}, 0);
  }

  lemma PrependChunks(v: View, w: Holdings, s: Spare, y: Layout, loose: set<int>, i: nat, g: Segment, q: int, z: int, req: nat)
    requires StateOk(v, w, s, y, loose) && FreshRegion(v.segs, g) && i < |v.segs|
    ensures y.segs == v.segs && g.base !in y.live
    ensures q in PrependLayout(y, i, g, q, z, req).chunks && g.base in PrependLayout(y, i, g, q, z, req).chunks
  {
    hide AllBinsOk, BinnedIs, HeapOk;
    RegionEmpty(v.head, v.foot, s, y, loose, g);
    BlocksAreChunks(v, w, s, y, loose);
  }

  lemma BlocksAreChunks(v: View, w: Holdings, s: Spare, y: Layout, loose: set<int>)
    requires StateOk(v, w, s, y, loose)
    ensures y.live.Keys <= y.chunks && y.segs == v.segs
  {
    hide AllBinsOk, BinnedIs, HeapTiles, FreeOk, SegsOk, FencesOk;
  }

  lemma PrependDvKept(kept: Shield, u: View, v: View, w: Holdings, s: Spare, y: Layout, i: nat, g: Segment, nb: nat, req: nat)
    requires StateOk(v, w, s, y, {}) && FreshRegion(v.segs, g) && Unused(kept, g)
    requires i < |v.segs| && g.base + g.size == v.segs[i].base
    requires v.segs[i].base == s.dv != s.top && KeptOk(kept, u, v, y)
    requires nb % 8 == 0 && MIN_CHUNK_SIZE <= nb && nb + MIN_CHUNK_SIZE <= g.size && req + CHUNK_OVERHEAD <= nb
    ensures y.segs == v.segs
    ensures var q, n := g.base + nb, s.dvsize + (g.size - nb);
            KeptOk(kept, u, v.(head := v.head[g.base := Head(nb, true, true)][q := Head(n, true, false)],
                   foot := v.foot[q + n := n],
                               segs := ExtendedSegs(v.segs, i, g)), PrependLayout(y, i, g, q, s.dv + s.dvsize, req))
  {
    hide StateOk, SameKept, FreshRegion, PrependLayout, ExtendedSegs;
    var q, n := g.base + nb, s.dvsize + (g.size - nb);
    var v' := v.(head := v.head[g.base := Head(nb, true, true)][q := Head(n, true, false)], foot := v.foot[q + n := n],
                 segs := ExtendedSegs(v.segs, i, g));
    PrependDvView(v, w, s, y, i, g, nb, req);
    var y' := PrependLayout(y, i, g, q, s.dv + s.dvsize, req);
    PrependChunks(v, w, s, y, {}, i, g, q, s.dv + s.dvsize, req);
    ExtendedKept(kept, y, i, g, q, s.dv + s.dvsize, req);
    assert Writes(v, v', {g.base, q}, q);
    hide Writes;
    KeptWrites(kept, u, v, w, s, y, {}, v', w, s.(dv := q, dvsize := n), y', {}, {g.base, q}, q);
  }

  lemma PrependLooseKept(kept: Shield, u: View, v: View, w: Holdings, s: Spare, y: Layout, loose: set<int>, i: nat, g: Segment,
                         nb: nat, n: nat, z: int, req: nat)
    requires i < |v.segs| && g.base + nb + n == z && nb % 8 == 0 && KeptOk(kept, u, v, y)
    requires StateOk(v, w, s, y, loose) && FreshRegion(v.segs, g) && Unused(kept, g) && g.base + g.size == v.segs[i].base
    requires v.segs[i].base != s.top && z in y.chunks && z in v.head && v.head[z].cinuse
    requires MIN_CHUNK_SIZE <= nb && nb + MIN_CHUNK_SIZE <= g.size && req + CHUNK_OVERHEAD <= nb
    requires (z == v.segs[i].base && loose == {}) || (z == Next(v.head, v.segs[i].base) && loose == {v.segs[i].base})
    ensures y.segs == v.segs
    ensures KeptOk(kept, u, v.(head := LooseHeads(v.head, g.base, nb, g.base + nb, n, z), foot := v.foot[z := n],
                               segs := ExtendedSegs(v.segs, i, g)), PrependLayout(y, i, g, g.base + nb, z, req))
  {
    hide StateOk, SameKept, FreshRegion, PrependLayout, ExtendedSegs;
    var q := g.base + nb;
    var v' := v.(head := LooseHeads(v.head, g.base, nb, q, n, z), foot := v.foot[z := n], segs := ExtendedSegs(v.segs, i, g));
    PrependLooseView(v, w, s, y, loose, i, g, nb, n, z, req);
    PrependChunks(v, w, s, y, loose, i, g, q, z, req);
    ExtendedKept(kept, y, i, g, q, z, req);
    assert Writes(v, v', {g.base, q, z}, q);
    hide Writes;
    KeptWrites(kept, u, v, w, s, y, loose, v', w, s, PrependLayout(y, i, g, q, z, req), {q}, {g.base, q, z}, q);
  }

  lemma AddSegmentKept(kept: Shield, u: View, v: View, w: Holdings, s: Spare, y: Layout, g: Segment, sp: int, e: int, n: nat)
    requires |v.segs| > 0 && sp == RecordAt(s.top, s.topsize) && e == EndOfOld(v.segs) && n + TOP_FOOT_SIZE == g.size
    requires FreshRegion(v.segs, g) && Unused(kept, g) && StateOk(v, w, s, y, {}) && KeptOk(kept, u, v, y)
    ensures s.top <= sp && y.segs == v.segs
    ensures KeptOk(kept, u, v.(head := RetiredHead(v.head, s.top, sp, e)[g.base := Head(n, true, false)],
                               foot := RetiredFoot(v.foot, s.top, sp), segs := PushedSegs(v.segs, g)),
                   y.(chunks := y.chunks + RetiredSet(s.top, sp, e) + {g.base}, ends := RetiredEnds(y.segs, y.ends, g),
                      pinned := y.pinned + RetiredPins(sp, e), segs := PushedSegs(y.segs, g)))
  {
    hide StateOk, SameKept, FreshRegion, PushedSegs, RetiredEnds, RetiredPins, RetiredHead, RetiredFoot, RetiredSet, RetiredLoose,
      RecordAt, EndOfOld;
    AddSegmentView(v, w, s, y, g, sp, e, n);
    TopChunk(v, w, s, y, {});
    var v' := v.(head := RetiredHead(v.head, s.top, sp, e)[g.base := Head(n, true, false)],
                 foot := RetiredFoot(v.foot, s.top, sp), segs := PushedSegs(v.segs, g));
    var y' := y.(chunks := y.chunks + RetiredSet(s.top, sp, e) + {g.base}, ends := RetiredEnds(y.segs, y.ends, g),
                 pinned := y.pinned + RetiredPins(sp, e), segs := PushedSegs(y.segs, g));
    GrownApart(kept, y, g, y.live);
    var cs := RetiredSet(s.top, sp, e) + {s.top, g.base};
    RetireHeads(v.head, s.top, sp, e, g.base, n);
    RetireFeet(v.foot, s.top, sp, v'.head);
    hide Writes;
    KeptWrites(kept, u, v, w, s, y, {}, v', w, s.(top := g.base, topsize := n), y', RetiredLoose(s.top, sp), cs, s.top);
  }

  lemma RetireHeads(head: Heads, top: int, sp: int, e: int, base: int, n: nat)
    requires top <= sp && sp + RECORD_SIZE < e && base != top && base !in RetiredSet(top, sp, e)
    ensures var h := RetiredHead(head, top, sp, e)[base := Head(n, true, false)];
            && (forall c :: c in RetiredSet(top, sp, e) + {top, base} || SameHead(head, h, c))
            && (sp != top ==> top in h && h[top] == Head(sp - top, true, false))
  {
  }

  lemma RetireFeet(foot: map<int, int>, top: int, sp: int, head': Heads)
    requires sp != top ==> top in head' && head'[top].size == sp - top
    ensures RetiredFoot(foot, top, sp) == foot || forall n :: n == Next(head', top) || Rd(RetiredFoot(foot, top, sp), n) == Rd(foot, n)
    ensures sp == top ==> RetiredFoot(foot, top, sp) == foot
  {
  }

  lemma FreedIn(kept: Shield, y: Layout, p0: int, p: int, z: int)
    requires KeptIn(kept, y) && p0 !in kept.blocks && p in y.chunks
    ensures KeptIn(kept, FreedLayout(y, p0, p, z)) && p in FreedLayout(y, p0, p, z).chunks
  {
  }

  /** The block p0 is freed: the chunk from p on becomes one of n bytes. */
  lemma FreedKept(kept: Shield, u: View, v: View, w: Holdings, s: Spare, y: Layout, loose: set<int>, v': View, s': Spare,
                  loose': set<int>, p0: int, p: int, z: int, cs: set<int>, a: int)
    requires StateOk(v, w, s, y, loose) && StateOk(v', w, s', FreedLayout(y, p0, p, z), loose') && KeptOk(kept, u, v, y)
    requires p0 !in kept.blocks && Writes(v, v', cs, a) && p in y.chunks && forall c <- cs :: c in y.chunks
    requires v'.foot == v.foot || (a == p && p in v'.head && !v'.head[p].cinuse)
    ensures KeptOk(kept, u, v', FreedLayout(y, p0, p, z))
  {
    hide StateOk, SameKept, KeptIn, FreedLayout, Writes, Next;
    FreedIn(kept, y, p0, p, z);
    KeptWrites(kept, u, v, w, s, y, loose, v', w, s', FreedLayout(y, p0, p, z), loose', cs, a);
  }

  lemma MergeNoneKept(kept: Shield, u: View, v: View, w: Holdings, s: Spare, y: Layout, loose: set<int>, p0: int, p: int, n: nat)
    requires StateOk(v, w, s, y, loose) && FreeFrom(v.head, s, y, loose, p0, p) && NextOk(v.head, s, y, p0, p + n)
    requires v.head[p + n].cinuse && KeptOk(kept, u, v, y) && p0 !in kept.blocks
    ensures KeptOk(kept, u, v.(head := SetPinuse(v.head[p := Head(n, true, false)], p + n, false), foot := v.foot[p + n := n]),
                   FreedLayout(y, p0, p, p + n))
  {
    hide StateOk, KeptOk, FreedLayout;
    MergeNone(v, w, s, y, loose, p0, p, n);
    var v' := v.(head := SetPinuse(v.head[p := Head(n, true, false)], p + n, false), foot := v.foot[p + n := n]);
    assert p + n != p;
    assert Writes(v, v', {p, p + n}, p);
    hide Writes;
    FreedKept(kept, u, v, w, s, y, loose, v', s, {p}, p0, p, p + n, {p, p + n}, p);
  }

  lemma MergeTopKept(kept: Shield, u: View, v: View, w: Holdings, s: Spare, y: Layout, loose: set<int>, p0: int, p: int, n: nat)
    requires StateOk(v, w, s, y, loose) && FreeFrom(v.head, s, y, loose, p0, p) && NextOk(v.head, s, y, p0, p + n)
    requires p + n == s.top && KeptOk(kept, u, v, y) && p0 !in kept.blocks
    ensures KeptOk(kept, u, v.(head := v.head[p := Head(n + s.topsize, true, false)]), FreedLayout(y, p0, p, p + n + s.topsize))
  {
    hide StateOk, KeptOk, FreedLayout;
    MergeTopView(v, w, s, y, loose, p0, p, n);
    var v' := v.(head := v.head[p := Head(n + s.topsize, true, false)]);
    assert Writes(v, v', {p}, 0);
    hide Writes;
    FreedKept(kept, u, v, w, s, y, loose, v', s.(top := p, topsize := n + s.topsize), {}, p0, p, p + n + s.topsize, {p}, 0);
  }

  lemma MergeNextKept(kept: Shield, u: View, v: View, w: Holdings, s: Spare, y: Layout, loose: set<int>, p0: int, p: int,
                      n: nat, m: nat)
    requires StateOk(v, w, s, y, loose + {p + n}) && FreeFrom(v.head, s, y, loose, p0, p)
    requires p + n in y.chunks && p + n == Next(v.head, p0) && p + n in v.head && v.head[p + n].size == m > 0
    requires p + n != s.top && p + n > p0 && KeptOk(kept, u, v, y) && p0 !in kept.blocks
    requires p + n + m in y.chunks && p + n + m in v.head && v.head[p + n + m].cinuse && !v.head[p + n + m].pinuse
    ensures KeptOk(kept, u, v.(head := v.head[p := Head(n + m, true, false)], foot := v.foot[p + (n + m) := n + m]),
                   FreedLayout(y, p0, p, p + (n + m)))
  {
    hide StateOk, KeptOk, FreedLayout;
    MergeNext(v, w, s, y, loose, p0, p, n, m);
    var v' := v.(head := v.head[p := Head(n + m, true, false)], foot := v.foot[p + (n + m) := n + m]);
    assert Writes(v, v', {p}, p);
    hide Writes;
    FreedKept(kept, u, v, w, s, y, loose + {p + n}, v', s, {p}, p0, p, p + (n + m), {p}, p);
  }

  lemma MergeDvKept(kept: Shield, u: View, v: View, w: Holdings, s: Spare, y: Layout, loose: set<int>, p0: int, p: int, n: nat)
    requires StateOk(v, w, s, y, loose) && FreeFrom(v.head, s, y, loose, p0, p) && NextOk(v.head, s, y, p0, p + n)
    requires p + n == s.dv != s.top && !v.head[p + n].cinuse && s.dv != 0 && KeptOk(kept, u, v, y) && p0 !in kept.blocks
    ensures KeptOk(kept, u, v.(head := v.head[p := Head(n + s.dvsize, true, false)], foot := v.foot[p + (n + s.dvsize) := n + s.dvsize]),
                   FreedLayout(y, p0, p, p + (n + s.dvsize)))
  {
    hide StateOk, KeptOk, FreedLayout;
    MergeDv(v, w, s, y, loose, p0, p, n);
    var v' := v.(head := v.head[p := Head(n + s.dvsize, true, false)], foot := v.foot[p + (n + s.dvsize) := n + s.dvsize]);
    assert Writes(v, v', {p}, p);
    hide Writes;
    FreedKept(kept, u, v, w, s, y, loose, v', s.(dv := p, dvsize := n + s.dvsize), {}, p0, p, p + (n + s.dvsize), {p}, p);
  }

  lemma CutBothKept(kept: Shield, u: View, v: View, w: Holdings, s: Spare, y: Layout, p: int, nb: nat, n: nat,
                    req: nat, rest: nat)
    requires nb % 8 == 0 && nb >= MIN_CHUNK_SIZE && req + CHUNK_OVERHEAD <= nb
    requires n >= MIN_CHUNK_SIZE && rest + CHUNK_OVERHEAD <= n
    requires p in y.live && p in v.head && v.head[p].size == nb + n && StateOk(v, w, s, y, {})
    requires KeptOk(kept, u, v, y) && (p in kept.blocks ==> kept.blocks[p] <= req)
    ensures KeptOk(kept, u, v.(head := CutInTwo(v.head, p, p + nb, p + nb + n)),
                   y.(chunks := y.chunks + {p + nb}, live := TwoBlocks(y.live, p, req, p + nb, rest)))
  {
    hide StateOk, SameKept;
    var v' := v.(head := CutInTwo(v.head, p, p + nb, p + nb + n));
    var y' := y.(chunks := y.chunks + {p + nb}, live := TwoBlocks(y.live, p, req, p + nb, rest));
    CutBothView(v, w, s, y, p, nb, n, req, rest);
    BlocksAreChunks(v, w, s, y, {});
    BehindLive(v, w, s, y, p);
    assert Writes(v, v', {p, p + nb, p + nb + n}, 0);
    hide Writes, CutInTwo;
    KeptWrites(kept, u, v, w, s, y, {}, v', w, s, y', {}, {p, p + nb, p + nb + n}, 0);
  }

  lemma GrowTopKept(kept: Shield, u: View, v: View, w: Holdings, s: Spare, y: Layout, p: int, nb: nat, n: nat, req: nat)
    requires nb % 8 == 0 && nb >= MIN_CHUNK_SIZE && req + CHUNK_OVERHEAD <= nb && n > 0
    requires p in y.live && p in v.head && p + v.head[p].size == s.top && v.head[p].size + s.topsize == nb + n
    requires StateOk(v, w, s, y, {}) && KeptOk(kept, u, v, y) && (p in kept.blocks ==> kept.blocks[p] <= req)
    ensures KeptOk(kept, u, v.(head := v.head[p := Head(nb, v.head[p].pinuse, true)][p + nb := Head(n, true, false)]),
                   GrownLayout(y, p, p + nb, p + nb + n, req))
  {
    hide StateOk, SameKept;
    var v' := v.(head := v.head[p := Head(nb, v.head[p].pinuse, true)][p + nb := Head(n, true, false)]);
    var y' := GrownLayout(y, p, p + nb, p + nb + n, req);
    GrowTopView(v, w, s, y, p, nb, n, req);
    BlocksAreChunks(v, w, s, y, {});
    assert p + nb in y'.chunks;
    assert Writes(v, v', {p, p + nb}, 0);
    hide Writes, GrownLayout;
    KeptWrites(kept, u, v, w, s, y, {}, v', w, s.(top := p + nb, topsize := n), y', {}, {p, p + nb}, 0);
  }

  /** Binning and unbinning the free chunk x. */
  lemma BinKept(kept: Shield, u: View, v: View, w: Holdings, s: Spare, y: Layout, loose: set<int>, v': View, y': Layout, x: int)
    requires StateOk(v, w, s, y, loose) && KeptOk(kept, u, v, y)
    requires x in y.chunks && x != s.top && x in v.head && !v.head[x].cinuse
    requires v'.head == v.head && v'.foot == v.foot && y'.live == y.live && y'.segs == y.segs
    requires LinkWrites(v.fd, v.bk, v.links, v'.fd, v'.bk, v'.links, w.small, w.trie, x, v.head[x].size >= MIN_LARGE_SIZE)
    ensures KeptOk(kept, u, v', y')
  {
    hide AllBinsOk, HeapOk, BinnedIs, LinkWrites;
    KeptLinks(kept, u, v, w, s, y, loose, v'.fd, v'.bk, v'.links, x);
    hide SameField;
  }

  lemma SmallLinkWrites(fd: Word, bk: Word, k: Links, fd': Word, bk': Word, b: Bins, g: Trie, x: int, large: bool)
    requires BinWrites(fd, bk, fd', bk', b, g, x)
    ensures LinkWrites(fd, bk, k, fd', bk', k, b, g, x, large)
  {
    hide BinWrites;
    NoWrites(k, g, x);
    hide TreeWrites;
  }

  lemma BinnedFree(v: View, w: Holdings, s: Spare, y: Layout, loose: set<int>, x: int)
    requires StateOk(v, w, s, y, loose) && x in y.binned
    ensures x in y.chunks && x != s.top && x in v.head && !v.head[x].cinuse
  {
    hide AllBinsOk, BinnedIs, HeapTiles, LiveOk, SegsOk, FencesOk;
  }

  lemma UnbinKept(kept: Shield, u: View, v: View, w: Holdings, s: Spare, y: Layout, loose: set<int>, v': View, y': Layout, x: int)
    requires StateOk(v, w, s, y, loose) && KeptOk(kept, u, v, y) && x in y.binned && x in v.head
    requires v'.head == v.head && v'.foot == v.foot && y'.live == y.live && y'.segs == y.segs
    requires LinkWrites(v.fd, v.bk, v.links, v'.fd, v'.bk, v'.links, w.small, w.trie, x, v.head[x].size >= MIN_LARGE_SIZE)
    ensures KeptOk(kept, u, v', y')
  {
    hide StateOk, KeptOk, LinkWrites;
    BinnedFree(v, w, s, y, loose, x);
    BinKept(kept, u, v, w, s, y, loose, v', y', x);
  }

  // ------------------------------------------------------------------------ bytes

  /** The byte at a is part of a word that differs. Words at negative keys belong to bins. */
  predicate Touched(v: View, v': View, a: int) { exists w :: w <= a < w + 8 && TouchedWord(v, v', w) }

  /** The word at a, which may be any field of a chunk, differs. */
  predicate TouchedWord(v: View, v': View, a: int) {
    || !SameHead(v.head, v'.head, a - 8)
    || (a > 0 && Rd(v'.foot, a) != Rd(v.foot, a))
    || (a > 16 && Rd(v'.fd, a - 16) != Rd(v.fd, a - 16))
    || (a > 24 && Rd(v'.bk, a - 24) != Rd(v.bk, a - 24))
    || (a > 32 && Rd(v'.links.left, a - 32) != Rd(v.links.left, a - 32))
    || (a > 40 && Rd(v'.links.right, a - 40) != Rd(v.links.right, a - 40))
    || (a > 48 && Rd(v'.links.parent, a - 48) != Rd(v.links.parent, a - 48))
    || (a > 56 && Rd(v'.links.index, a - 56) != Rd(v.links.index, a - 56))
  }

  lemma WordKept(kept: Shield, v: View, v': View, a: int)
    requires SameKept(kept, v, v') && !Clear(kept, a)
    ensures !TouchedWord(v, v', a)
  {
    hide Clear;
    assert SameHead(v.head, v'.head, a - 8) || Clear(kept, (a - 8) + 8);
    assert a <= 0 || Rd(v'.foot, a) == Rd(v.foot, a) || Clear(kept, a + 0);
    assert a <= 16 || Rd(v'.fd, a - 16) == Rd(v.fd, a - 16) || Clear(kept, (a - 16) + 16);
    assert a <= 24 || Rd(v'.bk, a - 24) == Rd(v.bk, a - 24) || Clear(kept, (a - 24) + 24);
    assert a <= 32 || Rd(v'.links.left, a - 32) == Rd(v.links.left, a - 32) || Clear(kept, (a - 32) + 32);
    assert a <= 40 || Rd(v'.links.right, a - 40) == Rd(v.links.right, a - 40) || Clear(kept, (a - 40) + 40);
    assert a <= 48 || Rd(v'.links.parent, a - 48) == Rd(v.links.parent, a - 48) || Clear(kept, (a - 48) + 48);
    assert a <= 56 || Rd(v'.links.index, a - 56) == Rd(v.links.index, a - 56) || Clear(kept, (a - 56) + 56);
  }
}
