// Memory goes back to the system: the end of top, and old segments without blocks
// (luajit/src/lj_alloc.c).

module AllocRelease {
  import opened AllocSizes
  import opened AllocRing
  import opened AllocTile
  import opened AllocState
  import opened AllocRegion
  import opened AllocSegment
  import opened AllocSearch
  import opened AllocSmall
  import opened AllocTrie
  import opened AllocView

  // ------------------------------------------------------------------ what is left

  predicate Part(g: Segment, h: Segment) { h.base <= g.base && g.base + g.size <= h.base + h.size }

  ghost predicate PartOfSome(g: Segment, segs: seq<Segment>) { exists j :: 0 <= j < |segs| && Part(g, segs[j]) }

  /** No segment reaches beyond those that were there. */
  ghost predicate NoMore(segs: seq<Segment>, segs': seq<Segment>) {
    forall i :: 0 <= i < |segs'| ==> PartOfSome(segs'[i], segs)
  }

  lemma NoMoreSame(segs: seq<Segment>)
    ensures NoMore(segs, segs)
  {
    forall i | 0 <= i < |segs| ensures PartOfSome(segs[i], segs) {
      assert Part(segs[i], segs[i]);
    }
  }

  lemma NoMoreTrans(a: seq<Segment>, b: seq<Segment>, c: seq<Segment>)
    requires NoMore(a, b) && NoMore(b, c)
    ensures NoMore(a, c)
  {
    forall i | 0 <= i < |c| ensures PartOfSome(c[i], a) {
      assert PartOfSome(c[i], b);
      var j :| 0 <= j < |b| && Part(c[i], b[j]);
      assert PartOfSome(b[j], a);
      var k :| 0 <= k < |a| && Part(b[j], a[k]);
      assert Part(c[i], a[k]);
    }
  }

  /** A request to the system to take a region back, and whether it did. */
  datatype Return = Return(g: Segment, granted: bool)

  /** The region was offered to the system in one way, and if that failed in another. */
  ghost predicate Offered(before: seq<Return>, after: seq<Return>, g: Segment, granted: bool) {
    || (granted && after == before + [Return(g, true)])
    || after == before + [Return(g, false), Return(g, granted)]
  }

  ghost predicate OfferedOnce(before: seq<Return>, after: seq<Return>, g: Segment) {
    |after| == |before| + 1 && before <= after && after[|before|].g == g
  }

  /** The first chunk of a segment is free and takes up all of it but the tail. */
  predicate AllFree(head: Heads, g: Segment) {
    g.base in head && !head[g.base].cinuse && g.base + head[g.base].size >= g.base + g.size - TOP_FOOT_SIZE
  }

  /** Of the segments from 1 on, before i, those that are all free are only left because the system
      refused them; and those that are gone were all free and the system took them. */
  ghost predicate Swept(head: Heads, segs: seq<Segment>, segs': seq<Segment>, i: nat, log: seq<Return>) {
    && |segs'| > 0 && |segs| > 0 && segs'[0] == segs[0]
    && (forall j :: 1 <= j < |segs'| ==> segs'[j] in segs)
    && (forall j :: 1 <= j < |segs'| && j < i ==> AllFree(head, segs'[j]) ==> Return(segs'[j], false) in log)
    && (forall g <- segs :: g in segs' || (AllFree(head, g) && Return(g, true) in log))
  }

  lemma SweptStart(head: Heads, segs: seq<Segment>)
    requires |segs| > 0
    ensures Swept(head, segs, segs, 1, [])
  {
    hide AllFree;
  }

  lemma SweptAll(head: Heads, segs: seq<Segment>, segs': seq<Segment>, log: seq<Return>)
    requires Swept(head, segs, segs', |segs'|, log)
    ensures |segs| > 0 && |segs'| > 0 && segs'[0] == segs[0]
    ensures forall j :: 1 <= j < |segs'| && AllFree(head, segs'[j]) ==> Return(segs'[j], false) in log
  {
    hide AllFree;
  }

  /** Segment i was looked at, and nothing came of it. */
  lemma SweptOn(head: Heads, segs: seq<Segment>, segs': seq<Segment>, i: nat, before: seq<Return>, after: seq<Return>)
    requires Swept(head, segs, segs', i, before) && 1 <= i < |segs'|
    requires after == if AllFree(head, segs'[i]) then before + [Return(segs'[i], false)] else before
    ensures Swept(head, segs, segs', i + 1, after)
  {
    hide AllFree;
    forall r <- before ensures r in after {
    }
    assert AllFree(head, segs'[i]) ==> after[|before|] == Return(segs'[i], false);
  }

  /** Segment i was taken back. */
  lemma SweptOut(head: Heads, segs: seq<Segment>, segs': seq<Segment>, i: nat, before: seq<Return>)
    requires Swept(head, segs, segs', i, before) && 1 <= i < |segs'| && AllFree(head, segs'[i])
    ensures Swept(head, segs, WithoutSeg(segs', i), i, before + [Return(segs'[i], true)])
  {
    hide AllFree;
    var after, left := before + [Return(segs'[i], true)], WithoutSeg(segs', i);
    assert after[|before|] == Return(segs'[i], true);
    forall r <- before ensures r in after {
    }
    forall g <- segs'
      ensures g in left || g == segs'[i]
    {
      var j :| 0 <= j < |segs'| && segs'[j] == g;
      if j < i {
        assert left[j] == g;
      } else if j > i {
        assert left[j - 1] == g;
      }
    }
  }

  // ------------------------------------------------------------------ trimming top

  function TrimmedSegs(segs: seq<Segment>, n: nat): seq<Segment>
    requires |segs| > 0 && n <= segs[0].size
  {
    segs[0 := Segment(segs[0].base, segs[0].size - n)]
  }

  lemma NothingTrimmed(segs: seq<Segment>)
    requires |segs| > 0
    ensures TrimmedSegs(segs, 0) == segs
  {
  }

  lemma NoMoreTrimmed(segs: seq<Segment>, n: nat)
    requires |segs| > 0 && n <= segs[0].size
    ensures NoMore(segs, TrimmedSegs(segs, n))
  {
    var segs' := TrimmedSegs(segs, n);
    forall i | 0 <= i < |segs'| ensures PartOfSome(segs'[i], segs) {
      assert Part(segs'[i], segs[i]);
    }
  }

  /** A whole number of pieces is left. */
  lemma TrimmedSegment(h: Segment, n: nat)
    requires SegmentOk(h) && InPieces(n) && n % 8 == 0 && n < h.size
    ensures SegmentOk(Segment(h.base, h.size - n))
  {
    hide InPieces;
    PiecesSum(h.size, n);
    AtLeastOne(h.size - n);
    EightLess(h.size, n);
  }

  lemma EightLess(a: int, b: int)
    requires a % 8 == 0 && b % 8 == 0
    ensures (a - b) % 8 == 0
  {
  }

  lemma AtLeastOne(n: int)
    requires InPieces(n) && n > 0
    ensures n >= DEFAULT_GRANULARITY
  {
  }

  /** How much alloc_trim gives back of the n bytes behind the segment footer: whole pieces, but
      for one that stays. */
  function ExtraSize(n: nat): nat
    requires n > 0
  {
    ((n + (DEFAULT_GRANULARITY - 1)) / DEFAULT_GRANULARITY - 1) * DEFAULT_GRANULARITY
  }

  lemma ExtraFits(n: nat)
    requires n > 0
    ensures ExtraSize(n) < n && InPieces(ExtraSize(n)) && ExtraSize(n) % 8 == 0
    ensures n - ExtraSize(n) <= DEFAULT_GRANULARITY
  {
  }

  lemma TrimApart(segs: seq<Segment>, n: nat)
    requires SegsApart(segs) && InPieces(n) && n % 8 == 0 && n < segs[0].size
    ensures SegsApart(TrimmedSegs(segs, n))
    ensures forall i :: 1 <= i < |segs| ==> Limit(segs, i) != Limit(segs, 0) - n && Limit(segs, i) != Limit(segs, 0)
  {
    hide InPieces;
    var segs' := TrimmedSegs(segs, n);
    assert SegmentOk(segs[0]);
    TrimmedSegment(segs[0], n);
    forall i | 1 <= i < |segs|
      ensures Apart(segs'[0], segs'[i]) && SegmentOk(segs'[i])
      ensures Limit(segs, i) != Limit(segs, 0) - n && Limit(segs, i) != Limit(segs, 0)
    {
      assert Apart(segs[0], segs[i]) && SegmentOk(segs[i]);
    }
  }

  lemma TrimLimit(segs: seq<Segment>, n: nat, e: int)
    requires |segs| > 0 && n <= segs[0].size
    requires forall i :: 1 <= i < |segs| ==> Limit(segs, i) != Limit(segs, 0) - n && Limit(segs, i) != Limit(segs, 0)
    ensures (IsLimit(segs, e) && e != Limit(segs, 0)) || e == Limit(segs, 0) - n <==> IsLimit(TrimmedSegs(segs, n), e)
  {
    var segs' := TrimmedSegs(segs, n);
    assert Limit(segs', 0) == Limit(segs, 0) - n;
    assert forall i :: 1 <= i < |segs| ==> Limit(segs', i) == Limit(segs, i);
    if IsLimit(segs, e) && e != Limit(segs, 0) {
      var i :| 0 <= i < |segs| && e == Limit(segs, i);
      assert e == Limit(segs', i);
    }
    if e == Limit(segs, 0) - n {
      assert e == Limit(segs', 0);
    }
    if IsLimit(segs', e) {
      var j :| 0 <= j < |segs'| && e == Limit(segs', j);
      assert e == Limit(segs, j) || j == 0;
    }
  }

  lemma TrimSegs(head: Heads, y: Layout, s: Spare, n: nat, z: nat)
    requires SegsOk(head, y.chunks, y.ends, s.top, y.segs) && InPieces(n) && n % 8 == 0 && n < y.segs[0].size
    requires s.top in head && head[s.top].pinuse && s.top < Limit(y.segs, 0) - n
    requires forall c <- y.chunks :: c > s.top ==> c >= y.segs[0].base + y.segs[0].size
    ensures var l := Limit(y.segs, 0);
      SegsOk(head[s.top := Head(z, true, false)], y.chunks, y.ends - {l} + {l - n}, s.top, TrimmedSegs(y.segs, n))
  {
    hide SegsApart, IsLimit, HasSeg, BasesOk, InPieces;
    var segs' := TrimmedSegs(y.segs, n);
    TrimApart(y.segs, n);
    forall e
      ensures e in y.ends - {Limit(y.segs, 0)} + {Limit(y.segs, 0) - n} <==> IsLimit(segs', e)
    {
      TrimLimit(y.segs, n, e);
    }
    forall c <- y.chunks
      ensures HasSeg(segs', c)
    {
      TrimHas(y.segs, n, c, s.top);
    }
    TrimBases(head, y, s, n, z);
  }

  lemma TrimHas(segs: seq<Segment>, n: nat, c: int, top: int)
    requires HasSeg(segs, c) && |segs| > 0 && n < segs[0].size && InSeg(segs, 0, top) && top < Limit(segs, 0) - n
    requires c > top ==> c >= segs[0].base + segs[0].size
    ensures HasSeg(TrimmedSegs(segs, n), c)
  {
    var i := PickSeg(segs, c);
    assert InSeg(TrimmedSegs(segs, n), i, c);
  }

  lemma TrimBases(head: Heads, y: Layout, s: Spare, n: nat, z: nat)
    requires BasesOk(head, y.chunks, y.segs) && |y.segs| > 0 && n <= y.segs[0].size
    ensures BasesOk(head[s.top := Head(z, true, false)], y.chunks, TrimmedSegs(y.segs, n))
  {
    forall i | 0 <= i < |y.segs|
      ensures BaseOk(head[s.top := Head(z, true, false)], y.chunks, TrimmedSegs(y.segs, n)[i])
    {
      assert BaseOk(head, y.chunks, y.segs[i]);
    }
  }

  lemma TrimFences(head: Heads, y: Layout, s: Spare, n: nat, z: nat)
    requires FencesOk(head, y.chunks, y.pinned, y.segs) && LiveOk(head, y.chunks, y.live, y.pinned)
    requires |y.segs| > 0 && n <= y.segs[0].size && s.top in head && !head[s.top].cinuse
    ensures FencesOk(head[s.top := Head(z, true, false)], y.chunks, y.pinned, TrimmedSegs(y.segs, n))
  {
    hide TailPinned;
    var segs' := TrimmedSegs(y.segs, n);
    forall i | 1 <= i < |segs'|
      ensures FenceOk(head[s.top := Head(z, true, false)], y.chunks, y.pinned, Limit(segs', i) - 8)
    {
      assert FenceOk(head, y.chunks, y.pinned, Limit(y.segs, i) - 8);
      assert Limit(segs', i) == Limit(y.segs, i);
    }
  }

  /** alloc_trim: the last n bytes of the current segment go back, and top keeps more than the
      segment footer takes. */
  lemma TrimOk(head: Heads, foot: map<int, int>, s: Spare, y: Layout, n: nat)
    requires HeapOk(head, foot, s, y, {}) && InPieces(n) && n % 8 == 0 && n + TOP_FOOT_SIZE < s.topsize
    ensures |y.segs| > 0 && n < y.segs[0].size
    ensures var l := Limit(y.segs, 0);
      HeapOk(head[s.top := Head(s.topsize - n, true, false)], foot, s.(topsize := s.topsize - n),
             y.(ends := y.ends - {l} + {l - n}, segs := TrimmedSegs(y.segs, n)), {})
  {
    hide TileOk, FlagsOk, IsLimit, HasSeg, BasesOk, LiveOk, FencesOk, InPieces, SegsApart;
    BehindOld(head, foot, s, y);
    OldSize(head, foot, y, s);
    GrowFacts(head, foot, y.chunks, y.ends, s.top);
    GrowTiles(head, foot, y.chunks, y.ends, s.top, 0 - n);
    GrowFree(head, y.chunks, y.binned, s, 0 - n);
    GrowLive(head, y.chunks, y.live, y.pinned, s.top, s.topsize - n);
    TrimSegs(head, y, s, n, s.topsize - n);
    TrimFences(head, y, s, n, s.topsize - n);
  }

  lemma TrimView(v: View, w: Holdings, s: Spare, y: Layout, n: nat)
    requires StateOk(v, w, s, y, {}) && InPieces(n) && n % 8 == 0 && n + TOP_FOOT_SIZE < s.topsize
    ensures y.segs == v.segs && |v.segs| > 0 && n < v.segs[0].size
    ensures var l := Limit(v.segs, 0);
      StateOk(v.(head := v.head[s.top := Head(s.topsize - n, true, false)], segs := TrimmedSegs(v.segs, n)), w,
              s.(topsize := s.topsize - n), y.(ends := y.ends - {l} + {l - n}, segs := TrimmedSegs(y.segs, n)), {})
  {
    hide AllBinsOk, BinnedIs, HeapOk, InPieces, TrimmedSegs, Limit;
    TrimOk(v.head, v.foot, s, y, n);
    TopNotBinned(v.head, v.foot, s, y);
    var l := Limit(v.segs, 0);
    Rewrite(v, w, s, y, {}, v.head[s.top := Head(s.topsize - n, true, false)], v.foot, TrimmedSegs(v.segs, n),
            s.(topsize := s.topsize - n), y.(ends := y.ends - {l} + {l - n}, segs := TrimmedSegs(y.segs, n)), {});
  }

  lemma TopNotBinned(head: Heads, foot: map<int, int>, s: Spare, y: Layout)
    requires HeapOk(head, foot, s, y, {})
    ensures s.top !in y.binned && forall z <- y.binned :: z in head
  {
    hide HeapTiles, LiveOk, SegsOk, FencesOk;
  }

  // ------------------------------------------------------------ releasing a segment

  function WithoutSeg(segs: seq<Segment>, i: nat): seq<Segment>
    requires i < |segs|
  {
    segs[..i] + segs[i + 1..]
  }

  lemma NoMoreWithout(segs: seq<Segment>, i: nat)
    requires i < |segs|
    ensures NoMore(segs, WithoutSeg(segs, i))
  {
    var segs' := WithoutSeg(segs, i);
    forall j | 0 <= j < |segs'| ensures PartOfSome(segs'[j], segs) {
      assert segs'[j] == segs[if j < i then j else j + 1];
      assert Part(segs'[j], segs[if j < i then j else j + 1]);
    }
  }

  /** What lies in the segment. */
  ghost function Covered(cs: set<int>, g: Segment): set<int> { set c <- cs | g.base <= c < g.base + g.size }

  ghost function ReleasedLayout(y: Layout, i: nat): (r: Layout)
    requires i < |y.segs|
    ensures r.live == y.live && r.binned == y.binned && r.segs == WithoutSeg(y.segs, i)
  {
    var g := y.segs[i];
    y.(chunks := y.chunks - Covered(y.chunks, g), ends := y.ends - {Limit(y.segs, i)},
       pinned := y.pinned - Covered(y.pinned, g), segs := WithoutSeg(y.segs, i))
  }

  /** Chunks and ends are in the segment, or clear of it. */
  lemma InOrClear(head: Heads, y: Layout, top: int, i: nat)
    requires TileOk(head, y.chunks, y.ends) && SegsOk(head, y.chunks, y.ends, top, y.segs) && i < |y.segs|
    ensures var g := y.segs[i];
      && (forall c <- y.chunks :: c in head && Next(head, c) > c
            && ((g.base <= c && Next(head, c) <= Limit(y.segs, i)) || Next(head, c) < g.base || g.base + g.size <= c))
      && (forall e <- y.ends :: e == Limit(y.segs, i) || e < g.base || g.base + g.size <= e)
    ensures y.segs[i].base < Limit(y.segs, i) < y.segs[i].base + y.segs[i].size
  {
    hide TileOk, SegsOk, Limit;
    var g := y.segs[i];
    SegShape(head, y, top, i);
    forall c <- y.chunks
      ensures c in head && Next(head, c) > c
      ensures (g.base <= c && Next(head, c) <= Limit(y.segs, i)) || Next(head, c) < g.base || g.base + g.size <= c
    {
      Positive(head, y.chunks, y.ends, c);
      var j := ChunkBounds(head, y.chunks, y.ends, top, y.segs, c);
      SegPair(head, y, top, i, j);
    }
    forall e <- y.ends
      ensures e == Limit(y.segs, i) || e < g.base || g.base + g.size <= e
    {
      var j := EndOfSome(head, y, top, e);
      SegPair(head, y, top, i, j);
    }
  }

  lemma EndOfSome(head: Heads, y: Layout, top: int, e: int) returns (j: nat)
    requires SegsOk(head, y.chunks, y.ends, top, y.segs) && e in y.ends
    ensures j < |y.segs| && e == Limit(y.segs, j) && y.segs[j].base < e < y.segs[j].base + y.segs[j].size
  {
    hide BasesOk, HasSeg;
    assert IsLimit(y.segs, e);
    j :| 0 <= j < |y.segs| && e == Limit(y.segs, j);
    assert SegmentOk(y.segs[j]);
  }

  lemma SegShape(head: Heads, y: Layout, top: int, i: nat)
    requires SegsOk(head, y.chunks, y.ends, top, y.segs) && i < |y.segs|
    ensures SegmentOk(y.segs[i]) && y.segs[i].base < Limit(y.segs, i) < y.segs[i].base + y.segs[i].size
  {
    hide BasesOk, HasSeg, IsLimit;
    assert SegmentOk(y.segs[i]);
  }

  lemma SegPair(head: Heads, y: Layout, top: int, i: nat, j: nat)
    requires SegsOk(head, y.chunks, y.ends, top, y.segs) && i < |y.segs| && j < |y.segs|
    ensures i != j ==> Apart(y.segs[i], y.segs[j])
  {
    hide BasesOk, HasSeg, IsLimit;
  }

  /** An old segment whose first chunk is free and reaches up to where the record may be at the
      latest holds pinned chunks only, that one aside. */
  lemma OnlyPinned(head: Heads, y: Layout, top: int, i: nat)
    requires TileOk(head, y.chunks, y.ends) && SegsOk(head, y.chunks, y.ends, top, y.segs) && 1 <= i < |y.segs|
    requires FencesOk(head, y.chunks, y.pinned, y.segs)
    requires var g := y.segs[i];
      g.base in head && g.base !in y.pinned && g.base + head[g.base].size >= g.base + g.size - TOP_FOOT_SIZE
    ensures forall c <- Covered(y.chunks, y.segs[i]) :: c == y.segs[i].base || c in y.pinned
  {
    var g, f := y.segs[i], Limit(y.segs, i) - 8;
    hide SegsOk, TileOk, TailFrom, TailPinned;
    InOrClear(head, y, top, i);
    assert FenceOk(head, y.chunks, y.pinned, f);
    SegsBase(head, y, top, i);
    hide FencesOk;
    forall c <- Covered(y.chunks, g) | c != g.base
      ensures c in y.pinned
    {
      InTail(head, y.chunks, y.ends, y.pinned, g.base, f, c);
    }
  }

  lemma SegsBase(head: Heads, y: Layout, top: int, i: nat)
    requires SegsOk(head, y.chunks, y.ends, top, y.segs) && i < |y.segs|
    ensures y.segs[i].base in y.chunks && y.segs[i].base in head
  {
    hide SegsApart, HasSeg, IsLimit;
    SegBase(head, y.chunks, y.segs, i);
  }

  /** A chunk behind the one at p, which reaches up to the record. */
  lemma InTail(head: Heads, chunks: set<int>, ends: set<int>, pinned: set<int>, p: int, f: int, c: int)
    requires TileOk(head, chunks, ends) && TailPinned(chunks, pinned, f) && p in chunks && p !in pinned && p in head
    requires f in chunks && f in head && head[f].size == 8 && p < c < f + 8 && c in chunks && p < f
    requires Next(head, p) >= f - 48
    ensures c in pinned
  {
    var r :| TailFrom(chunks, pinned, f, r);
    assert c > f ==> Next(head, f) <= c;
    assert Next(head, p) <= c;
    hide TileOk;
  }

  lemma ReleaseTile(head: Heads, y: Layout, top: int, i: nat)
    requires TileOk(head, y.chunks, y.ends) && SegsOk(head, y.chunks, y.ends, top, y.segs) && i < |y.segs|
    ensures TileOk(head, ReleasedLayout(y, i).chunks, ReleasedLayout(y, i).ends)
  {
    InOrClear(head, y, top, i);
    hide SegsOk, Limit;
    TileWithout(head, y.chunks, y.ends, y.segs[i], Limit(y.segs, i));
    hide TileOk;
  }

  lemma TileWithout(head: Heads, chunks: set<int>, ends: set<int>, g: Segment, l: int)
    requires TileOk(head, chunks, ends) && g.base < l < g.base + g.size
    requires forall c <- chunks :: c in head && Next(head, c) > c
               && ((g.base <= c && Next(head, c) <= l) || Next(head, c) < g.base || g.base + g.size <= c)
    requires forall e <- ends :: e == l || e < g.base || g.base + g.size <= e
    ensures TileOk(head, chunks - Covered(chunks, g), ends - {l})
  {
    hide ChunkOk, Next;
    forall c <- chunks - Covered(chunks, g)
      ensures Next(head, c) in chunks - Covered(chunks, g) || Next(head, c) in ends - {l}
    {
      assert Next(head, c) in chunks || Next(head, c) in ends;
    }
  }

  lemma ReleaseFlags(head: Heads, foot: map<int, int>, y: Layout, top: int, i: nat)
    requires TileOk(head, y.chunks, y.ends) && SegsOk(head, y.chunks, y.ends, top, y.segs) && 1 <= i < |y.segs|
    requires FlagsOk(head, foot, y.chunks, y.ends, top)
    ensures FlagsOk(head, foot, ReleasedLayout(y, i).chunks, ReleasedLayout(y, i).ends, top)
  {
    hide SegsOk, TileOk, FlagsOk, Limit;
    InOrClear(head, y, top, i);
    TopElsewhere(head, y, top, i);
    FlagsWithout(head, foot, y.chunks, y.ends, top, y.segs[i], Limit(y.segs, i));
  }

  lemma FlagsWithout(head: Heads, foot: map<int, int>, chunks: set<int>, ends: set<int>, top: int, g: Segment, l: int)
    requires FlagsOk(head, foot, chunks, ends, top) && g.base < l < g.base + g.size
    requires forall c <- chunks :: c in head && Next(head, c) > c
               && ((g.base <= c && Next(head, c) <= l) || Next(head, c) < g.base || g.base + g.size <= c)
    requires top < g.base || g.base + g.size <= top
    ensures FlagsOk(head, foot, chunks - Covered(chunks, g), ends - {l}, top)
  {
    var chunks' := chunks - Covered(chunks, g);
    forall c <- chunks'
      ensures BorderOk(head, foot, chunks', c)
    {
      assert BorderOk(head, foot, chunks, c);
    }
    forall c <- chunks'
      ensures BackOk(head, foot, chunks', c)
    {
      assert BackOk(head, foot, chunks, c);
    }
    hide BorderOk, BackOk;
  }

  lemma TopElsewhere(head: Heads, y: Layout, top: int, i: nat)
    requires SegsOk(head, y.chunks, y.ends, top, y.segs) && 1 <= i < |y.segs|
    ensures top < y.segs[i].base || y.segs[i].base + y.segs[i].size <= top
  {
    hide BasesOk, HasSeg, IsLimit;
    assert Apart(y.segs[0], y.segs[i]) && SegmentOk(y.segs[0]) && SegmentOk(y.segs[i]);
  }

  lemma ReleaseFree(head: Heads, y: Layout, s: Spare, i: nat)
    requires i < |y.segs| && FreeOk(head, y.chunks, y.binned, s.dv, s.dvsize, s.top, s.topsize, {y.segs[i].base})
    requires LiveOk(head, y.chunks, y.live, y.pinned)
    requires s.top < y.segs[i].base || y.segs[i].base + y.segs[i].size <= s.top
    requires forall c <- Covered(y.chunks, y.segs[i]) :: c == y.segs[i].base || c in y.pinned
    requires y.segs[i].base in Covered(y.chunks, y.segs[i])
    ensures FreeOk(head, ReleasedLayout(y, i).chunks, y.binned, s.dv, s.dvsize, s.top, s.topsize, {})
  {
    hide BinnableSize;
  }

  lemma ReleaseLive(head: Heads, y: Layout, i: nat)
    requires i < |y.segs| && LiveOk(head, y.chunks, y.live, y.pinned) && y.segs[i].base in head && !head[y.segs[i].base].cinuse
    requires forall c <- Covered(y.chunks, y.segs[i]) :: c == y.segs[i].base || c in y.pinned
    ensures LiveOk(head, ReleasedLayout(y, i).chunks, y.live, ReleasedLayout(y, i).pinned)
  {
    hide BinnableSize;
  }

  /** The other segments, and where they are in the shorter list. */
  function Shifted(i: nat, j: nat): nat { if j < i then j else j + 1 }

  lemma WithoutAt(segs: seq<Segment>, i: nat, j: nat)
    requires 1 <= i < |segs| && j < |segs| - 1
    ensures |WithoutSeg(segs, i)| == |segs| - 1 && Shifted(i, j) < |segs| && Shifted(i, j) != i
    ensures WithoutSeg(segs, i)[j] == segs[Shifted(i, j)] && Limit(WithoutSeg(segs, i), j) == Limit(segs, Shifted(i, j))
  {
  }

  lemma WithoutHas(segs: seq<Segment>, i: nat, j: nat)
    requires 1 <= i < |segs| && j < |segs| && j != i
    ensures exists k: nat :: k < |segs| - 1 && Shifted(i, k) == j
  {
    var k := if j < i then j else j - 1;
    assert Shifted(i, k) == j;
  }

  lemma ReleaseApart(segs: seq<Segment>, i: nat)
    requires SegsApart(segs) && 1 <= i < |segs|
    ensures SegsApart(WithoutSeg(segs, i))
  {
    hide SegmentOk, Apart, Limit;
    var segs' := WithoutSeg(segs, i);
    WithoutAt(segs, i, 0);
    forall j, k | 0 <= j < |segs'| && 0 <= k < |segs'| && j != k
      ensures Apart(segs'[j], segs'[k])
    {
      WithoutAt(segs, i, j);
      WithoutAt(segs, i, k);
      assert Apart(segs[Shifted(i, j)], segs[Shifted(i, k)]);
    }
    forall j | 0 <= j < |segs'|
      ensures SegmentOk(segs'[j])
    {
      WithoutAt(segs, i, j);
    }
    hide WithoutSeg;
  }

  lemma ReleaseLimit(segs: seq<Segment>, i: nat, e: int)
    requires SegsApart(segs) && 1 <= i < |segs|
    ensures IsLimit(WithoutSeg(segs, i), e) <==> IsLimit(segs, e) && e != Limit(segs, i)
  {
    var segs' := WithoutSeg(segs, i);
    WithoutAt(segs, i, 0);
    if IsLimit(segs', e) {
      var j :| 0 <= j < |segs'| && e == Limit(segs', j);
      WithoutAt(segs, i, j);
      LimitsDiffer(segs, i, Shifted(i, j));
    }
    if IsLimit(segs, e) && e != Limit(segs, i) {
      var j :| 0 <= j < |segs| && e == Limit(segs, j);
      WithoutHas(segs, i, j);
      var k: nat :| k < |segs| - 1 && Shifted(i, k) == j;
      WithoutAt(segs, i, k);
    }
    hide WithoutSeg, Limit, SegsApart;
  }

  lemma LimitsDiffer(segs: seq<Segment>, i: nat, j: nat)
    requires SegsApart(segs) && i < |segs| && j < |segs| && i != j
    ensures Limit(segs, i) != Limit(segs, j)
  {
    assert SegmentOk(segs[i]) && SegmentOk(segs[j]) && Apart(segs[i], segs[j]);
  }

  lemma ReleaseHas(segs: seq<Segment>, i: nat, c: int)
    requires SegsApart(segs) && 1 <= i < |segs| && HasSeg(segs, c) && !(segs[i].base <= c < segs[i].base + segs[i].size)
    ensures HasSeg(WithoutSeg(segs, i), c)
  {
    assert SegmentOk(segs[i]);
    var j := PickSeg(segs, c);
    WithoutHas(segs, i, j);
    var k: nat :| k < |segs| - 1 && Shifted(i, k) == j;
    WithoutAt(segs, i, k);
    assert InSeg(WithoutSeg(segs, i), k, c);
  }

  lemma ReleaseBases(head: Heads, y: Layout, i: nat)
    requires BasesOk(head, y.chunks, y.segs) && SegsApart(y.segs) && 1 <= i < |y.segs|
    ensures BasesOk(head, ReleasedLayout(y, i).chunks, WithoutSeg(y.segs, i))
  {
    var segs' := WithoutSeg(y.segs, i);
    forall j | 0 <= j < |segs'|
      ensures BaseOk(head, ReleasedLayout(y, i).chunks, segs'[j])
    {
      WithoutAt(y.segs, i, j);
      assert BaseOk(head, y.chunks, y.segs[Shifted(i, j)]);
      assert Apart(y.segs[i], y.segs[Shifted(i, j)]) && SegmentOk(y.segs[Shifted(i, j)]);
    }
  }

  lemma ReleaseSegs(head: Heads, y: Layout, top: int, i: nat)
    requires SegsOk(head, y.chunks, y.ends, top, y.segs) && 1 <= i < |y.segs|
    ensures SegsOk(head, ReleasedLayout(y, i).chunks, ReleasedLayout(y, i).ends, top, WithoutSeg(y.segs, i))
  {
    hide SegsApart, IsLimit, HasSeg, BasesOk, WithoutSeg, Limit;
    var segs' := WithoutSeg(y.segs, i);
    WithoutAt(y.segs, i, 0);
    ReleaseApart(y.segs, i);
    forall e
      ensures e in ReleasedLayout(y, i).ends <==> IsLimit(segs', e)
    {
      ReleaseLimit(y.segs, i, e);
    }
    forall c <- ReleasedLayout(y, i).chunks
      ensures HasSeg(segs', c)
    {
      ReleaseHas(y.segs, i, c);
    }
    ReleaseBases(head, y, i);
  }

  lemma ReleaseFences(head: Heads, y: Layout, i: nat)
    requires FencesOk(head, y.chunks, y.pinned, y.segs) && SegsApart(y.segs) && 1 <= i < |y.segs|
    ensures FencesOk(head, ReleasedLayout(y, i).chunks, ReleasedLayout(y, i).pinned, WithoutSeg(y.segs, i))
  {
    hide TailFrom, TailPinned;
    var segs', y' := WithoutSeg(y.segs, i), ReleasedLayout(y, i);
    forall j | 1 <= j < |segs'|
      ensures FenceOk(head, y'.chunks, y'.pinned, Limit(segs', j) - 8)
    {
      var k := Shifted(i, j);
      WithoutAt(y.segs, i, j);
      assert FenceOk(head, y.chunks, y.pinned, Limit(y.segs, k) - 8);
      assert Apart(y.segs[i], y.segs[k]) && SegmentOk(y.segs[k]);
      TailElsewhere(y.chunks, y.pinned, Limit(y.segs, k) - 8, y.segs[i]);
    }
  }

  lemma TailElsewhere(chunks: set<int>, pinned: set<int>, f: int, g: Segment)
    requires TailPinned(chunks, pinned, f) && (f < g.base || g.base + g.size <= f - 80)
    ensures TailPinned(chunks - Covered(chunks, g), pinned - Covered(pinned, g), f)
  {
    var r :| TailFrom(chunks, pinned, f, r);
    assert TailFrom(chunks - Covered(chunks, g), pinned - Covered(pinned, g), f, r);
  }

  /** release_unused_segments: an old segment goes back as a whole, with its first chunk, which
      is taken out of its place, and with its record and fenceposts. No block is in it. */
  lemma ReleaseOk(head: Heads, foot: map<int, int>, s: Spare, y: Layout, i: nat)
    requires 1 <= i < |y.segs| && HeapOk(head, foot, s, y, {y.segs[i].base})
    requires var g := y.segs[i]; g.base in head && g.base + head[g.base].size >= g.base + g.size - TOP_FOOT_SIZE
    ensures HeapOk(head, foot, s, ReleasedLayout(y, i), {})
  {
    hide TileOk, FlagsOk, SegsOk, LiveOk, FencesOk, FreeOk, ReleasedLayout, WithoutSeg, Covered;
    LooseApart(head, foot, s, y, y.segs[i].base);
    LooseNotPinned(head, y, y.segs[i].base);
    OnlyPinned(head, y, s.top, i);
    TopElsewhere(head, y, s.top, i);
    SegShape(head, y, s.top, i);
    ReleaseTile(head, y, s.top, i);
    ReleaseFlags(head, foot, y, s.top, i);
    assert y.segs[i].base in Covered(y.chunks, y.segs[i]) by { BaseCovered(y.chunks, y.segs[i]); }
    ReleaseFree(head, y, s, i);
    ReleaseLive(head, y, i);
    ReleaseSegs(head, y, s.top, i);
    SegsAre(head, y, s.top);
    ReleaseFences(head, y, i);
  }

  lemma BaseCovered(cs: set<int>, g: Segment)
    requires g.base in cs && g.size > 0
    ensures g.base in Covered(cs, g)
  {
  }

  lemma LooseNotPinned(head: Heads, y: Layout, p: int)
    requires LiveOk(head, y.chunks, y.live, y.pinned) && p in y.chunks && p in head && !head[p].cinuse
    ensures p !in y.pinned
  {
  }

  lemma ReleaseView(v: View, w: Holdings, s: Spare, y: Layout, i: nat)
    requires 1 <= i < |v.segs| && StateOk(v, w, s, y, {v.segs[i].base})
    requires var g := v.segs[i]; g.base in v.head && g.base + v.head[g.base].size >= g.base + g.size - TOP_FOOT_SIZE
    ensures y.segs == v.segs
    ensures StateOk(v.(segs := WithoutSeg(v.segs, i)), w, s, ReleasedLayout(y, i), {})
  {
    hide AllBinsOk, BinnedIs, HeapOk, WithoutSeg;
    ReleaseOk(v.head, v.foot, s, y, i);
    LooseApart(v.head, v.foot, s, y, y.segs[i].base);
    Rewrite(v, w, s, y, {y.segs[i].base}, v.head, v.foot, WithoutSeg(v.segs, i), s, ReleasedLayout(y, i), {});
  }

  /** The first chunk of an old segment: if it is free and not dv, it is binned. A chunk that
      takes nearly all of the segment is in a tree bin. */
  lemma FirstChunkView(v: View, w: Holdings, s: Spare, y: Layout, i: nat)
    requires StateOk(v, w, s, y, {}) && 1 <= i < |v.segs|
    ensures y.segs == v.segs && v.segs[i].base in v.head && v.segs[i].base > 0
    ensures var g, p := v.segs[i], v.segs[i].base;
      && g.size >= DEFAULT_GRANULARITY
      && (!v.head[p].cinuse && p != s.dv ==> p in y.binned && Binned(w.small, w.trie, p))
  {
    hide AllBinsOk, HeapTiles, LiveOk, FencesOk, Binned;
    SegShape(v.head, y, s.top, i);
    TopElsewhere(v.head, y, s.top, i);
    SegBase(v.head, y.chunks, y.segs, i);
    hide SegsOk;
  }

  lemma LargeInTree(v: View, w: Holdings, x: int)
    requires AllBinsOk(v.head, v.links, v.fd, v.bk, v.smallmap, v.treebins, v.treemap, w.small, w.trie)
    requires Binned(w.small, w.trie, x)
    requires x in v.head && v.head[x].size >= MIN_LARGE_SIZE
    ensures Member(w.trie, x)
  {
    hide SmallOk, BinsOk, InSmall, Member;
    WhichBin(v.head, v.links, v.fd, v.bk, v.smallmap, v.treebins, v.treemap, w.small, w.trie, x);
  }
}
