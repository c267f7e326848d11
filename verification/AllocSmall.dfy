// The small bins: one circular list per chunk size below 256 bytes, with the bin
// itself as list head (luajit/src/lj_alloc.c).

module AllocSmall {
  import opened AllocSizes
  import opened AllocRing
  import opened AllocTrie
  import opened AllocBits

  /** smallbin_at: the address of a bin's list head. Never a chunk address. */
  function SmallBinAt(i: nat): int { -1 - i }

  function SmallIndex(s: nat): nat { s / 8 }

  predicate SmallSize(s: nat) { s % 8 == 0 && MIN_CHUNK_SIZE <= s < MIN_LARGE_SIZE }

  /** The chunks of each small bin in list order, newest first. */
  type Bins = seq<seq<int>>

  ghost predicate SmallBinOk(head: map<int, Head>, fd: Word, bk: Word, i: nat, r: seq<int>) {
    && (r != [] ==> RingOk(fd, bk, [SmallBinAt(i)] + r))
    && (forall j :: 0 <= j < |r| ==> SizedChunk(head, r[j], 8 * i))
  }

  ghost predicate SmallOk(head: map<int, Head>, fd: Word, bk: Word, smallmap: set<nat>, b: Bins) {
    && |b| == NSMALLBINS
    && (forall i :: 0 <= i < NSMALLBINS ==> SmallBinOk(head, fd, bk, i, b[i]))
    && (forall i :: i in smallmap <==> 0 <= i < NSMALLBINS && b[i] != [])
  }

  ghost predicate InSmall(b: Bins, x: int) { exists i :: 0 <= i < |b| && x in b[i] }

  lemma FindSmall(head: map<int, Head>, fd: Word, bk: Word, smallmap: set<nat>, b: Bins, x: int)
    returns (i: nat, j: nat)
    requires SmallOk(head, fd, bk, smallmap, b) && InSmall(b, x)
    ensures x > 0 && x in head && head[x].size == 8 * i && i == SmallIndex(head[x].size)
    ensures i < NSMALLBINS == |b| && j < |b[i]| && b[i][j] == x
    ensures RingOk(fd, bk, [SmallBinAt(i)] + b[i])
  {
    i :| 0 <= i < |b| && x in b[i];
    j :| 0 <= j < |b[i]| && b[i][j] == x;
    assert SmallBinOk(head, fd, bk, i, b[i]);
    assert SizedChunk(head, x, 8 * i);
    hide RingOk;
  }

  /** Links of other chunks do not matter to a bin. */
  lemma SmallFrame(head: map<int, Head>, fd: Word, bk: Word, fd': Word, bk': Word, i: nat, r: seq<int>)
    requires SmallBinOk(head, fd, bk, i, r)
    requires forall z :: z in r || z == SmallBinAt(i) ==> Rd(fd', z) == Rd(fd, z) && Rd(bk', z) == Rd(bk, z)
    ensures SmallBinOk(head, fd', bk', i, r)
  {
    if r != [] {
      RingFrame(fd, bk, fd', bk', [SmallBinAt(i)] + r);
    }
    hide RingOk;
  }

  lemma SizeInBin(head: map<int, Head>, fd: Word, bk: Word, smallmap: set<nat>, b: Bins, k: nat, z: int)
    requires SmallOk(head, fd, bk, smallmap, b) && k < NSMALLBINS && z in b[k]
    ensures z > 0 && z in head && head[z].size == 8 * k
  {
    var j :| 0 <= j < |b[k]| && b[k][j] == z;
    assert SmallBinOk(head, fd, bk, k, b[k]);
    assert SizedChunk(head, z, 8 * k);
    hide RingOk;
  }

  /** Chunk z belongs to bin i only. */
  lemma OtherSmall(head: map<int, Head>, fd: Word, bk: Word, smallmap: set<nat>, b: Bins, i: nat, k: nat, z: int)
    requires SmallOk(head, fd, bk, smallmap, b) && i < NSMALLBINS && k < NSMALLBINS && i != k
    requires z in b[i] || z == SmallBinAt(i)
    ensures z !in b[k] && z != SmallBinAt(k)
  {
    assert |b| == NSMALLBINS;
    hide SmallOk;
    if z in b[k] {
      SizeInBin(head, fd, bk, smallmap, b, k, z);
    }
    if z in b[i] {
      SizeInBin(head, fd, bk, smallmap, b, i, z);
    }
  }

  /** The link writes of one bin's operation leave all other bins alone. */
  lemma OnlyBin(head: map<int, Head>, fd: Word, bk: Word, smallmap: set<nat>, b: Bins,
                fd': Word, bk': Word, smallmap': set<nat>, i: nat, r: seq<int>, x: int)
    requires SmallOk(head, fd, bk, smallmap, b) && i < NSMALLBINS && (!InSmall(b, x) || x in b[i]) && x > 0
    requires SmallBinOk(head, fd', bk', i, r)
    requires forall z :: z != x && z !in b[i] && z != SmallBinAt(i) ==> Rd(fd', z) == Rd(fd, z) && Rd(bk', z) == Rd(bk, z)
    requires smallmap' == if r != [] then smallmap + {i} else smallmap - {i}
    ensures SmallOk(head, fd', bk', smallmap', b[i := r])
  {
    hide SmallBinOk;
    forall k | 0 <= k < NSMALLBINS && k != i && x in b[i]
      ensures x !in b[k]
    {
      OtherSmall(head, fd, bk, smallmap, b, i, k, x);
    }
    forall k | 0 <= k < NSMALLBINS && k != i
      ensures SmallBinOk(head, fd', bk', k, b[k])
    {
      forall z | z in b[k] || z == SmallBinAt(k)
        ensures Rd(fd', z) == Rd(fd, z) && Rd(bk', z) == Rd(bk, z)
      {
        OtherSmall(head, fd, bk, smallmap, b, k, i, z);
        assert z in b[k] ==> InSmall(b, z);
      }
      SmallFrame(head, fd, bk, fd', bk', k, b[k]);
    }
  }

  /** insert_small_chunk */
  lemma InsertSmallOk(head: map<int, Head>, fd: Word, bk: Word, smallmap: set<nat>, b: Bins, x: int, i: nat, f: int)
    requires SmallOk(head, fd, bk, smallmap, b) && i < NSMALLBINS && !InSmall(b, x) && SizedChunk(head, x, 8 * i)
    requires f == if i in smallmap then Rd(fd, SmallBinAt(i)) else SmallBinAt(i)
    ensures var n := SmallBinAt(i);
            SmallOk(head, fd[n := x][x := f], bk[f := x][x := n], smallmap + {i}, b[i := [x] + b[i]])
  {
    var n := SmallBinAt(i);
    var fd', bk' := fd[n := x][x := f], bk[f := x][x := n];
    var r := [x] + b[i];
    assert SmallBinOk(head, fd, bk, i, b[i]);
    assert x !in b[i];
    if b[i] != [] {
      RingInsert(fd, bk, [n] + b[i], x, f);
      assert [([n] + b[i])[0], x] + ([n] + b[i])[1..] == [n] + r;
      assert f == ([n] + b[i])[After([n] + b[i], 0)];
    } else {
      assert RingOk(fd', bk', [n, x]);
      assert [n] + r == [n, x];
    }
    SmallSizes(head, i, x, b[i]);
    hide RingOk, SmallOk;
    OnlyBin(head, fd, bk, smallmap, b, fd', bk', smallmap + {i}, i, r, x);
  }

  lemma SmallSizes(head: map<int, Head>, i: nat, x: int, r: seq<int>)
    requires SizedChunk(head, x, 8 * i) && forall j :: 0 <= j < |r| ==> SizedChunk(head, r[j], 8 * i)
    ensures forall j :: 0 <= j < |[x] + r| ==> SizedChunk(head, ([x] + r)[j], 8 * i)
  {
  }

  /** unlink_small_chunk; unlink_first_small_chunk is the case j == 0. */
  lemma UnlinkSmallOk(head: map<int, Head>, fd: Word, bk: Word, smallmap: set<nat>, b: Bins, i: nat, j: nat, f: int, p: int)
    requires SmallOk(head, fd, bk, smallmap, b) && i < NSMALLBINS && j < |b[i]|
    requires f == Rd(fd, b[i][j]) && p == Rd(bk, b[i][j])
    ensures f == p <==> |b[i]| == 1
    ensures f == p ==> SmallOk(head, fd, bk, smallmap - {i}, b[i := b[i][..j] + b[i][j + 1..]])
    ensures f != p ==> SmallOk(head, fd[p := f], bk[f := p], smallmap, b[i := b[i][..j] + b[i][j + 1..]])
  {
    var n := SmallBinAt(i);
    var c := [n] + b[i];
    var r := b[i][..j] + b[i][j + 1..];
    var x := b[i][j];
    assert SmallBinOk(head, fd, bk, i, b[i]);
    assert SizedChunk(head, x, 8 * i);
    assert c[j + 1] == x;
    RingAlone(fd, bk, c, j + 1);
    if f == p {
      assert r == [];
      hide RingOk;
      OnlyBin(head, fd, bk, smallmap, b, fd, bk, smallmap - {i}, i, r, x);
    } else {
      RingRemove(fd, bk, c, j + 1, f, p);
      assert c[..j + 1] + c[j + 2..] == [n] + r;
      RingBack(fd, bk, c, j + 1);
      assert f in c && p in c;
      hide RingOk;
      UnlinkSmallRest(head, fd, bk, smallmap, b, i, j, f, p, r);
    }
  }

  lemma UnlinkSmallRest(head: map<int, Head>, fd: Word, bk: Word, smallmap: set<nat>, b: Bins, i: nat, j: nat,
                        f: int, p: int, r: seq<int>)
    requires SmallOk(head, fd, bk, smallmap, b) && i < NSMALLBINS && j < |b[i]| && |b[i]| >= 2
    requires f in [SmallBinAt(i)] + b[i] && p in [SmallBinAt(i)] + b[i]
    requires r == b[i][..j] + b[i][j + 1..] && RingOk(fd[p := f], bk[f := p], [SmallBinAt(i)] + r)
    ensures SmallOk(head, fd[p := f], bk[f := p], smallmap, b[i := r])
  {
    hide RingOk;
    assert SmallBinOk(head, fd, bk, i, b[i]);
    forall k | 0 <= k < |r|
      ensures SizedChunk(head, r[k], 8 * i)
    {
      assert r[k] == b[i][if k < j then k else k + 1];
    }
    assert SizedChunk(head, b[i][j], 8 * i);
    assert smallmap == smallmap + {i};
    OnlyBin(head, fd, bk, smallmap, b, fd[p := f], bk[f := p], smallmap, i, r, b[i][j]);
  }

  // ---------------------------------------------------- small and tree bins

  /** Chunk x is in some bin. */
  ghost predicate Binned(b: Bins, g: Trie, x: int) { InSmall(b, x) || Member(g, x) }

  /** A small bin's list head or a chunk in a small bin. */
  ghost predicate SmallLink(b: Bins, z: int) { InSmall(b, z) || -NSMALLBINS <= z < 0 }

  lemma SmallOkFrame(head: Heads, fd: Word, bk: Word, smallmap: set<nat>, b: Bins, head': Heads, fd': Word, bk': Word)
    requires SmallOk(head, fd, bk, smallmap, b)
    requires forall z :: InSmall(b, z) ==> z in head' && z in head && head'[z].size == head[z].size
    requires forall z :: SmallLink(b, z) ==> Rd(fd', z) == Rd(fd, z) && Rd(bk', z) == Rd(bk, z)
    ensures SmallOk(head', fd', bk', smallmap, b)
  {
    hide RingOk;
    forall i | 0 <= i < NSMALLBINS
      ensures SmallBinOk(head', fd', bk', i, b[i])
    {
      assert SmallBinOk(head, fd, bk, i, b[i]);
      SmallBinFrame(head, fd, bk, b, head', fd', bk', i);
    }
  }

  lemma SmallBinFrame(head: Heads, fd: Word, bk: Word, b: Bins, head': Heads, fd': Word, bk': Word, i: nat)
    requires |b| == NSMALLBINS && i < NSMALLBINS && SmallBinOk(head, fd, bk, i, b[i])
    requires forall z :: InSmall(b, z) ==> z in head' && z in head && head'[z].size == head[z].size
    requires forall z :: SmallLink(b, z) ==> Rd(fd', z) == Rd(fd, z) && Rd(bk', z) == Rd(bk, z)
    ensures SmallBinOk(head', fd', bk', i, b[i])
  {
    hide RingOk;
    assert SmallLink(b, SmallBinAt(i));
    forall j | 0 <= j < |b[i]|
      ensures SizedChunk(head', b[i][j], 8 * i) && SmallLink(b, b[i][j])
    {
      assert b[i][j] in b[i] && SizedChunk(head, b[i][j], 8 * i);
      assert InSmall(b, b[i][j]);
    }
    SmallFrame(head, fd, bk, fd', bk', i, b[i]);
  }

  /** Both kinds of bins, over the shared chunk fields. */
  ghost predicate AllBinsOk(head: Heads, k: Links, fd: Word, bk: Word, smallmap: set<nat>, treebins: seq<int>,
                            treemap: set<nat>, b: Bins, g: Trie) {
    && SmallOk(head, fd, bk, smallmap, b)
    && BinsOk(head, k, fd, bk, treebins, treemap, g)
  }

  lemma SmallMember(head: Heads, fd: Word, bk: Word, smallmap: set<nat>, b: Bins, x: int)
    requires SmallOk(head, fd, bk, smallmap, b) && InSmall(b, x)
    ensures x > 0 && x in head && head[x].size < MIN_LARGE_SIZE && head[x].size % 8 == 0
  {
    var i, j := FindSmall(head, fd, bk, smallmap, b, x);
  }

  lemma LargeMember(head: Heads, k: Links, fd: Word, bk: Word, treebins: seq<int>, treemap: set<nat>, g: Trie, x: int)
    requires BinsOk(head, k, fd, bk, treebins, treemap, g) && Member(g, x)
    ensures x > 0 && x in head && MIN_LARGE_SIZE <= head[x].size < 0x1_0000_0000
  {
    hide PlaceOk, TreeOk, RingsOk, RootsOk;
    var s, j, l := FindMember(head, k, fd, bk, g, x);
  }

  /** Bins do not depend on the heads of chunks that are not binned. */
  lemma AllBinsFrame(head: Heads, k: Links, fd: Word, bk: Word, smallmap: set<nat>, treebins: seq<int>,
                     treemap: set<nat>, b: Bins, g: Trie, head': Heads)
    requires AllBinsOk(head, k, fd, bk, smallmap, treebins, treemap, b, g)
    requires forall z :: Binned(b, g, z) ==> z in head' && z in head && head'[z].size == head[z].size
    ensures AllBinsOk(head', k, fd, bk, smallmap, treebins, treemap, b, g)
  {
    hide SmallOk, BinsOk, InSmall, Member;
    SmallOkFrame(head, fd, bk, smallmap, b, head', fd, bk);
    BinsFrame(head, k, fd, bk, treebins, treemap, g, head', fd, bk);
  }

  /** An operation on the tree bins keeps the small bins. */
  lemma SmallAfterLarge(head: Heads, k: Links, fd: Word, bk: Word, smallmap: set<nat>, treebins: seq<int>,
                        treemap: set<nat>, b: Bins, g: Trie, fd': Word, bk': Word, x: int)
    requires AllBinsOk(head, k, fd, bk, smallmap, treebins, treemap, b, g)
    requires RingWrites(fd, bk, fd', bk', g, x) && x > 0 && !InSmall(b, x)
    ensures SmallOk(head, fd', bk', smallmap, b)
  {
    hide SmallOk, BinsOk, InSmall, Member;
    forall z | InSmall(b, z)
      ensures z in head
    {
      SmallMember(head, fd, bk, smallmap, b, z);
    }
    forall z | SmallLink(b, z)
      ensures Rd(fd', z) == Rd(fd, z) && Rd(bk', z) == Rd(bk, z)
    {
      if Member(g, z) {
        LargeMember(head, k, fd, bk, treebins, treemap, g, z);
      }
      if InSmall(b, z) {
        SmallMember(head, fd, bk, smallmap, b, z);
      }
    }
    SmallOkFrame(head, fd, bk, smallmap, b, head, fd', bk');
  }

  /** An operation on a small bin keeps the tree bins. */
  lemma LargeAfterSmall(head: Heads, k: Links, fd: Word, bk: Word, smallmap: set<nat>, treebins: seq<int>,
                        treemap: set<nat>, b: Bins, g: Trie, fd': Word, bk': Word, x: int)
    requires AllBinsOk(head, k, fd, bk, smallmap, treebins, treemap, b, g)
    requires forall z :: z != x && !SmallLink(b, z) ==> Rd(fd', z) == Rd(fd, z) && Rd(bk', z) == Rd(bk, z)
    requires !Member(g, x)
    ensures BinsOk(head, k, fd', bk', treebins, treemap, g)
  {
    hide SmallOk, BinsOk, InSmall, Member;
    forall z | Member(g, z)
      ensures z in head && Rd(fd', z) == Rd(fd, z) && Rd(bk', z) == Rd(bk, z)
    {
      LargeMember(head, k, fd, bk, treebins, treemap, g, z);
      if InSmall(b, z) {
        SmallMember(head, fd, bk, smallmap, b, z);
      }
    }
    BinsFrame(head, k, fd, bk, treebins, treemap, g, head, fd', bk');
  }

  // -------------------------------------------------------- effect on content

  lemma InsertedSmall(b: Bins, i: nat, x: int)
    requires i < |b|
    ensures forall y :: InSmall(b[i := [x] + b[i]], y) <==> InSmall(b, y) || y == x
  {
    var b' := b[i := [x] + b[i]];
    forall y
      ensures InSmall(b', y) <==> InSmall(b, y) || y == x
    {
      assert x in b'[i];
      if InSmall(b, y) {
        var k :| 0 <= k < |b| && y in b[k];
        assert y in b'[k];
      }
      if InSmall(b', y) {
        var k :| 0 <= k < |b'| && y in b'[k];
        assert y in b[k] || y == x;
      }
    }
  }

  lemma RemovedSmall(head: Heads, fd: Word, bk: Word, smallmap: set<nat>, b: Bins, i: nat, j: nat)
    requires SmallOk(head, fd, bk, smallmap, b) && i < NSMALLBINS && j < |b[i]|
    ensures forall y :: InSmall(b[i := b[i][..j] + b[i][j + 1..]], y) <==> InSmall(b, y) && y != b[i][j]
  {
    var r := b[i][..j] + b[i][j + 1..];
    var b' := b[i := r];
    assert SmallBinOk(head, fd, bk, i, b[i]);
    assert Distinct(b[i]) by {
      assert Distinct([SmallBinAt(i)] + b[i]);
      assert forall k :: 0 <= k < |b[i]| ==> ([SmallBinAt(i)] + b[i])[k + 1] == b[i][k];
    }
    hide RingOk;
    RemovedElements(b[i], j);
    forall y
      ensures InSmall(b', y) <==> InSmall(b, y) && y != b[i][j]
    {
      if InSmall(b, y) && y != b[i][j] {
        var k :| 0 <= k < |b| && y in b[k];
        assert y in b'[k];
      }
      if InSmall(b', y) {
        var k :| 0 <= k < |b'| && y in b'[k];
        assert y in b[k];
        if k != i && y == b[i][j] {
          OtherSmall(head, fd, bk, smallmap, b, i, k, y);
        }
      }
    }
  }

  /** The chunk a small bin's list head points to is one of the bin. */
  lemma FirstLink(head: Heads, fd: Word, bk: Word, smallmap: set<nat>, b: Bins, i: nat)
    requires SmallOk(head, fd, bk, smallmap, b) && i < NSMALLBINS
    ensures i in smallmap ==> b[i] != [] && Rd(fd, SmallBinAt(i)) == b[i][0] && InSmall(b, b[i][0])
    ensures i < |b| && SmallLink(b, SmallBinAt(i))
  {
    assert SmallBinOk(head, fd, bk, i, b[i]);
    if b[i] != [] {
      var c := [SmallBinAt(i)] + b[i];
      assert c[After(c, 0)] == b[i][0];
      assert Rd(fd, c[0]) == c[After(c, 0)];
      assert b[i][0] in b[i];
    }
  }

  lemma FirstOfBin(head: Heads, fd: Word, bk: Word, smallmap: set<nat>, b: Bins, i: nat)
    requires SmallOk(head, fd, bk, smallmap, b) && i in smallmap
    ensures i < NSMALLBINS == |b| && b[i] != []
    ensures var p := b[i][0];
            Rd(fd, SmallBinAt(i)) == p && Rd(bk, p) == SmallBinAt(i) && InSmall(b, p)
            && p in head && head[p].size == 8 * i
  {
    FirstLink(head, fd, bk, smallmap, b, i);
    assert SmallBinOk(head, fd, bk, i, b[i]);
    var c := [SmallBinAt(i)] + b[i];
    assert c[1] == b[i][0];
    RingBack(fd, bk, c, 1);
    assert SizedChunk(head, b[i][0], 8 * i);
  }

  /** Neighbours in a small bin are chunks of that bin or its list head. */
  lemma SmallNeighbours(head: Heads, fd: Word, bk: Word, smallmap: set<nat>, b: Bins, i: nat, j: nat)
    requires SmallOk(head, fd, bk, smallmap, b) && i < NSMALLBINS && j < |b[i]|
    ensures SmallLink(b, Rd(fd, b[i][j])) && SmallLink(b, Rd(bk, b[i][j])) && SmallLink(b, b[i][j])
  {
    assert SmallBinOk(head, fd, bk, i, b[i]);
    var c := [SmallBinAt(i)] + b[i];
    assert c[j + 1] == b[i][j];
    RingBack(fd, bk, c, j + 1);
    InBinLink(b, i, c[After(c, j + 1)]);
    InBinLink(b, i, c[j]);
    InBinLink(b, i, c[j + 1]);
  }

  lemma InBinLink(b: Bins, i: nat, z: int)
    requires i < |b| && i < NSMALLBINS && z in [SmallBinAt(i)] + b[i]
    ensures SmallLink(b, z)
  {
    if z in b[i] {
      assert InSmall(b, z);
    }
  }

  lemma OnlySmall(head: Heads, k: Links, fd: Word, bk: Word, smallmap: set<nat>, treebins: seq<int>,
                  treemap: set<nat>, b: Bins, g: Trie, x: int)
    requires AllBinsOk(head, k, fd, bk, smallmap, treebins, treemap, b, g) && InSmall(b, x)
    ensures !Member(g, x)
  {
    hide SmallOk, BinsOk, InSmall, Member;
    SmallMember(head, fd, bk, smallmap, b, x);
    if Member(g, x) {
      LargeMember(head, k, fd, bk, treebins, treemap, g, x);
    }
  }

  /** The size of a binned chunk tells which kind of bin holds it. */
  lemma WhichBin(head: Heads, k: Links, fd: Word, bk: Word, smallmap: set<nat>, treebins: seq<int>,
                 treemap: set<nat>, b: Bins, g: Trie, x: int)
    requires AllBinsOk(head, k, fd, bk, smallmap, treebins, treemap, b, g) && Binned(b, g, x)
    ensures x > 0 && x in head
    ensures InSmall(b, x) <==> SmallIndex(head[x].size) < NSMALLBINS
    ensures Member(g, x) <==> SmallIndex(head[x].size) >= NSMALLBINS
  {
    hide SmallOk, BinsOk, InSmall, Member;
    if InSmall(b, x) {
      SmallMember(head, fd, bk, smallmap, b, x);
    }
    if Member(g, x) {
      LargeMember(head, k, fd, bk, treebins, treemap, g, x);
    }
  }

  /** Ring links of chunks are written at x and at binned chunks only. */
  ghost predicate BinWrites(fd: Word, bk: Word, fd': Word, bk': Word, b: Bins, g: Trie, x: int) {
    forall z :: z > 0 && z != x && !Binned(b, g, z) ==> Rd(fd', z) == Rd(fd, z) && Rd(bk', z) == Rd(bk, z)
  }

  lemma RingBinWrites(fd: Word, bk: Word, fd': Word, bk': Word, b: Bins, g: Trie, x: int)
    requires RingWrites(fd, bk, fd', bk', g, x)
    ensures BinWrites(fd, bk, fd', bk', b, g, x)
  {
    hide InSmall, Member;
  }

  lemma InsertBinWrites(fd: Word, bk: Word, b: Bins, g: Trie, x: int, e: int, f: int)
    requires SmallLink(b, e) && SmallLink(b, f)
    ensures BinWrites(fd, bk, fd[e := x][x := f], bk[f := x][x := e], b, g, x)
  {
    hide InSmall, Member;
  }

  lemma UnlinkBinWrites(fd: Word, bk: Word, b: Bins, g: Trie, x: int, e: int, f: int)
    requires SmallLink(b, e) && SmallLink(b, f)
    ensures BinWrites(fd, bk, fd[e := f], bk[f := e], b, g, x) && BinWrites(fd, bk, fd, bk, b, g, x)
  {
    hide InSmall, Member;
  }
}
