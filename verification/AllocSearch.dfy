// Best-fit search over the tree bins: tmalloc_large and tmalloc_small agree with
// a naive scan of all binned sizes (luajit/src/lj_alloc.c).

module AllocSearch {
  import opened AllocSizes
  import opened AllocBits
  import opened AllocRing
  import opened AllocTrie

  /** p lies at l or below it. */
  predicate Under(p: Loc, l: Loc) {
    p.bin == l.bin && |l.path| <= |p.path| && p.path[..|l.path|] == l.path
  }

  /** Size s is binned in the subtree at l. */
  ghost predicate InSub(g: Trie, s: nat, l: Loc) { s in g.home && Under(g.home[s], l) }

  /** The naive scan: s is the least binned size that serves nb. */
  ghost predicate LeastFit(g: Trie, nb: nat, s: nat) {
    s in g.ring && nb <= s && forall t <- g.ring :: nb <= t ==> s <= t
  }

  ghost predicate NoFit(g: Trie, nb: nat) { forall t <- g.ring :: t < nb }

  lemma TreeIndexBound(s: nat)
    ensures TreeIndex(s) < NTREEBINS
  {
    WordIndexBound(s, s / 256 % 0x1_0000_0000);
  }

  lemma WordIndexBound(s: nat, x: nat)
    ensures IndexOfWord(s, x) < NTREEBINS
  {
    if 0 < x <= 0xFFFF {
      var k := FlsOfWord(x);
    }
  }

  // ------------------------------------------------------ subtrees and order

  lemma SubSplit(g: Trie, s: nat, l: Loc)
    requires ShapeOk(g) && InSub(g, s, l)
    ensures l in g.loc && s in g.ring
    ensures s == g.loc[l] || InSub(g, s, Child(l, false)) || InSub(g, s, Child(l, true))
  {
    var p := g.home[s];
    Ancestors(g, p, |l.path|);
    if |p.path| > |l.path| {
      var b := p.path[|l.path|];
      assert Child(l, b).path == p.path[..|l.path| + 1];
      assert InSub(g, s, Child(l, b));
      if b {
      }
    } else {
      assert p.path == l.path;
    }
  }

  lemma SubUp(g: Trie, s: nat, l: Loc, b: bool)
    requires InSub(g, s, Child(l, b))
    ensures InSub(g, s, l)
  {
    assert Child(l, b).path[..|l.path|] == l.path;
  }

  /** What a location says about the sizes at or below it. */
  lemma SubPath(g: Trie, s: nat, l: Loc)
    requires ShapeOk(g) && PlaceOk(g) && InSub(g, s, l)
    ensures LargeSize(s) && TreeIndex(s) == l.bin && |l.path| <= Depth(l.bin)
    ensures l.path == PathTo(s, l.bin, |l.path|)
  {
    var p := g.home[s];
    assert LargeSize(s) && OnPath(s, p);
    PathPrefix(s, p.bin, |l.path|, |p.path|);
    hide PlaceOk, ShapeOk, TreeIndex;
  }

  lemma SubStep(g: Trie, s: nat, l: Loc, b: bool)
    requires ShapeOk(g) && PlaceOk(g) && InSub(g, s, Child(l, b))
    ensures LargeSize(s) && TreeIndex(s) == l.bin && |l.path| < Depth(l.bin)
    ensures l.path == PathTo(s, l.bin, |l.path|) && StepAt(s, l.bin, |l.path|) == b
  {
    hide PlaceOk, ShapeOk, TreeIndex, StepAt;
    SubPath(g, s, Child(l, b));
    SubUp(g, s, l, b);
    SubPath(g, s, l);
    PathSnoc(s, l.bin, |l.path|);
    assert Child(l, b).path[|l.path|] == b;
  }

  /** Everything in a left subtree is smaller than everything in its right sibling. */
  lemma LeftBelowRight(g: Trie, s: nat, t: nat, l: Loc)
    requires ShapeOk(g) && PlaceOk(g)
    requires InSub(g, s, Child(l, false)) && InSub(g, t, Child(l, true))
    ensures s < t
  {
    hide PlaceOk, ShapeOk, TreeIndex, StepAt, InSub;
    SubStep(g, s, l, false);
    SubStep(g, t, l, true);
    BinHasOneRoot(s, t);
    LeftIsSmaller(s, t, l.bin, |l.path|);
  }

  /** A right subtree that the walk towards nb leaves aside holds larger sizes. */
  lemma AsideIsLarger(g: Trie, nb: nat, d: nat, t: nat)
    requires ShapeOk(g) && PlaceOk(g) && LargeSize(nb) && d < Depth(TreeIndex(nb))
    requires !StepAt(nb, TreeIndex(nb), d) && InSub(g, t, Child(At(nb, d), true))
    ensures nb < t
  {
    hide PlaceOk, ShapeOk, TreeIndex, StepAt, InSub;
    SubStep(g, t, At(nb, d), true);
    BinHasOneRoot(nb, t);
    LeftIsSmaller(nb, t, TreeIndex(nb), d);
  }

  /** A left subtree that the walk towards nb leaves aside holds smaller sizes. */
  lemma AsideIsSmaller(g: Trie, nb: nat, d: nat, t: nat)
    requires ShapeOk(g) && PlaceOk(g) && LargeSize(nb) && d < Depth(TreeIndex(nb))
    requires StepAt(nb, TreeIndex(nb), d) && InSub(g, t, Child(At(nb, d), false))
    ensures t < nb
  {
    hide PlaceOk, ShapeOk, TreeIndex, StepAt, InSub;
    SubStep(g, t, At(nb, d), false);
    BinHasOneRoot(nb, t);
    LeftIsSmaller(t, nb, TreeIndex(nb), d);
  }

  // --------------------------------------------------- descending to the least

  /** The candidate of size c (none if c is WORD) and the subtree at l together
      account for every binned size that serves nb. */
  ghost predicate Pending(g: Trie, nb: nat, c: nat, l: Loc) {
    forall s <- g.ring :: nb <= s ==> c <= s || InSub(g, s, l) || Above(g, s, l)
  }

  /** s exceeds every size in the subtree at l. */
  ghost predicate Above(g: Trie, s: nat, l: Loc) { forall u: nat :: InSub(g, u, l) ==> u < s }

  /** Sizes in the subtree at l serve nb. */
  ghost predicate Serves(g: Trie, nb: nat, l: Loc) { forall u: nat :: InSub(g, u, l) ==> nb <= u }

  /** One step of the loop that looks for the smallest of a subtree. */
  lemma DescendStep(g: Trie, nb: nat, c: nat, l: Loc, b: bool)
    requires ShapeOk(g) && PlaceOk(g) && l in g.loc && Pending(g, nb, c, l) && Serves(g, nb, l)
    requires Child(l, b) in g.loc && (b ==> Child(l, false) !in g.loc)
    ensures var c' := if g.loc[l] < c then g.loc[l] else c;
            Pending(g, nb, c', Child(l, b)) && Serves(g, nb, Child(l, b))
  {
    var c' := if g.loc[l] < c then g.loc[l] else c;
    forall s <- g.ring | nb <= s && c' > s
      ensures InSub(g, s, Child(l, b)) || Above(g, s, Child(l, b))
    {
      if InSub(g, s, l) {
        SubSplit(g, s, l);
        if !InSub(g, s, Child(l, b)) {
          if b {
            SubSplit(g, s, Child(l, false));
          }
          forall u | InSub(g, u, Child(l, b))
            ensures u < s
          {
            LeftBelowRight(g, u, s, l);
          }
        }
      } else {
        forall u | InSub(g, u, Child(l, b))
          ensures u < s
        {
          SubUp(g, u, l, b);
        }
      }
    }
    forall u | InSub(g, u, Child(l, b))
      ensures nb <= u
    {
      SubUp(g, u, l, b);
    }
  }

  /** At a leaf the search is over. */
  lemma DescendEnd(g: Trie, nb: nat, c: nat, l: Loc)
    requires ShapeOk(g) && PlaceOk(g) && IsLeaf(g, l) && Pending(g, nb, c, l) && Serves(g, nb, l)
    ensures var c' := if g.loc[l] < c then g.loc[l] else c;
            forall s <- g.ring :: nb <= s ==> c' <= s
  {
    assert Under(l, l);
    assert InSub(g, g.loc[l], l);
    forall s <- g.ring | nb <= s && c > s
      ensures g.loc[l] <= s
    {
      if InSub(g, s, l) {
        SubSplit(g, s, l);
        if s != g.loc[l] {
          SubSplit(g, s, Child(l, InSub(g, s, Child(l, true))));
        }
      }
    }
  }

  // ---------------------------------------------------- the walk towards nb

  /** s was left aside in a right subtree before depth d. */
  ghost predicate Aside(g: Trie, nb: nat, s: nat, d: nat)
    requires d <= Depth(TreeIndex(nb))
  {
    exists e :: 0 <= e < d && RightOf(g, nb, s, e)
  }

  ghost predicate RightOf(g: Trie, nb: nat, s: nat, e: nat)
    requires e < Depth(TreeIndex(nb))
  {
    !StepAt(nb, TreeIndex(nb), e) && InSub(g, s, Child(At(nb, e), true))
  }

  /** The candidate, the rest of the walk and the right subtrees left aside
      account for every size in nb's own bin that serves nb. */
  ghost predicate PathPending(g: Trie, nb: nat, c: nat, d: nat)
    requires d <= Depth(TreeIndex(nb))
  {
    forall s <- g.ring :: nb <= s && TreeIndex(s) == TreeIndex(nb) ==>
      c <= s || InSub(g, s, At(nb, d)) || Aside(g, nb, s, d)
  }

  /** Right subtree number e is not there, or the walk turned right itself. */
  ghost predicate NoRight(g: Trie, nb: nat, e: nat)
    requires e < Depth(TreeIndex(nb))
  {
    !StepAt(nb, TreeIndex(nb), e) ==> Child(At(nb, e), true) !in g.loc
  }

  /** rst is the deepest right subtree left aside so far, found at depth re. */
  ghost predicate RstOk(g: Trie, nb: nat, d: nat, re: int, rst: int)
    requires ShapeOk(g) && d <= Depth(TreeIndex(nb))
  {
    && -1 <= re < d
    && (forall e :: re < e < d ==> NoRight(g, nb, e))
    && (if re < 0 then rst == 0
        else !StepAt(nb, TreeIndex(nb), re) && Child(At(nb, re), true) in g.loc
             && rst == Node(g, Child(At(nb, re), true)))
  }

  lemma PathStart(g: Trie, nb: nat)
    requires ShapeOk(g) && PlaceOk(g)
    ensures At(nb, 0) == Loc(TreeIndex(nb), [])
    ensures PathPending(g, nb, WORD, 0)
  {
    hide TreeIndex, LargeSize;
    forall s <- g.ring | TreeIndex(s) == TreeIndex(nb)
      ensures InSub(g, s, At(nb, 0))
    {
      assert OnPath(s, g.home[s]);
    }
  }

  lemma PathStep(g: Trie, nb: nat, c: nat, d: nat)
    requires ShapeOk(g) && PlaceOk(g) && LargeSize(nb) && d < Depth(TreeIndex(nb))
    requires PathPending(g, nb, c, d) && At(nb, d) in g.loc
    ensures var z := g.loc[At(nb, d)];
            PathPending(g, nb, if nb <= z < c then z else c, d + 1)
  {
    hide TreeIndex, LargeSize, ShapeOk, PlaceOk, StepAt, InSub;
    var z := g.loc[At(nb, d)];
    var c' := if nb <= z < c then z else c;
    forall s <- g.ring | nb <= s && TreeIndex(s) == TreeIndex(nb) && c' > s
      ensures InSub(g, s, At(nb, d + 1)) || Aside(g, nb, s, d + 1)
    {
      if InSub(g, s, At(nb, d)) {
        PathStepOne(g, nb, s, d);
        if RightOf(g, nb, s, d) {
          assert Aside(g, nb, s, d + 1);
        }
      } else {
        var e :| 0 <= e < d && RightOf(g, nb, s, e);
        assert Aside(g, nb, s, d + 1);
      }
    }
  }

  lemma PathStepOne(g: Trie, nb: nat, s: nat, d: nat)
    requires ShapeOk(g) && PlaceOk(g) && LargeSize(nb) && d < Depth(TreeIndex(nb))
    requires InSub(g, s, At(nb, d)) && nb <= s && At(nb, d) in g.loc
    ensures s == g.loc[At(nb, d)] || InSub(g, s, At(nb, d + 1)) || RightOf(g, nb, s, d)
  {
    hide TreeIndex, LargeSize, ShapeOk, PlaceOk, StepAt, InSub;
    SubSplit(g, s, At(nb, d));
    AtNext(nb, d);
    if StepAt(nb, TreeIndex(nb), d) && InSub(g, s, Child(At(nb, d), false)) {
      AsideIsSmaller(g, nb, d, s);
    }
  }

  /** The walk ends below a node without a child in nb's direction; the deepest
      right subtree left aside then holds the least of what is pending. */
  lemma PathExit(g: Trie, nb: nat, c: nat, d: nat, re: nat, rst: int)
    requires ShapeOk(g) && PlaceOk(g) && LargeSize(nb) && d <= Depth(TreeIndex(nb))
    requires PathPending(g, nb, c, d) && RstOk(g, nb, d, re, rst) && At(nb, d) !in g.loc
    ensures re < d
    ensures var l := Child(At(nb, re), true); Pending(g, nb, c, l) && Serves(g, nb, l)
  {
    hide TreeIndex, ShapeOk, PlaceOk, StepAt, InSub, PathPending;
    var l := Child(At(nb, re), true);
    forall u: nat | InSub(g, u, l)
      ensures nb <= u
    {
      AsideIsLarger(g, nb, re, u);
    }
    forall s <- g.ring | nb <= s && c > s && !InSub(g, s, l)
      ensures Above(g, s, l)
    {
      PathExitOne(g, nb, c, d, re, rst, s);
    }
  }

  lemma PathExitOne(g: Trie, nb: nat, c: nat, d: nat, re: nat, rst: int, s: nat)
    requires ShapeOk(g) && PlaceOk(g) && LargeSize(nb) && d <= Depth(TreeIndex(nb))
    requires PathPending(g, nb, c, d) && RstOk(g, nb, d, re, rst) && At(nb, d) !in g.loc
    requires s in g.ring && nb <= s < c && !InSub(g, s, Child(At(nb, re), true))
    ensures Above(g, s, Child(At(nb, re), true))
  {
    hide TreeIndex, ShapeOk, PlaceOk, StepAt, InSub, LargeSize;
    var l := Child(At(nb, re), true);
    SizeFacts(g, s);
    if TreeIndex(s) == TreeIndex(nb) {
      var e := AsideWhere(g, nb, c, d, re, s);
      forall u: nat | InSub(g, u, l)
        ensures u < s
      {
        SubOfEarlier(g, nb, e, re, u);
        LeftBelowRight(g, u, s, At(nb, e));
      }
    } else {
      HigherBin(nb, s);
      forall u: nat | InSub(g, u, l)
        ensures u < s
      {
        SubPath(g, u, l);
        BinsOrdered(u, s);
      }
    }
  }

  lemma SizeFacts(g: Trie, s: nat)
    requires ShapeOk(g) && PlaceOk(g) && s in g.ring
    ensures s in g.home && LargeSize(s) && g.home[s].bin == TreeIndex(s) < NTREEBINS
    ensures Loc(TreeIndex(s), []) in g.loc && InSub(g, s, Loc(TreeIndex(s), []))
  {
    assert OnPath(s, g.home[s]);
    TreeIndexBound(s);
    Ancestors(g, g.home[s], 0);
    hide TreeIndex, PlaceOk;
  }

  lemma HigherBin(nb: nat, s: nat)
    requires LargeSize(nb) && LargeSize(s) && nb <= s && TreeIndex(s) != TreeIndex(nb)
    ensures TreeIndex(nb) < TreeIndex(s)
  {
    hide TreeIndex;
    if TreeIndex(s) < TreeIndex(nb) {
      BinsOrdered(s, nb);
    }
  }

  lemma AsideWhere(g: Trie, nb: nat, c: nat, d: nat, re: nat, s: nat) returns (e: nat)
    requires ShapeOk(g) && d <= Depth(TreeIndex(nb)) && re < d
    requires PathPending(g, nb, c, d) && At(nb, d) !in g.loc
    requires forall e :: re < e < d ==> NoRight(g, nb, e)
    requires s in g.ring && nb <= s < c && TreeIndex(s) == TreeIndex(nb) && !InSub(g, s, Child(At(nb, re), true))
    ensures e < re && RightOf(g, nb, s, e)
  {
    hide TreeIndex, ShapeOk, InSub, StepAt;
    if InSub(g, s, At(nb, d)) {
      SubSplit(g, s, At(nb, d));
    }
    e :| 0 <= e < d && RightOf(g, nb, s, e);
    if e > re {
      assert NoRight(g, nb, e);
      SubSplit(g, s, Child(At(nb, e), true));
    }
  }

  /** What lies aside at depth re lies left of what was left aside before. */
  lemma SubOfEarlier(g: Trie, nb: nat, e: nat, re: nat, u: nat)
    requires e < re < Depth(TreeIndex(nb)) && !StepAt(nb, TreeIndex(nb), e)
    requires InSub(g, u, Child(At(nb, re), true))
    ensures InSub(g, u, Child(At(nb, e), false))
  {
    var i := TreeIndex(nb);
    hide TreeIndex;
    var p := g.home[u];
    SubUp(g, u, At(nb, re), true);
    PathPrefix(nb, i, e + 1, re);
    PathSnoc(nb, i, e);
    assert p.path[..e + 1] == p.path[..re][..e + 1];
  }

  /** The walk met no right subtree: the candidate, if any, is the least fit. */
  lemma PathDone(g: Trie, nb: nat, c: nat, d: nat, rst: int)
    requires ShapeOk(g) && PlaceOk(g) && LargeSize(nb) && d <= Depth(TreeIndex(nb))
    requires PathPending(g, nb, c, d) && RstOk(g, nb, d, -1, rst) && At(nb, d) !in g.loc
    ensures forall s <- g.ring :: nb <= s && TreeIndex(s) == TreeIndex(nb) ==> c <= s
  {
    hide TreeIndex, ShapeOk, PlaceOk, StepAt, InSub;
    forall s <- g.ring | nb <= s && TreeIndex(s) == TreeIndex(nb) && s < c
      ensures false
    {
      if InSub(g, s, At(nb, d)) {
        SubSplit(g, s, At(nb, d));
      }
      var e :| 0 <= e < d && RightOf(g, nb, s, e);
      assert NoRight(g, nb, e);
      SubSplit(g, s, Child(At(nb, e), true));
    }
  }

  lemma OwnBinLeast(g: Trie, nb: nat, c: nat)
    requires ShapeOk(g) && PlaceOk(g) && LargeSize(nb) && c in g.ring && TreeIndex(c) == TreeIndex(nb)
    requires forall s <- g.ring :: nb <= s && TreeIndex(s) == TreeIndex(nb) ==> c <= s
    ensures forall s <- g.ring :: nb <= s ==> c <= s
  {
    hide TreeIndex, ShapeOk, PlaceOk, InSub, LargeSize;
    SizeFacts(g, c);
    forall s <- g.ring | nb <= s && TreeIndex(s) != TreeIndex(nb)
      ensures c <= s
    {
      SizeFacts(g, s);
      HigherBin(nb, s);
      BinsOrdered(c, s);
    }
  }

  /** Nothing in nb's own bin fits: the search continues in the next bin in use. */
  lemma NextBin(g: Trie, nb: nat, j: nat)
    requires ShapeOk(g) && PlaceOk(g) && LargeSize(nb)
    requires forall s <- g.ring :: nb <= s && TreeIndex(s) == TreeIndex(nb) ==> WORD <= s
    requires TreeIndex(nb) < j && forall i :: TreeIndex(nb) < i < j ==> Loc(i, []) !in g.loc
    ensures Pending(g, nb, WORD, Loc(j, [])) && Serves(g, nb, Loc(j, []))
  {
    hide TreeIndex, ShapeOk, PlaceOk, InSub;
    forall s <- g.ring | nb <= s && !InSub(g, s, Loc(j, []))
      ensures Above(g, s, Loc(j, []))
    {
      SizeFacts(g, s);
      assert TreeIndex(s) != TreeIndex(nb);
      HigherBin(nb, s);
      forall u: nat | InSub(g, u, Loc(j, []))
        ensures u < s
      {
        SubPath(g, u, Loc(j, []));
        BinsOrdered(u, s);
      }
    }
    forall u: nat | InSub(g, u, Loc(j, []))
      ensures nb <= u
    {
      SubPath(g, u, Loc(j, []));
      BinsOrdered(nb, u);
    }
  }

  lemma NoBins(g: Trie, nb: nat)
    requires ShapeOk(g) && PlaceOk(g) && LargeSize(nb)
    requires forall s <- g.ring :: nb <= s && TreeIndex(s) == TreeIndex(nb) ==> WORD <= s
    requires forall i :: TreeIndex(nb) < i < NTREEBINS ==> Loc(i, []) !in g.loc
    ensures NoFit(g, nb)
  {
    hide TreeIndex, ShapeOk, PlaceOk, InSub;
    forall s <- g.ring
      ensures s < nb
    {
      SizeFacts(g, s);
      if nb <= s {
        assert TreeIndex(s) != TreeIndex(nb);
        HigherBin(nb, s);
      }
    }
  }

  // ----------------------------------------------------- states of the search

  /** v is the node of the candidate size c; rsize is what it leaves over. */
  ghost predicate Candidate(g: Trie, nb: nat, v: int, c: nat, rsize: nat)
    requires ShapeOk(g)
  {
    && nb <= c && rsize == c - nb
    && (if v == 0 then c == WORD else c in g.ring && c < WORD && v == g.ring[c][0])
  }

  /** The unsigned remainder improves on the candidate only for sizes that fit. */
  lemma Remainder(nb: nat, z: nat, c: nat)
    requires 0 < nb < WORD && z < WORD && nb <= c <= WORD
    ensures ((z - nb) % WORD < c - nb) <==> nb <= z < c
    ensures nb <= z ==> (z - nb) % WORD == z - nb
  {
    if z < nb {
      assert (z - nb) % WORD == z - nb + WORD;
    }
  }

  /** What is known while looking for the smallest of the subtree at l (of
      nothing when t is null). */
  ghost predicate Searching(g: Trie, nb: nat, c: nat, t: int, l: Loc)
    requires ShapeOk(g)
  {
    if t == 0 then Settled(g, nb, c)
    else l in g.loc && t == Node(g, l)
         && (c == nb || nb >= SIZE_LIMIT || (Pending(g, nb, c, l) && Serves(g, nb, l)))
  }

  ghost predicate Settled(g: Trie, nb: nat, c: nat) { forall s <- g.ring :: nb <= s ==> c <= s }

  lemma NothingThatLarge(g: Trie, nb: nat, c: nat)
    requires ShapeOk(g) && PlaceOk(g) && nb >= SIZE_LIMIT
    ensures Settled(g, nb, c) && NoFit(g, nb)
  {
    hide TreeIndex, OnPath;
  }

  /** The better of candidate size c and node size z. */
  function Better(nb: nat, c: nat, z: nat): nat { if nb <= z < c then z else c }

  /** leftmost_child */
  function LeftmostChild(k: Links, t: int): int {
    if Rd(k.left, t) != 0 then Rd(k.left, t) else Rd(k.right, t)
  }

  lemma SearchHere(head: map<int, Head>, k: Links, fd: Word, bk: Word, g: Trie, nb: nat, c: nat, t: int, l: Loc)
    requires ShapeOk(g) && TrieOk(head, k, fd, bk, g) && Searching(g, nb, c, t, l) && t != 0
    ensures t > 0 && t in head && l in g.loc && MIN_LARGE_SIZE <= head[t].size == g.loc[l] < SIZE_LIMIT && g.loc[l] in g.ring
    ensures t == g.ring[g.loc[l]][0]
  {
    KidNull(head, k, g, l, false);
    assert LargeSize(g.loc[l]);
    hide Searching;
  }

  /** Evaluating the node at l as a candidate and moving to its leftmost child. */
  lemma SearchStep(head: map<int, Head>, k: Links, fd: Word, bk: Word, g: Trie, nb: nat, c: nat, t: int, l: Loc, z: nat)
    returns (l': Loc)
    requires ShapeOk(g) && TrieOk(head, k, fd, bk, g) && Searching(g, nb, c, t, l)
    requires t != 0 && nb <= c && l in g.loc && z == g.loc[l]
    ensures Searching(g, nb, Better(nb, c, z), LeftmostChild(k, t), l')
    ensures LeftmostChild(k, t) != 0 ==> l'.bin == l.bin && |l'.path| == |l.path| + 1 <= Depth(l.bin)
  {
    hide ShapeOk, PlaceOk, SizesOk, TreeOk, RingsOk, Node, InSub, Pending, Serves, Depth;
    Kids(head, k, fd, bk, g, l);
    var b := Rd(k.left, t) == 0;
    l' := Child(l, b);
    if l' in g.loc {
      Kids(head, k, fd, bk, g, l');
      if c != nb && nb < SIZE_LIMIT {
        SearchDown(g, nb, c, l, b);
      }
    } else if nb >= SIZE_LIMIT {
      NothingThatLarge(g, nb, Better(nb, c, z));
    } else if c != nb {
      SearchUp(g, nb, c, l);
    }
  }

  lemma SearchDown(g: Trie, nb: nat, c: nat, l: Loc, b: bool)
    requires ShapeOk(g) && PlaceOk(g) && l in g.loc && Pending(g, nb, c, l) && Serves(g, nb, l)
    requires Child(l, b) in g.loc && (b ==> Child(l, false) !in g.loc)
    ensures Pending(g, nb, Better(nb, c, g.loc[l]), Child(l, b)) && Serves(g, nb, Child(l, b))
  {
    DescendStep(g, nb, c, l, b);
    SelfServes(g, nb, l);
  }

  lemma SelfServes(g: Trie, nb: nat, l: Loc)
    requires ShapeOk(g) && l in g.loc && Serves(g, nb, l)
    ensures nb <= g.loc[l]
  {
    assert Under(l, l);
    assert InSub(g, g.loc[l], l);
  }

  lemma SearchUp(g: Trie, nb: nat, c: nat, l: Loc)
    requires ShapeOk(g) && PlaceOk(g) && IsLeaf(g, l) && Pending(g, nb, c, l) && Serves(g, nb, l)
    ensures Settled(g, nb, Better(nb, c, g.loc[l]))
  {
    DescendEnd(g, nb, c, l);
    SelfServes(g, nb, l);
  }

  // -------------------------------------------------- the loop of the walk

  /** The first loop of tmalloc_large stands at node t, d steps down. */
  ghost predicate Walking(g: Trie, nb: nat, c: nat, d: nat, t: int, re: int, rst: int)
    requires ShapeOk(g)
  {
    && d <= Depth(TreeIndex(nb))
    && At(nb, d) in g.loc && t == Node(g, At(nb, d))
    && RstOk(g, nb, d, re, rst)
    && (nb >= SIZE_LIMIT || PathPending(g, nb, c, d))
  }

  /** Nothing in nb's own bin fits. */
  ghost predicate OwnBinEmpty(g: Trie, nb: nat) {
    forall s <- g.ring :: nb <= s && TreeIndex(s) == TreeIndex(nb) ==> WORD <= s
  }

  lemma WalkingStart(head: map<int, Head>, treebins: seq<int>, treemap: set<nat>, g: Trie, nb: nat)
    requires ShapeOk(g) && PlaceOk(g) && SizesOk(head, g) && RootsOk(treebins, treemap, g)
    ensures TreeIndex(nb) < NTREEBINS == |treebins|
    ensures treebins[TreeIndex(nb)] != 0 ==> Walking(g, nb, WORD, 0, treebins[TreeIndex(nb)], -1, 0)
    ensures treebins[TreeIndex(nb)] == 0 ==> OwnBinEmpty(g, nb)
  {
    hide TreeIndex, OnPath, LargeSize, InSub;
    TreeIndexBound(nb);
    PathStart(g, nb);
    var l := At(nb, 0);
    if l !in g.loc {
      forall s <- g.ring {
        SizeFacts(g, s);
      }
    } else {
      NodesDiffer(head, g, l, l);
    }
  }

  lemma WalkingHere(head: map<int, Head>, k: Links, g: Trie, nb: nat, c: nat, d: nat, t: int, re: int, rst: int)
    requires ShapeOk(g) && PlaceOk(g) && SizesOk(head, g) && NodesOk(k, g)
    requires Walking(g, nb, c, d, t, re, rst)
    ensures var l := At(nb, d);
            && l in g.loc && t > 0 && t in head && head[t].size == g.loc[l] < SIZE_LIMIT
            && g.loc[l] in g.ring && t == g.ring[g.loc[l]][0]
            && Searching(g, nb, nb, t, l)
            && TreeIndex(g.loc[l]) == TreeIndex(nb)
  {
    hide TreeIndex, Depth, RstOk, PathPending, Pending, Serves, Settled;
    KidNull(head, k, g, At(nb, d), false);
    assert LargeSize(g.loc[At(nb, d)]) && OnPath(g.loc[At(nb, d)], At(nb, d));
  }

  /** One turn of the walk below a node at depth d. */
  lemma WalkingStep(head: map<int, Head>, k: Links, g: Trie, nb: nat, c: nat, d: nat, t: int, re: int, rst: int,
                    z: nat, step: bool)
    returns (re': int)
    requires ShapeOk(g) && PlaceOk(g) && SizesOk(head, g) && NodesOk(k, g)
    requires 256 <= nb < WORD && nb <= c && Walking(g, nb, c, d, t, re, rst) && At(nb, d) in g.loc && z == g.loc[At(nb, d)]
    requires TreeIndex(nb) < NTREEBINS
    requires step == (Shl(nb, LeftShiftForTreeIndex(TreeIndex(nb)) + d) >= HIGH_BIT)
    ensures var rt := Rd(k.right, t);
            var t' := Rd(Kid(k, step), t);
            var rst' := if rt != 0 && rt != t' then rt else rst;
            if t' != 0 then d < Depth(TreeIndex(nb)) && Walking(g, nb, Better(nb, c, z), d + 1, t', re', rst')
            else WalkingEnd(g, nb, Better(nb, c, z), re', rst')
  {
    hide TreeIndex, Shl, Node, ShapeOk, PlaceOk, SizesOk, NodesOk, Depth, LeftShiftForTreeIndex, StepAt, InSub, WalkingEnd;
    var l := At(nb, d);
    var c' := Better(nb, c, z);
    var rt := Rd(k.right, t);
    var t' := Rd(Kid(k, step), t);
    KidNull(head, k, g, l, step);
    KidNull(head, k, g, l, true);
    if d == Depth(TreeIndex(nb)) {
      BeyondPath(g, l, step);
      BeyondPath(g, l, true);
      re' := re;
      WalkingOver(head, g, nb, c, d, re, rst, z);
    } else {
      TopBit(nb, TreeIndex(nb), d);
      AtNext(nb, d);
      re' := if rt != 0 && rt != t' then d else re;
      RstStep(head, g, nb, d, re, rst, rt, t');
      if nb < SIZE_LIMIT {
        WalkLarge(g, nb, d);
        PathStep(g, nb, c, d);
      }
      if t' == 0 {
        WalkingLast(head, g, nb, c', d + 1, re', if rt != 0 && rt != t' then rt else rst);
      }
    }
  }

  /** What the walk leaves behind when it ends: a subtree to search, a settled
      candidate, or the news that nb's own bin has nothing. */
  ghost predicate WalkingEnd(g: Trie, nb: nat, c: nat, re: int, rst: int)
    requires ShapeOk(g)
  {
    if rst != 0 then 0 <= re < Depth(TreeIndex(nb)) && Searching(g, nb, c, rst, Child(At(nb, re), true))
    else if c == WORD then OwnBinEmpty(g, nb)
    else OwnBinLeastIs(g, nb, c)
  }

  ghost predicate OwnBinLeastIs(g: Trie, nb: nat, c: nat) {
    forall s <- g.ring :: nb <= s && TreeIndex(s) == TreeIndex(nb) ==> c <= s
  }

  lemma BeyondPath(g: Trie, l: Loc, b: bool)
    requires ShapeOk(g) && PlaceOk(g) && |l.path| >= Depth(l.bin)
    ensures Child(l, b) !in g.loc
  {
    if Child(l, b) in g.loc {
      PathBound(g, Child(l, b));
    }
  }

  lemma RstStep(head: map<int, Head>, g: Trie, nb: nat, d: nat, re: int, rst: int, rt: int, t': int)
    requires ShapeOk(g) && SizesOk(head, g) && d < Depth(TreeIndex(nb)) && RstOk(g, nb, d, re, rst)
    requires At(nb, d + 1) == Child(At(nb, d), StepAt(nb, TreeIndex(nb), d))
    requires rt == Node(g, Child(At(nb, d), true)) && t' == Node(g, At(nb, d + 1))
    ensures if rt != 0 && rt != t' then RstOk(g, nb, d + 1, d, rt) else RstOk(g, nb, d + 1, re, rst)
  {
    hide TreeIndex, Depth, StepAt, SizesOk, At;
    var r := Child(At(nb, d), true);
    if r in g.loc {
      NodesDiffer(head, g, r, r);
      if At(nb, d + 1) in g.loc {
        NodesDiffer(head, g, r, At(nb, d + 1));
      }
    }
    if StepAt(nb, TreeIndex(nb), d) {
      assert At(nb, d + 1) == r;
    } else {
      ChildrenDiffer(At(nb, d));
    }
  }

  lemma ChildrenDiffer(l: Loc)
    ensures Child(l, false) != Child(l, true)
  {
    assert Child(l, false).path[|l.path|] != Child(l, true).path[|l.path|];
  }

  lemma WalkLarge(g: Trie, nb: nat, d: nat)
    requires 256 <= nb < SIZE_LIMIT
    ensures LargeSize(nb)
  {
  }

  /** The walk ran out of size bits. */
  lemma WalkingOver(head: map<int, Head>, g: Trie, nb: nat, c: nat, d: nat, re: int, rst: int, z: nat)
    requires ShapeOk(g) && PlaceOk(g) && SizesOk(head, g) && d == Depth(TreeIndex(nb)) && RstOk(g, nb, d, re, rst)
    requires 256 <= nb <= c && At(nb, d) in g.loc && z == g.loc[At(nb, d)]
    requires nb >= SIZE_LIMIT || PathPending(g, nb, c, d)
    ensures WalkingEnd(g, nb, Better(nb, c, z), re, rst)
  {
    hide TreeIndex, Depth, StepAt, PathPending, Pending, Serves, InSub;
    if nb >= SIZE_LIMIT {
      NothingThatLarge(g, nb, WORD);
      if re >= 0 {
        NodesDiffer(head, g, Child(At(nb, re), true), Child(At(nb, re), true));
      }
    } else {
      assert LargeSize(z) && OnPath(z, At(nb, d));
      BinHasOneRoot(nb, z);
      FullPath(nb, z, TreeIndex(nb));
    }
  }

  /** The walk ran out of nodes. */
  lemma WalkingLast(head: map<int, Head>, g: Trie, nb: nat, c: nat, d: nat, re: int, rst: int)
    requires ShapeOk(g) && PlaceOk(g) && SizesOk(head, g) && d <= Depth(TreeIndex(nb)) && RstOk(g, nb, d, re, rst)
    requires 256 <= nb <= c && At(nb, d) !in g.loc
    requires nb >= SIZE_LIMIT || PathPending(g, nb, c, d)
    ensures WalkingEnd(g, nb, c, re, rst)
  {
    hide TreeIndex, Depth, StepAt, ShapeOk, PlaceOk, SizesOk, PathPending, Pending, Serves, InSub;
    if re >= 0 {
      NodesDiffer(head, g, Child(At(nb, re), true), Child(At(nb, re), true));
    }
    if nb >= SIZE_LIMIT {
      NothingThatLarge(g, nb, WORD);
    } else if re < 0 {
      PathDone(g, nb, c, d, rst);
    } else {
      PathExit(g, nb, c, d, re, rst);
    }
  }

  /** The walk found no subtree to search: the candidate decides. */
  lemma WalkingSettled(g: Trie, nb: nat, c: nat, re: int, v: int, rsize: nat)
    requires ShapeOk(g) && PlaceOk(g) && 256 <= nb && WalkingEnd(g, nb, c, re, 0) && Candidate(g, nb, v, c, rsize)
    requires v != 0 ==> TreeIndex(c) == TreeIndex(nb)
    ensures v == 0 ==> OwnBinEmpty(g, nb)
    ensures v != 0 ==> Settled(g, nb, c)
  {
    hide TreeIndex, ShapeOk, PlaceOk;
    if nb >= SIZE_LIMIT {
      NothingThatLarge(g, nb, c);
    } else if v != 0 {
      OwnBinLeast(g, nb, c);
    }
  }

  /** A settled candidate is what the naive scan finds. */
  lemma SettledIsLeast(g: Trie, nb: nat, v: int, c: nat, rsize: nat)
    requires ShapeOk(g) && PlaceOk(g) && Candidate(g, nb, v, c, rsize) && Settled(g, nb, c)
    ensures v == 0 ==> NoFit(g, nb)
    ensures v != 0 ==> LeastFit(g, nb, c)
  {
    hide ShapeOk;
    forall s <- g.ring
      ensures s < WORD
    {
      SizeFacts(g, s);
    }
    hide PlaceOk;
  }

  /** Moving on to bin j, the next one in use. */
  lemma SearchingBin(head: map<int, Head>, treebins: seq<int>, treemap: set<nat>, g: Trie, nb: nat, j: nat)
    requires ShapeOk(g) && PlaceOk(g) && SizesOk(head, g) && RootsOk(treebins, treemap, g) && 256 <= nb && OwnBinEmpty(g, nb)
    requires j in treemap && TreeIndex(nb) < j && forall i <- treemap :: TreeIndex(nb) < i ==> j <= i
    ensures j < NTREEBINS == |treebins| && treebins[j] != 0
    ensures Searching(g, nb, WORD, treebins[j], Loc(j, []))
  {
    hide TreeIndex, ShapeOk, PlaceOk, Pending, Serves, Node;
    if nb < SIZE_LIMIT {
      NextBin(g, nb, j);
    }
    NodesDiffer(head, g, Loc(j, []), Loc(j, []));
  }

  lemma SearchedAllBins(treebins: seq<int>, treemap: set<nat>, g: Trie, nb: nat)
    requires ShapeOk(g) && PlaceOk(g) && RootsOk(treebins, treemap, g) && 256 <= nb && OwnBinEmpty(g, nb)
    requires forall i <- treemap :: i <= TreeIndex(nb) || i >= NTREEBINS
    ensures Settled(g, nb, WORD)
  {
    hide TreeIndex, ShapeOk, PlaceOk, Node;
    if nb < SIZE_LIMIT {
      NoBins(g, nb);
    } else {
      NothingThatLarge(g, nb, WORD);
    }
  }

  lemma WalkingRst(g: Trie, nb: nat, c: nat, re: int, rst: int)
    requires ShapeOk(g) && WalkingEnd(g, nb, c, re, rst) && rst != 0
    ensures 0 <= re < Depth(TreeIndex(nb)) && Searching(g, nb, c, rst, Child(At(nb, re), true))
  {
    hide Searching, TreeIndex;
  }

  lemma SearchingFrom(g: Trie, nb: nat, c: nat, t: int, l: Loc)
    requires ShapeOk(g) && PlaceOk(g)
    requires if t == 0 then Settled(g, nb, c) else Searching(g, nb, c, t, l)
    ensures Searching(g, nb, c, t, l)
    ensures t != 0 ==> |l.path| <= Depth(l.bin)
  {
    hide Settled, Pending, Serves, Node;
    if t != 0 {
      PathBound(g, l);
    }
  }

  lemma CandidateMember(head: map<int, Head>, g: Trie, nb: nat, v: int, c: nat, rsize: nat)
    requires ShapeOk(g) && SizesOk(head, g) && Candidate(g, nb, v, c, rsize) && v != 0
    ensures Member(g, v) && v in head && head[v].size == c
  {
    assert SizedChunk(head, g.ring[c][0], c);
    assert g.ring[c][0] in g.ring[c];
  }

  lemma SearchingNull(g: Trie, nb: nat, c: nat, l: Loc)
    requires ShapeOk(g) && Searching(g, nb, c, 0, l)
    ensures Settled(g, nb, c)
  {
  }

  /** dv serves nb at least as tightly as any chunk of the tree bins. */
  ghost predicate DvFitsBest(g: Trie, nb: nat, dvsize: nat) {
    nb <= dvsize && forall t <- g.ring :: nb <= t ==> dvsize <= t
  }

  /** The unsigned comparison with what dv would leave over is the right one, even
      where dv is too small and the difference wraps around. */
  lemma BestFitOrDv(g: Trie, nb: nat, dvsize: nat, s: nat)
    requires LeastFit(g, nb, s) && s < SIZE_LIMIT && dvsize < SIZE_LIMIT && nb < WORD
    ensures s - nb < (dvsize - nb) % WORD <==> !DvFitsBest(g, nb, dvsize)
    ensures !NoFit(g, nb)
  {
    if dvsize < nb {
      assert (dvsize - nb) % WORD == dvsize - nb + WORD;
    }
  }

  /** For a small request every binned chunk fits: the lowest bin holds the least. */
  lemma SearchingLowest(head: map<int, Head>, treebins: seq<int>, treemap: set<nat>, g: Trie, nb: nat, j: nat)
    requires ShapeOk(g) && PlaceOk(g) && SizesOk(head, g) && RootsOk(treebins, treemap, g) && nb < MIN_LARGE_SIZE
    requires j in treemap && forall i <- treemap :: j <= i
    ensures j < NTREEBINS == |treebins| && treebins[j] != 0
    ensures Searching(g, nb, WORD, treebins[j], Loc(j, []))
  {
    hide TreeIndex, ShapeOk, PlaceOk, Node, SizesOk, InSub;
    var l := Loc(j, []);
    forall s <- g.ring | !InSub(g, s, l)
      ensures Above(g, s, l)
    {
      SizeFacts(g, s);
      assert TreeIndex(s) in treemap;
      forall u: nat | InSub(g, u, l)
        ensures u < s
      {
        SubPath(g, u, l);
        BinsOrdered(u, s);
      }
    }
    forall u: nat | InSub(g, u, l)
      ensures nb <= u
    {
      SubPath(g, u, l);
    }
    NodesDiffer(head, g, l, l);
  }

  lemma BitInRange(treebins: seq<int>, treemap: set<nat>, g: Trie)
    requires ShapeOk(g) && RootsOk(treebins, treemap, g)
    ensures forall i <- treemap :: i < NTREEBINS
  {
  }
}
