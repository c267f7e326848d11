// The tree bins: bitwise tries on size bits whose nodes head rings of chunks of
// the same size (luajit/src/lj_alloc.c).

module AllocTrie {
  import opened AllocSizes
  import opened AllocBits
  import opened AllocRing

  /** A place in a tree bin: the bin and the steps from its root. */
  datatype Loc = Loc(bin: nat, path: Path)

  function Child(l: Loc, step: bool): Loc { Loc(l.bin, l.path + [step]) }

  function Up(l: Loc): Loc
    requires l.path != []
  {
    Loc(l.bin, l.path[..|l.path| - 1])
  }

  function LastStep(l: Loc): bool
    requires l.path != []
  {
    l.path[|l.path| - 1]
  }

  /** The abstract content of all tree bins: which size sits where, and the ring
      of chunks of each size, the tree node first. */
  datatype Trie = Trie(loc: map<Loc, nat>, home: map<nat, Loc>, ring: map<nat, seq<int>>)

  /** Chunks of size s may be found at or below l. */
  predicate OnPath(s: nat, l: Loc) {
    && l.bin == TreeIndex(s)
    && |l.path| <= Depth(l.bin)
    && l.path == PathTo(s, l.bin, |l.path|)
  }

  /** loc and home are inverse, every size has a nonempty ring, and tries have no gaps. */
  ghost predicate ShapeOk(g: Trie) {
    && (forall l <- g.loc :: g.loc[l] in g.home && g.home[g.loc[l]] == l)
    && (forall s <- g.home :: g.home[s] in g.loc && g.loc[g.home[s]] == s)
    && g.ring.Keys == g.home.Keys
    && (forall s <- g.ring :: |g.ring[s]| > 0)
    && (forall l <- g.loc :: l.path != [] ==> Up(l) in g.loc)
  }

  /** Every size sits on its own path. */
  ghost predicate PlaceOk(g: Trie) {
    forall s <- g.home :: LargeSize(s) && OnPath(s, g.home[s])
  }

  /** The tree node at l, or null. */
  ghost function Node(g: Trie, l: Loc): int
    requires ShapeOk(g)
  {
    if l in g.loc then g.ring[g.loc[l]][0] else 0
  }

  /** The fields of the tree chunks. */
  datatype Links = Links(left: Word, right: Word, parent: Word, index: Word)

  /** The parent field of a root: the address of its bin. Never a chunk address. */
  function BinSlot(i: nat): int { -100 - i }

  ghost function ParentOf(g: Trie, l: Loc): int
    requires ShapeOk(g)
  {
    if l.path == [] then BinSlot(l.bin) else Node(g, Up(l))
  }

  /** child[0] and child[1] */
  function Kid(k: Links, step: bool): Word { if step then k.right else k.left }

  ghost predicate KidOk(k: Links, g: Trie, l: Loc, step: bool)
    requires ShapeOk(g)
  {
    Rd(Kid(k, step), Node(g, l)) == Node(g, Child(l, step))
  }

  ghost predicate ParentOk(k: Links, g: Trie, l: Loc)
    requires ShapeOk(g)
  {
    Rd(k.parent, Node(g, l)) == ParentOf(g, l)
  }

  ghost predicate NodeOk(k: Links, g: Trie, l: Loc)
    requires ShapeOk(g)
  {
    KidOk(k, g, l, false) && KidOk(k, g, l, true) && ParentOk(k, g, l)
  }

  /** A chunk outside the tree proper, as ring members are. */
  predicate Detached(k: Links, x: int) {
    Rd(k.left, x) == 0 && Rd(k.right, x) == 0
  }

  ghost predicate NodesOk(k: Links, g: Trie)
    requires ShapeOk(g)
  {
    forall l <- g.loc :: NodeOk(k, g, l)
  }

  /** Ring members behind the tree node take no part in the tree. */
  ghost predicate TailsOk(k: Links, g: Trie) {
    forall s <- g.ring, j :: 1 <= j < |g.ring[s]| ==>
      Detached(k, g.ring[s][j]) && Rd(k.parent, g.ring[s][j]) == 0
  }

  ghost predicate IndexOk(k: Links, g: Trie)
    requires ShapeOk(g)
  {
    forall s <- g.ring, j :: 0 <= j < |g.ring[s]| ==> Rd(k.index, g.ring[s][j]) == g.home[s].bin
  }

  ghost predicate TreeOk(k: Links, g: Trie)
    requires ShapeOk(g)
  {
    NodesOk(k, g) && TailsOk(k, g) && IndexOk(k, g)
  }

  ghost predicate RootsOk(treebins: seq<int>, treemap: set<nat>, g: Trie)
    requires ShapeOk(g)
  {
    && |treebins| == NTREEBINS
    && (forall i :: 0 <= i < NTREEBINS ==> treebins[i] == Node(g, Loc(i, [])))
    && (forall i :: i in treemap <==> 0 <= i < NTREEBINS && Loc(i, []) in g.loc)
  }

  /** The rings hold different chunks, each of the size of its ring. */
  ghost predicate SizesOk(head: map<int, Head>, g: Trie) {
    && (forall s <- g.ring :: Distinct(g.ring[s]))
    && (forall s <- g.ring, j :: 0 <= j < |g.ring[s]| ==> SizedChunk(head, g.ring[s][j], s))
  }

  predicate SizedChunk(head: map<int, Head>, x: int, s: nat) {
    x > 0 && x in head && head[x].size == s
  }

  ghost predicate RingsOk(fd: Word, bk: Word, g: Trie) {
    forall s <- g.ring :: RingOk(fd, bk, g.ring[s])
  }

  ghost predicate Member(g: Trie, x: int) { exists s <- g.ring :: x in g.ring[s] }

  lemma RingsDiffer(head: map<int, Head>, g: Trie, s: nat, j: nat, t: nat, i: nat)
    requires SizesOk(head, g) && s in g.ring && t in g.ring
    requires j < |g.ring[s]| && i < |g.ring[t]|
    ensures g.ring[s][j] > 0
    ensures g.ring[s][j] == g.ring[t][i] <==> s == t && j == i
  {
    assert SizedChunk(head, g.ring[s][j], s) && SizedChunk(head, g.ring[t][i], t);
  }

  lemma NodesDiffer(head: map<int, Head>, g: Trie, l: Loc, p: Loc)
    requires ShapeOk(g) && SizesOk(head, g) && l in g.loc && p in g.loc
    ensures Node(g, l) > 0
    ensures Node(g, l) == Node(g, p) <==> l == p
  {
    RingsDiffer(head, g, g.loc[l], 0, g.loc[p], 0);
  }

  // --------------------------------------------------------- adding a leaf

  ghost function AddLeaf(g: Trie, l: Loc, s: nat, x: int): Trie {
    Trie(g.loc[l := s], g.home[s := l], g.ring[s := [x]])
  }

  /** The parent's child slot through which l is reached is child[step] of t. */
  predicate SlotIs(l: Loc, step: bool) { l.path != [] && LastStep(l) == step }

  /** The links the C code writes for a new leaf x below t (or below the bin). */
  ghost function LeafLinks(k: Links, l: Loc, x: int, t: int): Links {
    Links(LeafKid(k.left, x, t, SlotIs(l, false)), LeafKid(k.right, x, t, SlotIs(l, true)),
          k.parent[x := t], k.index[x := l.bin])
  }

  function LeafKid(w: Word, x: int, t: int, slot: bool): Word {
    if slot then w[x := 0][t := x] else w[x := 0]
  }

  lemma AddLeafShape(g: Trie, l: Loc, s: nat, x: int)
    requires ShapeOk(g) && l !in g.loc && s !in g.home
    requires l.path != [] ==> Up(l) in g.loc
    ensures ShapeOk(AddLeaf(g, l, s, x))
    ensures forall l' :: l' != l ==> Node(AddLeaf(g, l, s, x), l') == Node(g, l')
    ensures Node(AddLeaf(g, l, s, x), l) == x
  {
  }

  lemma ChildUp(l: Loc, b: bool)
    ensures Child(l, b).path != [] && Up(Child(l, b)) == l && LastStep(Child(l, b)) == b
    ensures Child(l, b) != l
  {
  }

  lemma UpChild(l: Loc, p: Loc, b: bool)
    requires l.path != []
    ensures Child(p, b) == l <==> p == Up(l) && b == LastStep(l)
  {
    assert l.path == Up(l).path + [LastStep(l)];
    if Child(p, b) == l {
      ChildUp(p, b);
    }
  }

  lemma AddLeafKid(head: map<int, Head>, k: Links, g: Trie, l: Loc, s: nat, x: int, p: Loc, b: bool)
    requires ShapeOk(g) && SizesOk(head, g) && l !in g.loc && s !in g.home && x > 0
    requires l.path != [] ==> Up(l) in g.loc
    requires p in g.loc && KidOk(k, g, p, b) && Node(g, p) != x
    requires ShapeOk(AddLeaf(g, l, s, x))
    ensures KidOk(LeafLinks(k, l, x, ParentOf(g, l)), AddLeaf(g, l, s, x), p, b)
  {
    hide SizesOk;
    AddLeafShape(g, l, s, x);
    hide ShapeOk, Node;
    if l.path != [] {
      UpChild(l, p, b);
      NodesDiffer(head, g, p, Up(l));
    } else {
      ChildUp(p, b);
    }
  }

  lemma AddLeafParent(k: Links, g: Trie, l: Loc, s: nat, x: int, p: Loc)
    requires ShapeOk(g) && l !in g.loc && s !in g.home && x > 0
    requires l.path != [] ==> Up(l) in g.loc
    requires p in g.loc && ParentOk(k, g, p) && Node(g, p) != x
    requires ShapeOk(AddLeaf(g, l, s, x))
    ensures ParentOk(LeafLinks(k, l, x, ParentOf(g, l)), AddLeaf(g, l, s, x), p)
  {
    AddLeafShape(g, l, s, x);
    hide Node;
  }

  lemma AddLeafNodes(head: map<int, Head>, k: Links, g: Trie, l: Loc, s: nat, x: int)
    requires ShapeOk(g) && NodesOk(k, g) && SizesOk(head, g)
    requires l !in g.loc && s !in g.home && x > 0 && !Member(g, x)
    requires l.path != [] ==> Up(l) in g.loc
    ensures ShapeOk(AddLeaf(g, l, s, x))
    ensures NodesOk(LeafLinks(k, l, x, ParentOf(g, l)), AddLeaf(g, l, s, x))
  {
    AddLeafShape(g, l, s, x);
    var g' := AddLeaf(g, l, s, x);
    var k' := LeafLinks(k, l, x, ParentOf(g, l));
    forall p <- g'.loc
      ensures NodeOk(k', g', p)
    {
      if p == l {
        ChildUp(l, false);
        ChildUp(l, true);
      } else {
        assert Node(g, p) in g.ring[g.loc[p]];
        AddLeafKid(head, k, g, l, s, x, p, false);
        AddLeafKid(head, k, g, l, s, x, p, true);
        AddLeafParent(k, g, l, s, x, p);
      }
    }
  }

  /** Chunk y is not written when a leaf is added at l. */
  lemma AddLeafApart(head: map<int, Head>, g: Trie, l: Loc, x: int, q: nat, j: nat)
    requires ShapeOk(g) && SizesOk(head, g) && !Member(g, x)
    requires l.path != [] ==> Up(l) in g.loc
    requires q in g.ring && j < |g.ring[q]|
    ensures g.ring[q][j] != x
    ensures j > 0 ==> g.ring[q][j] != ParentOf(g, l)
  {
    assert g.ring[q][j] in g.ring[q];
    RingsDiffer(head, g, q, j, if l.path != [] then g.loc[Up(l)] else q, 0);
  }

  lemma AddLeafTails(head: map<int, Head>, k: Links, g: Trie, l: Loc, s: nat, x: int)
    requires ShapeOk(g) && TailsOk(k, g) && SizesOk(head, g) && !Member(g, x)
    requires s !in g.home
    requires l.path != [] ==> Up(l) in g.loc
    ensures TailsOk(LeafLinks(k, l, x, ParentOf(g, l)), AddLeaf(g, l, s, x))
  {
    hide SizesOk, Member, ParentOf;
    var g' := AddLeaf(g, l, s, x);
    forall q <- g'.ring, j | 1 <= j < |g'.ring[q]|
      ensures Detached(LeafLinks(k, l, x, ParentOf(g, l)), g'.ring[q][j])
      ensures Rd(LeafLinks(k, l, x, ParentOf(g, l)).parent, g'.ring[q][j]) == 0
    {
      AddLeafApart(head, g, l, x, q, j);
      assert Detached(k, g.ring[q][j]);
    }
  }

  lemma AddLeafIndex(head: map<int, Head>, k: Links, g: Trie, l: Loc, s: nat, x: int)
    requires ShapeOk(g) && IndexOk(k, g) && SizesOk(head, g) && !Member(g, x)
    requires s !in g.home && l !in g.loc
    requires l.path != [] ==> Up(l) in g.loc
    requires ShapeOk(AddLeaf(g, l, s, x))
    ensures IndexOk(LeafLinks(k, l, x, ParentOf(g, l)), AddLeaf(g, l, s, x))
  {
    hide SizesOk, Member, ParentOf;
    var g' := AddLeaf(g, l, s, x);
    forall q <- g'.ring, j | 0 <= j < |g'.ring[q]|
      ensures Rd(LeafLinks(k, l, x, ParentOf(g, l)).index, g'.ring[q][j]) == g'.home[q].bin
    {
      if q != s {
        AddLeafApart(head, g, l, x, q, j);
        assert Rd(k.index, g.ring[q][j]) == g.home[q].bin;
      }
    }
  }

  lemma AddLeafSizes(head: map<int, Head>, g: Trie, l: Loc, s: nat, x: int)
    requires SizesOk(head, g) && PlaceOk(g) && SizedChunk(head, x, s) && LargeSize(s) && OnPath(s, l)
    ensures SizesOk(head, AddLeaf(g, l, s, x)) && PlaceOk(AddLeaf(g, l, s, x))
  {
  }

  lemma AddLeafRings(head: map<int, Head>, fd: Word, bk: Word, g: Trie, l: Loc, s: nat, x: int)
    requires RingsOk(fd, bk, g) && s !in g.ring && !Member(g, x)
    ensures RingsOk(fd[x := x], bk[x := x], AddLeaf(g, l, s, x))
  {
    var g' := AddLeaf(g, l, s, x);
    forall q <- g'.ring
      ensures RingOk(fd[x := x], bk[x := x], g'.ring[q])
    {
      if q != s {
        RingFrame(fd, bk, fd[x := x], bk[x := x], g.ring[q]);
      }
    }
  }

  /** The invariant of the tree bins over memory. */
  ghost predicate TrieOk(head: map<int, Head>, k: Links, fd: Word, bk: Word, g: Trie) {
    && ShapeOk(g) && PlaceOk(g) && SizesOk(head, g)
    && TreeOk(k, g) && RingsOk(fd, bk, g)
  }

  /** insert_large_chunk, new size: the chunk becomes a leaf of its own. */
  lemma AddLeafOk(head: map<int, Head>, k: Links, fd: Word, bk: Word, g: Trie, l: Loc, s: nat, x: int)
    requires TrieOk(head, k, fd, bk, g)
    requires l !in g.loc && s !in g.home && x > 0 && !Member(g, x)
    requires l.path != [] ==> Up(l) in g.loc
    requires SizedChunk(head, x, s) && LargeSize(s) && OnPath(s, l)
    ensures TrieOk(head, LeafLinks(k, l, x, ParentOf(g, l)), fd[x := x], bk[x := x], AddLeaf(g, l, s, x))
  {
    hide NodesOk, TailsOk, IndexOk, RingsOk, SizesOk, PlaceOk, OnPath, LargeSize, Node, ParentOf;
    AddLeafNodes(head, k, g, l, s, x);
    AddLeafTails(head, k, g, l, s, x);
    AddLeafIndex(head, k, g, l, s, x);
    AddLeafRings(head, fd, bk, g, l, s, x);
    AddLeafSizes(head, g, l, s, x);
  }

  // ------------------------------------------------------- removing a leaf

  ghost function DropLeaf(g: Trie, l: Loc): Trie
    requires l in g.loc
  {
    Trie(g.loc - {l}, g.home - {g.loc[l]}, g.ring - {g.loc[l]})
  }

  predicate IsLeaf(g: Trie, l: Loc) {
    l in g.loc && Child(l, false) !in g.loc && Child(l, true) !in g.loc
  }

  /** Clears the child slot that leads to l; a root has its slot in the bin. */
  ghost function DropLinks(k: Links, l: Loc, t: int): Links {
    k.(left := DropKid(k.left, t, SlotIs(l, false)), right := DropKid(k.right, t, SlotIs(l, true)))
  }

  function DropKid(w: Word, t: int, slot: bool): Word { if slot then w[t := 0] else w }

  lemma DropLeafShape(g: Trie, l: Loc)
    requires ShapeOk(g) && IsLeaf(g, l)
    ensures ShapeOk(DropLeaf(g, l))
    ensures forall p :: p != l ==> Node(DropLeaf(g, l), p) == Node(g, p)
    ensures Node(DropLeaf(g, l), l) == 0
  {
    var g' := DropLeaf(g, l);
    forall p <- g'.loc | p.path != []
      ensures Up(p) in g'.loc
    {
      UpChild(p, l, LastStep(p));
    }
  }

  lemma DropLeafKid(head: map<int, Head>, k: Links, g: Trie, l: Loc, p: Loc, b: bool)
    requires ShapeOk(g) && SizesOk(head, g) && IsLeaf(g, l)
    requires p in g.loc && p != l && KidOk(k, g, p, b) && ShapeOk(DropLeaf(g, l))
    ensures KidOk(DropLinks(k, l, ParentOf(g, l)), DropLeaf(g, l), p, b)
  {
    hide SizesOk;
    DropLeafShape(g, l);
    hide Node;
    if l.path != [] {
      UpChild(l, p, b);
      NodesDiffer(head, g, p, Up(l));
    } else {
      ChildUp(p, b);
    }
  }

  lemma DropLeafParent(k: Links, g: Trie, l: Loc, p: Loc)
    requires ShapeOk(g) && IsLeaf(g, l)
    requires p in g.loc && p != l && ParentOk(k, g, p) && ShapeOk(DropLeaf(g, l))
    ensures ParentOk(DropLinks(k, l, ParentOf(g, l)), DropLeaf(g, l), p)
  {
    DropLeafShape(g, l);
    hide Node;
    if p.path != [] {
      UpChild(p, l, LastStep(p));
    }
  }

  lemma DropLeafTails(head: map<int, Head>, k: Links, g: Trie, l: Loc)
    requires ShapeOk(g) && TailsOk(k, g) && SizesOk(head, g) && l in g.loc
    ensures TailsOk(DropLinks(k, l, ParentOf(g, l)), DropLeaf(g, l))
  {
    hide SizesOk;
    var g' := DropLeaf(g, l);
    forall q <- g'.ring, j | 1 <= j < |g'.ring[q]|
      ensures Detached(DropLinks(k, l, ParentOf(g, l)), g'.ring[q][j])
    {
      assert Detached(k, g.ring[q][j]);
      if l.path != [] {
        RingsDiffer(head, g, q, j, g.loc[Up(l)], 0);
      }
    }
  }

  /** Removing a leaf together with its whole ring. */
  lemma DropLeafOk(head: map<int, Head>, k: Links, fd: Word, bk: Word, g: Trie, l: Loc)
    requires TrieOk(head, k, fd, bk, g) && IsLeaf(g, l)
    ensures TrieOk(head, DropLinks(k, l, ParentOf(g, l)), fd, bk, DropLeaf(g, l))
  {
    hide TailsOk, OnPath, LargeSize, Node, ParentOf, RingOk, Distinct, KidOk, ParentOk, DropKid;
    var g' := DropLeaf(g, l);
    DropLeafShape(g, l);
    DropLeafTails(head, k, g, l);
    forall p <- g'.loc
      ensures NodeOk(DropLinks(k, l, ParentOf(g, l)), g', p)
    {
      assert NodeOk(k, g, p);
      DropLeafKid(head, k, g, l, p, false);
      DropLeafKid(head, k, g, l, p, true);
      DropLeafParent(k, g, l, p);
    }
  }

  // ------------------------------------------------------ replacing a node

  /** Puts size t with ring r at l, in place of the size that sits there. */
  ghost function SwapNode(g: Trie, l: Loc, t: nat, r: seq<int>): Trie
    requires l in g.loc
  {
    Trie(g.loc[l := t], (g.home - {g.loc[l]})[t := l], (g.ring - {g.loc[l]})[t := r])
  }

  /** The links the C code writes to put y where the tree node x is. */
  ghost function SwapLinks(k: Links, l: Loc, x: int, y: int, up: int): Links {
    var c0, c1 := Rd(k.left, x), Rd(k.right, x);
    var parent := k.parent[y := up];
    var parent' := if c0 != 0 then parent[c0 := y] else parent;
    Links(SwapKid(k.left, c0, y, up, SlotIs(l, false)), SwapKid(k.right, c1, y, up, SlotIs(l, true)),
          if c1 != 0 then parent'[c1 := y] else parent',
          k.index)
  }

  function SwapKid(w: Word, c: int, y: int, up: int, slot: bool): Word {
    var w' := if slot then w[up := y] else w;
    if c != 0 then w'[y := c] else w'
  }

  lemma SwapNodeShape(g: Trie, l: Loc, t: nat, r: seq<int>)
    requires ShapeOk(g) && l in g.loc && |r| > 0
    requires t == g.loc[l] || t !in g.home
    ensures ShapeOk(SwapNode(g, l, t, r))
    ensures forall p :: p != l ==> Node(SwapNode(g, l, t, r), p) == Node(g, p)
    ensures Node(SwapNode(g, l, t, r), l) == r[0]
  {
  }

  lemma SwapKidRead(w: Word, c: int, y: int, up: int, slot: bool, n: int)
    requires n != y
    ensures Rd(SwapKid(w, c, y, up, slot), n) == if slot && n == up then y else Rd(w, n)
  {
  }

  /** A node other than l has l as a child exactly where l's slot is. */
  lemma SlotOwner(head: map<int, Head>, g: Trie, l: Loc, p: Loc, b: bool)
    requires ShapeOk(g) && SizesOk(head, g) && l in g.loc && p in g.loc
    ensures SlotIs(l, b) && Node(g, p) == ParentOf(g, l) <==> Child(p, b) == l
  {
    hide SizesOk;
    if l.path != [] {
      UpChild(l, p, b);
      NodesDiffer(head, g, p, Up(l));
    } else {
      ChildUp(p, b);
    }
  }

  lemma SwapOtherKid(head: map<int, Head>, k: Links, g: Trie, l: Loc, t: nat, r: seq<int>, p: Loc, b: bool)
    requires ShapeOk(g) && SizesOk(head, g) && l in g.loc && |r| > 0
    requires t == g.loc[l] || t !in g.home
    requires KidOk(k, g, p, b) && p in g.loc && p != l
    requires Node(g, p) != r[0] && ShapeOk(SwapNode(g, l, t, r))
    ensures KidOk(SwapLinks(k, l, Node(g, l), r[0], ParentOf(g, l)), SwapNode(g, l, t, r), p, b)
  {
    hide SizesOk, SwapKid;
    SwapNodeShape(g, l, t, r);
    hide Node, ShapeOk, ParentOf, SlotIs;
    SlotOwner(head, g, l, p, b);
    SwapKidRead(Kid(k, b), Rd(Kid(k, b), Node(g, l)), r[0], ParentOf(g, l), SlotIs(l, b), Node(g, p));
  }

  lemma SwapOtherParent(head: map<int, Head>, k: Links, g: Trie, l: Loc, t: nat, r: seq<int>, p: Loc)
    requires ShapeOk(g) && SizesOk(head, g) && l in g.loc && |r| > 0
    requires t == g.loc[l] || t !in g.home
    requires KidOk(k, g, l, false) && KidOk(k, g, l, true) && ParentOk(k, g, p) && p in g.loc && p != l
    requires Node(g, p) != r[0] && ShapeOk(SwapNode(g, l, t, r))
    ensures ParentOk(SwapLinks(k, l, Node(g, l), r[0], ParentOf(g, l)), SwapNode(g, l, t, r), p)
  {
    hide SizesOk, SwapKid;
    SwapNodeShape(g, l, t, r);
    NodesDiffer(head, g, p, p);
    ChildIsNode(head, g, l, p, false);
    ChildIsNode(head, g, l, p, true);
    ParentAfterSwap(k, g, l, t, r, p);
  }

  lemma SwapParentRead(k: Links, l: Loc, x: int, y: int, up: int, n: int)
    requires n != y
    ensures Rd(SwapLinks(k, l, x, y, up).parent, n)
         == if n != 0 && (n == Rd(k.left, x) || n == Rd(k.right, x)) then y else Rd(k.parent, n)
  {
  }

  lemma ParentAfterSwap(k: Links, g: Trie, l: Loc, t: nat, r: seq<int>, p: Loc)
    requires ShapeOk(g) && l in g.loc && p in g.loc && p != l && |r| > 0 && ShapeOk(SwapNode(g, l, t, r))
    requires forall m <- g.loc :: m != l ==> Node(SwapNode(g, l, t, r), m) == Node(g, m)
    requires Node(SwapNode(g, l, t, r), l) == r[0] && Node(g, p) != r[0] && Node(g, p) != 0
    requires KidOk(k, g, l, false) && KidOk(k, g, l, true) && ParentOk(k, g, p)
    requires forall b :: Node(g, p) == Node(g, Child(l, b)) <==> p == Child(l, b)
    requires p.path != [] ==> Up(p) in g.loc && (Up(p) == l ==> p == Child(l, LastStep(p)))
    requires forall b :: p == Child(l, b) ==> p.path != [] && Up(p) == l
    ensures ParentOk(SwapLinks(k, l, Node(g, l), r[0], ParentOf(g, l)), SwapNode(g, l, t, r), p)
  {
    assert p == Child(l, false) || p == Child(l, true) <==> p.path != [] && Up(p) == l;
    SwapParentRead(k, l, Node(g, l), r[0], ParentOf(g, l), Node(g, p));
    hide Node, ShapeOk, Child, SwapLinks, SwapNode;
  }

  /** The parent of a node is the only node with that child. */
  lemma ChildIsNode(head: map<int, Head>, g: Trie, l: Loc, p: Loc, b: bool)
    requires ShapeOk(g) && SizesOk(head, g) && p in g.loc
    ensures Node(g, p) == Node(g, Child(l, b)) <==> p == Child(l, b)
    ensures p.path != [] && Up(p) == l ==> p == Child(l, LastStep(p))
    ensures p == Child(l, b) ==> p.path != [] && Up(p) == l
  {
    hide SizesOk;
    NodesDiffer(head, g, p, p);
    if Child(l, b) in g.loc {
      NodesDiffer(head, g, p, Child(l, b));
    }
    ChildUp(l, b);
    if p.path != [] {
      UpChild(p, l, LastStep(p));
    }
  }

  /** The new node at l. */
  lemma SwapSelfKid(k: Links, g: Trie, l: Loc, t: nat, r: seq<int>, b: bool)
    requires ShapeOk(g) && l in g.loc && |r| > 0
    requires t == g.loc[l] || t !in g.home
    requires KidOk(k, g, l, b) && Detached(k, r[0])
    requires l.path != [] ==> ParentOf(g, l) != r[0]
    requires ShapeOk(SwapNode(g, l, t, r))
    ensures KidOk(SwapLinks(k, l, Node(g, l), r[0], ParentOf(g, l)), SwapNode(g, l, t, r), l, b)
  {
    SwapNodeShape(g, l, t, r);
    hide Node, ShapeOk, ParentOf;
    ChildUp(l, b);
  }

  lemma SwapSelfParent(k: Links, g: Trie, l: Loc, t: nat, r: seq<int>)
    requires ShapeOk(g) && l in g.loc && |r| > 0
    requires t == g.loc[l] || t !in g.home
    requires KidOk(k, g, l, false) && KidOk(k, g, l, true)
    requires Node(g, Child(l, false)) != r[0] && Node(g, Child(l, true)) != r[0]
    requires ShapeOk(SwapNode(g, l, t, r))
    ensures ParentOk(SwapLinks(k, l, Node(g, l), r[0], ParentOf(g, l)), SwapNode(g, l, t, r), l)
  {
    SwapNodeShape(g, l, t, r);
    if l.path != [] {
      assert Up(l) != l;
    }
    hide Node, ShapeOk;
  }

  lemma SwapNodes(head: map<int, Head>, k: Links, g: Trie, l: Loc, t: nat, r: seq<int>)
    requires ShapeOk(g) && NodesOk(k, g) && SizesOk(head, g) && l in g.loc && |r| > 0
    requires t == g.loc[l] || t !in g.home
    requires Detached(k, r[0]) && r[0] > 0
    requires forall p <- g.loc :: Node(g, p) != r[0]
    requires ShapeOk(SwapNode(g, l, t, r))
    ensures NodesOk(SwapLinks(k, l, Node(g, l), r[0], ParentOf(g, l)), SwapNode(g, l, t, r))
  {
    var g' := SwapNode(g, l, t, r);
    var k' := SwapLinks(k, l, Node(g, l), r[0], ParentOf(g, l));
    assert NodeOk(k, g, l);
    forall p <- g'.loc
      ensures NodeOk(k', g', p)
    {
      if p == l {
        assert l.path != [] ==> ParentOf(g, l) != r[0];
        assert Node(g, Child(l, false)) != r[0] && Node(g, Child(l, true)) != r[0];
        SwapSelfKid(k, g, l, t, r, false);
        SwapSelfKid(k, g, l, t, r, true);
        SwapSelfParent(k, g, l, t, r);
      } else {
        assert NodeOk(k, g, p);
        SwapOtherKid(head, k, g, l, t, r, p, false);
        SwapOtherKid(head, k, g, l, t, r, p, true);
        SwapOtherParent(head, k, g, l, t, r, p);
      }
    }
  }

  /** What makes r a ring of size t that may be put at l. */
  ghost predicate RingFits(head: map<int, Head>, k: Links, l: Loc, t: nat, r: seq<int>) {
    && |r| > 0 && Distinct(r)
    && (forall j :: 0 <= j < |r| ==> SizedChunk(head, r[j], t) && Detached(k, r[j]) && Rd(k.index, r[j]) == l.bin)
    && (forall j :: 1 <= j < |r| ==> Rd(k.parent, r[j]) == 0)
  }

  /** Only tree nodes and the new node are written. */
  lemma SwapApart(k: Links, l: Loc, x: int, y: int, up: int, z: int)
    requires z != y && (l.path != [] ==> z != up)
    requires z == 0 || (z != Rd(k.left, x) && z != Rd(k.right, x))
    ensures Rd(SwapLinks(k, l, x, y, up).left, z) == Rd(k.left, z)
    ensures Rd(SwapLinks(k, l, x, y, up).right, z) == Rd(k.right, z)
    ensures z != 0 ==> Rd(SwapLinks(k, l, x, y, up).parent, z) == Rd(k.parent, z)
  {
  }

  /** A tail of the new trie is no node next to l. */
  lemma SwapTailApart(head: map<int, Head>, k: Links, g: Trie, l: Loc, t: nat, r: seq<int>, q: nat, j: nat)
    requires ShapeOk(g) && SizesOk(head, g) && NodeOk(k, g, l) && l in g.loc
    requires t == g.loc[l] || t !in g.home
    requires RingFits(head, k, l, t, r)
    requires q in SwapNode(g, l, t, r).ring && 1 <= j < |SwapNode(g, l, t, r).ring[q]|
    ensures var z := SwapNode(g, l, t, r).ring[q][j];
            && z > 0 && z != r[0]
            && (l.path != [] ==> z != ParentOf(g, l))
            && z != Rd(k.left, Node(g, l)) && z != Rd(k.right, Node(g, l))
  {
    var z := SwapNode(g, l, t, r).ring[q][j];
    assert SizedChunk(head, z, q) && SizedChunk(head, r[0], t);
    if l.path != [] {
      TailNotNode(head, g, Up(l), z, q, q == t || q == g.loc[l]);
    }
    ChildUp(l, false);
    ChildUp(l, true);
    TailNotNode(head, g, Child(l, false), z, q, q == t || q == g.loc[l]);
    TailNotNode(head, g, Child(l, true), z, q, q == t || q == g.loc[l]);
  }

  lemma TailNotNode(head: map<int, Head>, g: Trie, p: Loc, z: int, q: nat, other: bool)
    requires ShapeOk(g) && SizesOk(head, g) && SizedChunk(head, z, q)
    requires other ==> p !in g.loc || g.loc[p] != q
    requires !other ==> q in g.ring && exists j :: 1 <= j < |g.ring[q]| && g.ring[q][j] == z
    ensures z != Node(g, p)
  {
    if p in g.loc {
      assert SizedChunk(head, g.ring[g.loc[p]][0], g.loc[p]);
    }
  }

  lemma SwapTails(head: map<int, Head>, k: Links, g: Trie, l: Loc, t: nat, r: seq<int>)
    requires ShapeOk(g) && SizesOk(head, g) && NodesOk(k, g) && TailsOk(k, g) && IndexOk(k, g)
    requires l in g.loc && (t == g.loc[l] || t !in g.home)
    requires RingFits(head, k, l, t, r) && ShapeOk(SwapNode(g, l, t, r))
    ensures TailsOk(SwapLinks(k, l, Node(g, l), r[0], ParentOf(g, l)), SwapNode(g, l, t, r))
  {
    var g' := SwapNode(g, l, t, r);
    var k' := SwapLinks(k, l, Node(g, l), r[0], ParentOf(g, l));
    assert NodeOk(k, g, l);
    hide SizesOk, NodesOk, ShapeOk, Node, ParentOf, IndexOk, SwapLinks;
    forall q <- g'.ring, j | 1 <= j < |g'.ring[q]|
      ensures Detached(k', g'.ring[q][j]) && Rd(k'.parent, g'.ring[q][j]) == 0
    {
      SwapTailApart(head, k, g, l, t, r, q, j);
      SwapApart(k, l, Node(g, l), r[0], ParentOf(g, l), g'.ring[q][j]);
    }
  }

  lemma SwapIndex(head: map<int, Head>, k: Links, g: Trie, l: Loc, t: nat, r: seq<int>)
    requires ShapeOk(g) && IndexOk(k, g)
    requires l in g.loc && (t == g.loc[l] || t !in g.home)
    requires RingFits(head, k, l, t, r) && ShapeOk(SwapNode(g, l, t, r))
    ensures IndexOk(SwapLinks(k, l, Node(g, l), r[0], ParentOf(g, l)), SwapNode(g, l, t, r))
  {
    hide SizedChunk, Distinct;
  }

  lemma SwapSizes(head: map<int, Head>, k: Links, g: Trie, l: Loc, t: nat, r: seq<int>)
    requires SizesOk(head, g) && PlaceOk(g) && l in g.loc
    requires RingFits(head, k, l, t, r) && LargeSize(t) && OnPath(t, l)
    ensures SizesOk(head, SwapNode(g, l, t, r)) && PlaceOk(SwapNode(g, l, t, r))
  {
    hide SizedChunk, Distinct;
  }

  lemma RingFitsHead(head: map<int, Head>, k: Links, fd: Word, bk: Word, g: Trie, l: Loc, t: nat, r: seq<int>)
    requires ShapeOk(g) && l in g.loc && RingFits(head, k, l, t, r)
    ensures |r| > 0 && Detached(k, r[0]) && r[0] > 0
    ensures t == g.loc[l] || t !in g.home ==> t == g.loc[l] || t !in g.ring
  {
    assert SizedChunk(head, r[0], t);
  }

  /** unlink_large_chunk: another ring takes the place of the one at l. */
  lemma SwapNodeOk(head: map<int, Head>, k: Links, fd: Word, bk: Word, g: Trie, l: Loc, t: nat, r: seq<int>)
    requires ShapeOk(g) && PlaceOk(g) && SizesOk(head, g) && TreeOk(k, g)
    requires l in g.loc && (t == g.loc[l] || t !in g.home)
    requires RingFits(head, k, l, t, r) && LargeSize(t) && OnPath(t, l)
    requires forall p <- g.loc :: Node(g, p) != r[0]
    requires forall q <- g.ring :: q != g.loc[l] ==> RingOk(fd, bk, g.ring[q])
    requires RingOk(fd, bk, r)
    ensures TrieOk(head, SwapLinks(k, l, Node(g, l), r[0], ParentOf(g, l)), fd, bk, SwapNode(g, l, t, r))
  {
    hide ShapeOk, PlaceOk, SizesOk, NodesOk, TailsOk, IndexOk, Node, ParentOf, RingOk, OnPath, LargeSize, RingFits, SwapLinks;
    RingFitsHead(head, k, fd, bk, g, l, t, r);
    SwapNodeShape(g, l, t, r);
    SwapNodes(head, k, g, l, t, r);
    SwapTails(head, k, g, l, t, r);
    SwapIndex(head, k, g, l, t, r);
    SwapSizes(head, k, g, l, t, r);
  }

  // --------------------------------------------------- rings of one size

  ghost function Regroup(g: Trie, s: nat, r: seq<int>): Trie { g.(ring := g.ring[s := r]) }

  /** The links the C code writes for a chunk that joins an existing ring. */
  function JoinLinks(k: Links, x: int, i: nat): Links {
    Links(k.left[x := 0], k.right[x := 0], k.parent[x := 0], k.index[x := i])
  }

  lemma RegroupShape(g: Trie, s: nat, r: seq<int>)
    requires ShapeOk(g) && s in g.ring && |r| > 0
    ensures ShapeOk(Regroup(g, s, r))
    ensures r[0] == g.ring[s][0] ==> forall l :: Node(Regroup(g, s, r), l) == Node(g, l)
  {
  }

  lemma JoinNode(k: Links, g: Trie, s: nat, r: seq<int>, x: int, p: Loc)
    requires ShapeOk(g) && NodesOk(k, g) && s in g.ring && !Member(g, x) && x > 0
    requires |r| > 0 && r[0] == g.ring[s][0] && p in g.loc
    requires ShapeOk(Regroup(g, s, r))
    ensures s in g.home && NodeOk(JoinLinks(k, x, g.home[s].bin), Regroup(g, s, r), p)
  {
    RegroupShape(g, s, r);
    assert NodeOk(k, g, p);
    assert Node(g, p) in g.ring[g.loc[p]];
  }

  lemma HomeOf(g: Trie, s: nat)
    requires ShapeOk(g) && s in g.ring
    ensures s in g.home
  {
  }

  lemma JoinNodes(k: Links, g: Trie, s: nat, r: seq<int>, x: int)
    requires ShapeOk(g) && NodesOk(k, g) && s in g.ring && !Member(g, x) && x > 0
    requires |r| > 0 && r[0] == g.ring[s][0]
    requires ShapeOk(Regroup(g, s, r))
    ensures NodesOk(JoinLinks(k, x, g.home[s].bin), Regroup(g, s, r))
  {
    hide ShapeOk, NodeOk, Member;
    HomeOf(g, s);
    forall p <- Regroup(g, s, r).loc
      ensures NodeOk(JoinLinks(k, x, g.home[s].bin), Regroup(g, s, r), p)
    {
      JoinNode(k, g, s, r, x, p);
    }
  }

  /** insert_large_chunk, known size: the chunk joins the ring behind the node. */
  lemma JoinOk(head: map<int, Head>, k: Links, fd: Word, bk: Word, g: Trie, s: nat, x: int, f: int)
    requires TrieOk(head, k, fd, bk, g) && s in g.ring
    requires SizedChunk(head, x, s) && !Member(g, x) && f == Rd(fd, g.ring[s][0])
    ensures var n := g.ring[s][0];
            TrieOk(head, JoinLinks(k, x, g.home[s].bin), fd[n := x][x := f], bk[f := x][x := n],
                   Regroup(g, s, [n, x] + g.ring[s][1..]))
  {
    var n := g.ring[s][0];
    var r := [n, x] + g.ring[s][1..];
    assert s in g.home;
    RegroupShape(g, s, r);
    JoinNodes(k, g, s, r, x);
    JoinTails(k, g, s, x);
    JoinSizes(head, g, s, x);
    JoinRings(head, fd, bk, g, s, x, f);
    hide ShapeOk, NodesOk, TailsOk, IndexOk, SizesOk, RingsOk, OnPath, LargeSize, Node;
  }

  /** Where an element of the ring after the join comes from. */
  lemma JoinOrigin(g: Trie, s: nat, x: int, q: nat, j: nat) returns (i: nat)
    requires s in g.ring && |g.ring[s]| > 0 && q in g.ring && !Member(g, x)
    requires j < |Regroup(g, s, [g.ring[s][0], x] + g.ring[s][1..]).ring[q]|
    ensures var y := Regroup(g, s, [g.ring[s][0], x] + g.ring[s][1..]).ring[q][j];
            y == x || (i < |g.ring[q]| && g.ring[q][i] == y && (j >= 1 ==> i >= 1))
    ensures Regroup(g, s, [g.ring[s][0], x] + g.ring[s][1..]).ring[q][j] == x ==> q == s && j == 1
  {
    i := if q == s && j >= 2 then j - 1 else j;
    if !(q == s && j == 1) {
      assert g.ring[q][i] in g.ring[q];
    }
  }

  lemma JoinTails(k: Links, g: Trie, s: nat, x: int)
    requires ShapeOk(g) && TailsOk(k, g) && IndexOk(k, g) && s in g.ring && !Member(g, x)
    requires ShapeOk(Regroup(g, s, [g.ring[s][0], x] + g.ring[s][1..]))
    ensures TailsOk(JoinLinks(k, x, g.home[s].bin), Regroup(g, s, [g.ring[s][0], x] + g.ring[s][1..]))
    ensures IndexOk(JoinLinks(k, x, g.home[s].bin), Regroup(g, s, [g.ring[s][0], x] + g.ring[s][1..]))
  {
    hide Member;
    var r := [g.ring[s][0], x] + g.ring[s][1..];
    var g' := Regroup(g, s, r);
    var k' := JoinLinks(k, x, g.home[s].bin);
    forall q <- g'.ring, j | 0 <= j < |g'.ring[q]|
      ensures Rd(k'.index, g'.ring[q][j]) == g'.home[q].bin
      ensures j >= 1 ==> Detached(k', g'.ring[q][j]) && Rd(k'.parent, g'.ring[q][j]) == 0
    {
      var i := JoinOrigin(g, s, x, q, j);
    }
    hide ShapeOk;
  }

  lemma JoinSizes(head: map<int, Head>, g: Trie, s: nat, x: int)
    requires ShapeOk(g) && SizesOk(head, g) && s in g.ring && !Member(g, x) && SizedChunk(head, x, s)
    ensures SizesOk(head, Regroup(g, s, [g.ring[s][0], x] + g.ring[s][1..]))
  {
    var r := [g.ring[s][0], x] + g.ring[s][1..];
    forall j | 0 <= j < |r|
      ensures SizedChunk(head, r[j], s)
    {
      if j >= 2 {
        assert SizedChunk(head, g.ring[s][j - 1], s);
      } else if j == 0 {
        assert SizedChunk(head, g.ring[s][0], s);
      }
    }
    assert x !in g.ring[s];
    assert Distinct(r);
    hide ShapeOk, SizedChunk;
  }

  lemma JoinRings(head: map<int, Head>, fd: Word, bk: Word, g: Trie, s: nat, x: int, f: int)
    requires ShapeOk(g) && SizesOk(head, g) && RingsOk(fd, bk, g)
    requires s in g.ring && !Member(g, x) && f == Rd(fd, g.ring[s][0])
    ensures var n := g.ring[s][0];
            RingsOk(fd[n := x][x := f], bk[f := x][x := n], Regroup(g, s, [n, x] + g.ring[s][1..]))
  {
    var n := g.ring[s][0];
    var fd', bk' := fd[n := x][x := f], bk[f := x][x := n];
    assert RingOk(fd, bk, g.ring[s]);
    RingInsert(fd, bk, g.ring[s], x, f);
    var i := After(g.ring[s], 0);
    assert f == g.ring[s][i];
    forall q <- g.ring | q != s
      ensures RingOk(fd', bk', g.ring[q])
    {
      OtherRing(head, fd, bk, fd', bk', g, s, q, [x]);
    }
    hide RingOk, SizesOk, ShapeOk;
  }

  /** Writing links of chunks of size s, or outside all rings, leaves other rings alone. */
  lemma OtherRing(head: map<int, Head>, fd: Word, bk: Word, fd': Word, bk': Word, g: Trie, s: nat, q: nat, xs: seq<int>)
    requires SizesOk(head, g) && RingsOk(fd, bk, g) && s in g.ring && q in g.ring && q != s
    requires forall x <- xs :: !Member(g, x)
    requires forall z :: z !in xs && z !in g.ring[s] ==> Rd(fd', z) == Rd(fd, z) && Rd(bk', z) == Rd(bk, z)
    ensures RingOk(fd', bk', g.ring[q])
  {
    forall z | z in g.ring[q]
      ensures Rd(fd', z) == Rd(fd, z) && Rd(bk', z) == Rd(bk, z)
    {
      assert Member(g, z);
      if z in g.ring[s] {
        var j :| 0 <= j < |g.ring[q]| && g.ring[q][j] == z;
        var i :| 0 <= i < |g.ring[s]| && g.ring[s][i] == z;
        RingsDiffer(head, g, q, j, s, i);
      }
    }
    RingFrame(fd, bk, fd', bk', g.ring[q]);
  }

  lemma LeaveSub(g: Trie, s: nat, i: nat, r: seq<int>, q: nat, j: nat) returns (j': nat)
    requires s in g.ring && 1 <= i < |g.ring[s]| && r == g.ring[s][..i] + g.ring[s][i + 1..]
    requires q in g.ring && j < |Regroup(g, s, r).ring[q]|
    ensures j' < |g.ring[q]| && g.ring[q][j'] == Regroup(g, s, r).ring[q][j]
    ensures j >= 1 ==> j' >= 1
  {
    j' := if q == s && j >= i then j + 1 else j;
  }

  lemma LeaveTails(k: Links, g: Trie, s: nat, i: nat, r: seq<int>)
    requires ShapeOk(g) && TailsOk(k, g) && IndexOk(k, g)
    requires s in g.ring && 1 <= i < |g.ring[s]| && r == g.ring[s][..i] + g.ring[s][i + 1..]
    requires ShapeOk(Regroup(g, s, r))
    ensures TailsOk(k, Regroup(g, s, r)) && IndexOk(k, Regroup(g, s, r))
  {
    var g' := Regroup(g, s, r);
    forall q <- g'.ring, j | 0 <= j < |g'.ring[q]|
      ensures Rd(k.index, g'.ring[q][j]) == g'.home[q].bin
      ensures j >= 1 ==> Detached(k, g'.ring[q][j]) && Rd(k.parent, g'.ring[q][j]) == 0
    {
      var j' := LeaveSub(g, s, i, r, q, j);
    }
    hide ShapeOk;
  }

  lemma LeaveSizes(head: map<int, Head>, g: Trie, s: nat, i: nat, r: seq<int>)
    requires SizesOk(head, g)
    requires s in g.ring && 1 <= i < |g.ring[s]| && r == g.ring[s][..i] + g.ring[s][i + 1..]
    ensures SizesOk(head, Regroup(g, s, r))
  {
    hide SizedChunk;
    var g' := Regroup(g, s, r);
    forall q <- g'.ring, j | 0 <= j < |g'.ring[q]|
      ensures SizedChunk(head, g'.ring[q][j], q)
    {
      var j' := LeaveSub(g, s, i, r, q, j);
    }
  }

  lemma LeaveRings(head: map<int, Head>, fd: Word, bk: Word, g: Trie, s: nat, i: nat, f: int, b: int)
    requires SizesOk(head, g) && RingsOk(fd, bk, g)
    requires s in g.ring && i < |g.ring[s]| && |g.ring[s]| >= 2
    requires f == Rd(fd, g.ring[s][i]) && b == Rd(bk, g.ring[s][i])
    ensures RingOk(fd[b := f], bk[f := b], g.ring[s][..i] + g.ring[s][i + 1..])
    ensures forall q <- g.ring :: q != s ==> RingOk(fd[b := f], bk[f := b], g.ring[q])
  {
    var r := g.ring[s];
    assert RingOk(fd, bk, r);
    RingRemove(fd, bk, r, i, f, b);
    RingBack(fd, bk, r, i);
    assert f == r[After(r, i)] && b == r[Before(r, i)];
    forall q <- g.ring | q != s
      ensures RingOk(fd[b := f], bk[f := b], g.ring[q])
    {
      OtherRing(head, fd, bk, fd[b := f], bk[f := b], g, s, q, []);
    }
  }

  /** unlink_large_chunk of a chunk behind the tree node of its ring. */
  lemma LeaveOk(head: map<int, Head>, k: Links, fd: Word, bk: Word, g: Trie, s: nat, i: nat, f: int, b: int)
    requires TrieOk(head, k, fd, bk, g) && s in g.ring && 1 <= i < |g.ring[s]|
    requires f == Rd(fd, g.ring[s][i]) && b == Rd(bk, g.ring[s][i])
    ensures TrieOk(head, k, fd[b := f], bk[f := b], Regroup(g, s, g.ring[s][..i] + g.ring[s][i + 1..]))
  {
    hide ShapeOk, NodesOk, TailsOk, IndexOk, SizesOk, OnPath, LargeSize, Node, RingOk;
    var r := g.ring[s][..i] + g.ring[s][i + 1..];
    RegroupShape(g, s, r);
    LeaveTails(k, g, s, i, r);
    LeaveSizes(head, g, s, i, r);
    LeaveRings(head, fd, bk, g, s, i, f, b);
    LeaveNodes(k, g, s, r);
  }

  lemma LeaveNodes(k: Links, g: Trie, s: nat, r: seq<int>)
    requires ShapeOk(g) && NodesOk(k, g) && s in g.ring && |r| > 0 && r[0] == g.ring[s][0]
    requires ShapeOk(Regroup(g, s, r))
    ensures NodesOk(k, Regroup(g, s, r))
  {
    RegroupShape(g, s, r);
    forall p <- Regroup(g, s, r).loc
      ensures NodeOk(k, Regroup(g, s, r), p)
    {
      assert NodeOk(k, g, p);
      hide Node, ShapeOk;
    }
  }

  lemma SuccessionFits(head: map<int, Head>, k: Links, g: Trie, s: nat)
    requires ShapeOk(g) && SizesOk(head, g) && TailsOk(k, g) && IndexOk(k, g)
    requires s in g.ring && |g.ring[s]| >= 2
    ensures RingFits(head, k, g.home[s], s, Succession(g.ring[s]))
    ensures forall p <- g.loc :: Node(g, p) != Succession(g.ring[s])[0]
  {
    var r := g.ring[s];
    var r' := Succession(r);
    forall j | 0 <= j < |r'|
      ensures var j' := if j == 0 then |r| - 1 else j; r'[j] == r[j'] && SizedChunk(head, r[j'], s)
    {
    }
    forall p <- g.loc
      ensures Node(g, p) != r'[0]
    {
      RingsDiffer(head, g, g.loc[p], 0, s, |r| - 1);
    }
  }

  lemma HeadLeavesRing(head: map<int, Head>, fd: Word, bk: Word, g: Trie, s: nat, f: int, b: int)
    requires SizesOk(head, g) && RingsOk(fd, bk, g) && s in g.ring && |g.ring[s]| >= 2
    requires f == Rd(fd, g.ring[s][0]) && b == Rd(bk, g.ring[s][0])
    ensures b == Succession(g.ring[s])[0]
    ensures RingOk(fd[b := f], bk[f := b], Succession(g.ring[s]))
    ensures forall q <- g.ring :: q != s ==> RingOk(fd[b := f], bk[f := b], g.ring[q])
  {
    var r := g.ring[s];
    assert RingOk(fd, bk, r);
    hide RingOk, RingsOk, SizesOk;
    RingSucceed(fd, bk, r, f, b);
    LeaveRings(head, fd, bk, g, s, 0, f, b);
  }

  lemma HomeFacts(g: Trie, s: nat)
    requires ShapeOk(g) && PlaceOk(g) && s in g.ring
    ensures s in g.home && g.home[s] in g.loc && g.loc[g.home[s]] == s
    ensures |g.ring[s]| > 0 && Node(g, g.home[s]) == g.ring[s][0]
    ensures LargeSize(s) && OnPath(s, g.home[s])
  {
  }

  /** unlink_large_chunk of a tree node with company: the last ring member replaces it. */
  lemma HeadLeavesOk(head: map<int, Head>, k: Links, fd: Word, bk: Word, g: Trie, s: nat, f: int, b: int)
    requires TrieOk(head, k, fd, bk, g) && s in g.ring && |g.ring[s]| >= 2
    requires f == Rd(fd, g.ring[s][0]) && b == Rd(bk, g.ring[s][0])
    ensures b == Succession(g.ring[s])[0] && s in g.home && g.home[s] in g.loc
    ensures var l := g.home[s];
            TrieOk(head, SwapLinks(k, l, g.ring[s][0], b, ParentOf(g, l)), fd[b := f], bk[f := b],
                   SwapNode(g, l, s, Succession(g.ring[s])))
  {
    hide ShapeOk, PlaceOk, SizesOk, NodesOk, TailsOk, IndexOk, RingOk, OnPath, LargeSize, Node, ParentOf, RingFits, SwapLinks;
    HomeFacts(g, s);
    HeadLeavesRing(head, fd, bk, g, s, f, b);
    SuccessionFits(head, k, g, s);
    SwapNodeOk(head, k, fd[b := f], bk[f := b], g, g.home[s], s, Succession(g.ring[s]));
  }

  // ---------------------------------------------- a deep leaf replaces a node

  /** m lies strictly below l. */
  predicate Below(m: Loc, l: Loc) {
    m.bin == l.bin && |l.path| < |m.path| && m.path[..|l.path|] == l.path
  }

  lemma LeafApart(head: map<int, Head>, g: Trie, l: Loc, m: Loc)
    requires ShapeOk(g) && SizesOk(head, g) && IsLeaf(g, m) && l in g.loc && Below(m, l)
    ensures ShapeOk(DropLeaf(g, m)) && l in DropLeaf(g, m).loc && g.loc[m] in g.ring
    ensures g.loc[m] !in DropLeaf(g, m).home
    ensures Node(DropLeaf(g, m), l) == Node(g, l)
    ensures ParentOf(DropLeaf(g, m), l) == ParentOf(g, l)
    ensures forall p <- DropLeaf(g, m).loc :: Node(DropLeaf(g, m), p) != Node(g, m)
    ensures Node(g, m) == g.ring[g.loc[m]][0]
  {
    DropLeafShape(g, m);
    forall p <- g.loc | p != m
      ensures Node(g, p) != Node(g, m)
    {
      NodesDiffer(head, g, p, m);
    }
    hide SizesOk;
  }

  lemma LeafPlace(g: Trie, l: Loc, m: Loc)
    requires PlaceOk(g) && ShapeOk(g) && IsLeaf(g, m) && Below(m, l)
    ensures LargeSize(g.loc[m]) && OnPath(g.loc[m], l)
  {
    var t := g.loc[m];
    assert OnPath(t, m);
    PathPrefix(t, l.bin, |l.path|, |m.path|);
  }

  lemma LeafFits(head: map<int, Head>, k: Links, g: Trie, l: Loc, m: Loc, t: int)
    requires ShapeOk(g) && SizesOk(head, g) && NodesOk(k, g) && TailsOk(k, g) && IndexOk(k, g)
    requires IsLeaf(g, m) && Below(m, l)
    ensures RingFits(head, DropLinks(k, m, t), l, g.loc[m], g.ring[g.loc[m]])
  {
    assert NodeOk(k, g, m);
    hide SizedChunk, NodesOk, Distinct;
  }

  /** unlink_large_chunk of a lone tree node: a leaf below moves up with its ring. */
  lemma LeafReplacesOk(head: map<int, Head>, k: Links, fd: Word, bk: Word, g: Trie, l: Loc, m: Loc,
                       k1: Links, g1: Trie, t: nat)
    requires TrieOk(head, k, fd, bk, g) && IsLeaf(g, m) && l in g.loc && Below(m, l)
    requires k1 == DropLinks(k, m, ParentOf(g, m)) && g1 == DropLeaf(g, m) && t == g.loc[m]
    ensures ShapeOk(g1) && l in g1.loc && t in g.ring
    ensures TrieOk(head, SwapLinks(k1, l, Node(g, l), Node(g, m), ParentOf(g, l)), fd, bk,
                   SwapNode(g1, l, t, g.ring[t]))
  {
    hide ShapeOk, PlaceOk, SizesOk, NodesOk, TailsOk, IndexOk, RingOk, OnPath, LargeSize, Node, ParentOf,
      RingFits, SwapLinks, DropLinks, IsLeaf, Below;
    DropLeafOk(head, k, fd, bk, g, m);
    LeafApart(head, g, l, m);
    LeafPlace(g, l, m);
    LeafFits(head, k, g, l, m, ParentOf(g, m));
    SwapNodeOk(head, k1, fd, bk, g1, l, t, g.ring[t]);
  }

  // ------------------------------------------------------------ bin roots

  lemma RootsAdd(treebins: seq<int>, treemap: set<nat>, g: Trie, l: Loc, s: nat, x: int)
    requires ShapeOk(g) && RootsOk(treebins, treemap, g) && l !in g.loc && s !in g.home && l.bin < NTREEBINS
    requires l.path != [] ==> Up(l) in g.loc
    requires ShapeOk(AddLeaf(g, l, s, x))
    ensures l.path == [] ==> RootsOk(treebins[l.bin := x], treemap + {l.bin}, AddLeaf(g, l, s, x))
    ensures l.path != [] ==> RootsOk(treebins, treemap, AddLeaf(g, l, s, x))
  {
    hide ShapeOk, Node;
    AddLeafShape(g, l, s, x);
  }

  lemma RootsDrop(treebins: seq<int>, treemap: set<nat>, g: Trie, l: Loc)
    requires ShapeOk(g) && RootsOk(treebins, treemap, g) && IsLeaf(g, l) && l.bin < NTREEBINS
    requires ShapeOk(DropLeaf(g, l))
    ensures l.path == [] ==> RootsOk(treebins[l.bin := 0], treemap - {l.bin}, DropLeaf(g, l))
    ensures l.path != [] ==> RootsOk(treebins, treemap, DropLeaf(g, l))
  {
    hide ShapeOk, Node;
    DropLeafShape(g, l);
  }

  lemma RootsSwap(treebins: seq<int>, treemap: set<nat>, g: Trie, l: Loc, t: nat, r: seq<int>)
    requires ShapeOk(g) && RootsOk(treebins, treemap, g) && l in g.loc && l.bin < NTREEBINS
    requires |r| > 0 && (t == g.loc[l] || t !in g.home)
    requires ShapeOk(SwapNode(g, l, t, r))
    ensures l.path == [] ==> RootsOk(treebins[l.bin := r[0]], treemap, SwapNode(g, l, t, r))
    ensures l.path != [] ==> RootsOk(treebins, treemap, SwapNode(g, l, t, r))
  {
    hide ShapeOk, Node;
    SwapNodeShape(g, l, t, r);
  }

  lemma RootsRegroup(treebins: seq<int>, treemap: set<nat>, g: Trie, s: nat, r: seq<int>)
    requires ShapeOk(g) && RootsOk(treebins, treemap, g) && s in g.ring
    requires |r| > 0 && r[0] == g.ring[s][0]
    ensures ShapeOk(Regroup(g, s, r)) && RootsOk(treebins, treemap, Regroup(g, s, r))
  {
    RegroupShape(g, s, r);
    hide ShapeOk, Node;
  }

  // -------------------------------------------------------------- walking

  /** A child pointer is null exactly when there is nothing below. */
  lemma KidNull(head: map<int, Head>, k: Links, g: Trie, l: Loc, b: bool)
    requires ShapeOk(g) && SizesOk(head, g) && NodesOk(k, g) && l in g.loc
    ensures Rd(Kid(k, b), Node(g, l)) == Node(g, Child(l, b))
    ensures Rd(Kid(k, b), Node(g, l)) != 0 <==> Child(l, b) in g.loc
    ensures Node(g, l) > 0 && Node(g, l) in head && head[Node(g, l)].size == g.loc[l]
  {
    assert NodeOk(k, g, l);
    assert SizedChunk(head, g.ring[g.loc[l]][0], g.loc[l]);
    if Child(l, b) in g.loc {
      assert SizedChunk(head, g.ring[g.loc[Child(l, b)]][0], g.loc[Child(l, b)]);
    }
  }

  /** The place that d steps towards size s lead to. */
  function At(s: nat, d: nat): (l: Loc)
    requires d <= Depth(TreeIndex(s))
    ensures OnPath(s, l) && |l.path| == d
  {
    Loc(TreeIndex(s), PathTo(s, TreeIndex(s), d))
  }

  lemma AtNext(s: nat, d: nat)
    requires d < Depth(TreeIndex(s))
    ensures At(s, d + 1) == Child(At(s, d), StepAt(s, TreeIndex(s), d))
    ensures Up(At(s, d + 1)) == At(s, d)
    ensures SlotIs(At(s, d + 1), false) <==> !StepAt(s, TreeIndex(s), d)
    ensures SlotIs(At(s, d + 1), true) <==> StepAt(s, TreeIndex(s), d)
  {
    hide TreeIndex;
    PathSnoc(s, TreeIndex(s), d);
    ChildUp(At(s, d), StepAt(s, TreeIndex(s), d));
  }

  lemma OnPathAt(s: nat, p: Loc)
    requires OnPath(s, p)
    ensures |p.path| <= Depth(TreeIndex(s)) && p == At(s, |p.path|)
  {
    hide TreeIndex;
  }

  /** A walk towards s has come d steps without meeting s. */
  ghost predicate Walked(g: Trie, s: nat, d: nat) {
    && d <= Depth(TreeIndex(s))
    && At(s, d) in g.loc
    && (forall e :: 0 <= e < d ==> At(s, e) in g.loc && g.loc[At(s, e)] != s)
  }

  /** On the path towards s the walk can always tell left from right. */
  lemma WalkDepth(g: Trie, s: nat, d: nat)
    requires ShapeOk(g) && PlaceOk(g) && LargeSize(s)
    requires Walked(g, s, d) && g.loc[At(s, d)] != s
    ensures d < Depth(TreeIndex(s))
  {
    var i := TreeIndex(s);
    var l := At(s, d);
    var t := g.loc[l];
    assert LargeSize(t) && OnPath(t, l);
    hide TreeIndex, PlaceOk, ShapeOk, Depth, Shr, BitAt;
    BinHasOneRoot(s, t);
    if d == Depth(i) {
      FullPath(s, t, i);
    }
  }

  /** A size is in the trie only on its own path: what is not met is not there. */
  lemma NotMet(g: Trie, s: nat, d: nat)
    requires ShapeOk(g) && PlaceOk(g) && d <= Depth(TreeIndex(s)) && At(s, d) !in g.loc
    requires forall e :: 0 <= e < d ==> At(s, e) in g.loc && g.loc[At(s, e)] != s
    ensures s !in g.home
  {
    hide TreeIndex;
    if s in g.home {
      var p := g.home[s];
      OnPathAt(s, p);
      if |p.path| >= d {
        PathPrefix(s, p.bin, d, |p.path|);
        Ancestors(g, p, d);
      }
    }
  }

  lemma {:induction false} Ancestors(g: Trie, p: Loc, n: nat)
    requires ShapeOk(g) && p in g.loc && n <= |p.path|
    ensures Loc(p.bin, p.path[..n]) in g.loc
    decreases |p.path|
  {
    if n < |p.path| {
      Ancestors(g, Up(p), n);
      assert Up(p).path[..n] == p.path[..n];
    } else {
      assert p.path[..n] == p.path;
    }
  }

  lemma WalkStart(treebins: seq<int>, treemap: set<nat>, g: Trie, s: nat)
    requires ShapeOk(g) && PlaceOk(g) && RootsOk(treebins, treemap, g) && LargeSize(s)
    ensures TreeIndex(s) < NTREEBINS && At(s, 0) == Loc(TreeIndex(s), [])
    ensures TreeIndex(s) in treemap ==> Walked(g, s, 0) && treebins[TreeIndex(s)] == Node(g, At(s, 0))
    ensures TreeIndex(s) !in treemap ==> At(s, 0) !in g.loc && s !in g.home
  {
    RootBlock(s);
    hide TreeIndex, ShapeOk, Node;
    if TreeIndex(s) !in treemap {
      NotMet(g, s, 0);
    }
  }

  /** One step of the descent in insert_large_chunk and tmalloc_large. */
  lemma WalkStep(head: map<int, Head>, k: Links, g: Trie, s: nat, d: nat, step: bool)
    requires ShapeOk(g) && PlaceOk(g) && SizesOk(head, g) && NodesOk(k, g) && LargeSize(s)
    requires Walked(g, s, d) && g.loc[At(s, d)] != s
    requires TreeIndex(s) < NTREEBINS
    requires step == (Shl(s, LeftShiftForTreeIndex(TreeIndex(s)) + d) >= HIGH_BIT)
    ensures d < Depth(TreeIndex(s)) && step == StepAt(s, TreeIndex(s), d)
    ensures Rd(Kid(k, step), Node(g, At(s, d))) == Node(g, At(s, d + 1))
    ensures Node(g, At(s, d + 1)) != 0 ==> Walked(g, s, d + 1)
    ensures Node(g, At(s, d + 1)) == 0 ==> At(s, d + 1) !in g.loc && s !in g.home
  {
    hide TreeIndex, Shl, Node, ShapeOk, PlaceOk, SizesOk, NodesOk, Depth, LeftShiftForTreeIndex, StepAt;
    WalkDepth(g, s, d);
    TopBit(s, TreeIndex(s), d);
    AtNext(s, d);
    KidNull(head, k, g, At(s, d), step);
    if At(s, d + 1) !in g.loc {
      NotMet(g, s, d + 1);
    }
  }

  // ------------------------------------------------------- whole tree bins

  /** All tree bins of a malloc_state: roots, bitmap, links and rings. */
  ghost predicate BinsOk(head: map<int, Head>, k: Links, fd: Word, bk: Word,
                         treebins: seq<int>, treemap: set<nat>, g: Trie) {
    TrieOk(head, k, fd, bk, g) && RootsOk(treebins, treemap, g)
  }

  /** g' holds the chunks of g and x besides. */
  ghost predicate Added(g: Trie, g': Trie, x: int) {
    forall y :: Member(g', y) <==> Member(g, y) || y == x
  }

  /** g' holds the chunks of g except x. */
  ghost predicate Removed(g: Trie, g': Trie, x: int) {
    forall y :: Member(g', y) <==> Member(g, y) && y != x
  }

  /** Only ring links of chunks of g, or of x, were written. */
  ghost predicate RingWrites(fd: Word, bk: Word, fd': Word, bk': Word, g: Trie, x: int) {
    forall z :: z != x && !Member(g, z) ==> Rd(fd', z) == Rd(fd, z) && Rd(bk', z) == Rd(bk, z)
  }

  /** Tree links are written at x and at chunks of the trie only. */
  ghost predicate TreeWrites(k: Links, k': Links, g: Trie, x: int) {
    forall z :: z == x || Member(g, z) || SameLinks(k, k', z)
  }

  predicate SameLinks(k: Links, k': Links, z: int) {
    && Rd(k'.left, z) == Rd(k.left, z) && Rd(k'.right, z) == Rd(k.right, z)
    && Rd(k'.parent, z) == Rd(k.parent, z) && Rd(k'.index, z) == Rd(k.index, z)
  }

  lemma NodeMember(g: Trie, l: Loc)
    requires ShapeOk(g) && l in g.loc
    ensures Member(g, Node(g, l))
  {
    assert g.ring[g.loc[l]][0] in g.ring[g.loc[l]];
  }

  /** Ring neighbours of a chunk are chunks of the trie. */
  lemma NeighboursIn(fd: Word, bk: Word, g: Trie, s: nat, i: nat)
    requires s in g.ring && RingOk(fd, bk, g.ring[s]) && i < |g.ring[s]|
    ensures Member(g, Rd(fd, g.ring[s][i])) && Member(g, Rd(bk, g.ring[s][i])) && Member(g, g.ring[s][i])
  {
    RingBack(fd, bk, g.ring[s], i);
    assert Rd(fd, g.ring[s][i]) in g.ring[s];
    assert Rd(bk, g.ring[s][i]) in g.ring[s];
    assert g.ring[s][i] in g.ring[s];
  }

  /** insert_large_chunk ends with a new leaf at depth d of the path of s. */
  lemma InsertLeaf(head: map<int, Head>, k: Links, fd: Word, bk: Word, treebins: seq<int>, treemap: set<nat>,
                   g: Trie, s: nat, x: int, d: nat)
    requires BinsOk(head, k, fd, bk, treebins, treemap, g)
    requires LargeSize(s) && SizedChunk(head, x, s) && !Member(g, x) && x > 0
    requires d <= Depth(TreeIndex(s)) && TreeIndex(s) < NTREEBINS
    requires At(s, d) !in g.loc && s !in g.home
    requires d > 0 ==> At(s, d).path != [] && Up(At(s, d)) in g.loc
    ensures var l := At(s, d);
            BinsOk(head, LeafLinks(k, l, x, ParentOf(g, l)), fd[x := x], bk[x := x],
                   if d == 0 then treebins[l.bin := x] else treebins,
                   if d == 0 then treemap + {l.bin} else treemap, AddLeaf(g, l, s, x))
    ensures Added(g, AddLeaf(g, At(s, d), s, x), x)
  {
    hide LeafLinks, ParentOf, LargeSize, RootsOk, Depth, TreeIndex, OnPath, ShapeOk, PlaceOk, SizesOk, TreeOk, RingsOk;
    var l := At(s, d);
    RingKeys(g, s);
    AddLeafOk(head, k, fd, bk, g, l, s, x);
    RootsAdd(treebins, treemap, g, l, s, x);
    AddedLeaf(g, l, s, x);
  }

  lemma RingKeys(g: Trie, s: nat)
    requires ShapeOk(g)
    ensures s in g.home <==> s in g.ring
  {
  }

  lemma AddedLeaf(g: Trie, l: Loc, s: nat, x: int)
    requires s !in g.ring
    ensures Added(g, AddLeaf(g, l, s, x), x)
  {
    var g' := AddLeaf(g, l, s, x);
    forall y
      ensures Member(g', y) <==> Member(g, y) || y == x
    {
      assert y == x ==> y in g'.ring[s];
      if Member(g, y) {
        var q :| q in g.ring && y in g.ring[q];
        assert y in g'.ring[q];
      }
    }
  }

  /** insert_large_chunk ends behind the tree node of the same size. */
  lemma InsertBehind(head: map<int, Head>, k: Links, fd: Word, bk: Word, treebins: seq<int>, treemap: set<nat>,
                     g: Trie, s: nat, x: int, l: Loc, f: int)
    requires BinsOk(head, k, fd, bk, treebins, treemap, g)
    requires SizedChunk(head, x, s) && !Member(g, x) && x > 0
    requires l in g.loc && g.loc[l] == s && f == Rd(fd, Node(g, l))
    ensures s in g.ring && |g.ring[s]| > 0 && Node(g, l) == g.ring[s][0]
    ensures var n := Node(g, l);
            BinsOk(head, JoinLinks(k, x, l.bin), fd[n := x][x := f], bk[f := x][x := n],
                   treebins, treemap, Regroup(g, s, [n, x] + g.ring[s][1..]))
    ensures Added(g, Regroup(g, s, [Node(g, l), x] + g.ring[s][1..]), x)
  {
    assert s in g.ring && |g.ring[s]| > 0 && Node(g, l) == g.ring[s][0] && g.home[s] == l;
    hide TrieOk, RootsOk, Node;
    var r := [g.ring[s][0], x] + g.ring[s][1..];
    JoinOk(head, k, fd, bk, g, s, x, f);
    RootsRegroup(treebins, treemap, g, s, r);
    AddedBehind(g, s, x, r);
  }

  lemma AddedBehind(g: Trie, s: nat, x: int, r: seq<int>)
    requires s in g.ring && |g.ring[s]| > 0 && r == [g.ring[s][0], x] + g.ring[s][1..]
    ensures Added(g, Regroup(g, s, r), x)
  {
    assert forall y :: y in r <==> y in g.ring[s] || y == x by {
      assert g.ring[s] == [g.ring[s][0]] + g.ring[s][1..];
    }
    var g' := Regroup(g, s, r);
    forall y
      ensures Member(g', y) <==> Member(g, y) || y == x
    {
      if Member(g, y) {
        var q :| q in g.ring && y in g.ring[q];
        assert y in g'.ring[q];
      }
      if Member(g', y) {
        var q :| q in g'.ring && y in g'.ring[q];
        assert y in g.ring[q] || y == x;
      }
      assert x in g'.ring[s];
    }
  }

  lemma WalkStartOk(head: map<int, Head>, k: Links, fd: Word, bk: Word, treebins: seq<int>, treemap: set<nat>,
                    g: Trie, s: nat)
    requires BinsOk(head, k, fd, bk, treebins, treemap, g) && LargeSize(s)
    ensures TreeIndex(s) < NTREEBINS == |treebins| && ShapeOk(g)
    ensures At(s, 0) == Loc(TreeIndex(s), [])
    ensures TreeIndex(s) in treemap ==> Walked(g, s, 0) && treebins[TreeIndex(s)] == Node(g, At(s, 0))
    ensures TreeIndex(s) !in treemap ==> At(s, 0) !in g.loc && s !in g.home
  {
    hide ShapeOk, PlaceOk, SizesOk, TreeOk, RingsOk, LargeSize, Node;
    WalkStart(treebins, treemap, g, s);
  }

  lemma WalkHere(head: map<int, Head>, k: Links, fd: Word, bk: Word, treebins: seq<int>, treemap: set<nat>,
                 g: Trie, s: nat, d: nat, x: int)
    requires BinsOk(head, k, fd, bk, treebins, treemap, g) && Walked(g, s, d) && !Member(g, x)
    ensures At(s, d) in g.loc
    ensures var t := Node(g, At(s, d));
            && t > 0 && t != x && t in head
            && head[t].size == g.loc[At(s, d)] && At(s, d).bin == TreeIndex(s)
  {
    KidNull(head, k, g, At(s, d), false);
    var q := g.loc[At(s, d)];
    assert g.ring[q][0] in g.ring[q];
    hide TrieOk;
  }

  lemma WalkStepOk(head: map<int, Head>, k: Links, fd: Word, bk: Word, treebins: seq<int>, treemap: set<nat>,
                   g: Trie, s: nat, d: nat, step: bool)
    requires BinsOk(head, k, fd, bk, treebins, treemap, g) && LargeSize(s)
    requires Walked(g, s, d) && g.loc[At(s, d)] != s && TreeIndex(s) < NTREEBINS
    requires step == (Shl(s, LeftShiftForTreeIndex(TreeIndex(s)) + d) >= HIGH_BIT)
    ensures d < Depth(TreeIndex(s))
    ensures Rd(Kid(k, step), Node(g, At(s, d))) == Node(g, At(s, d + 1))
    ensures Node(g, At(s, d + 1)) != 0 ==> Walked(g, s, d + 1)
    ensures Node(g, At(s, d + 1)) == 0 ==> At(s, d + 1) !in g.loc && s !in g.home
    ensures At(s, d + 1).path != [] && Up(At(s, d + 1)) == At(s, d) && At(s, d) in g.loc
    ensures SlotIs(At(s, d + 1), false) <==> !step
    ensures SlotIs(At(s, d + 1), true) <==> step
    ensures ParentOf(g, At(s, d + 1)) == Node(g, At(s, d))
  {
    hide TreeIndex, Shl, Node, ShapeOk, PlaceOk, SizesOk, NodesOk, Depth, LeftShiftForTreeIndex, StepAt, RingsOk,
      TailsOk, IndexOk, RootsOk, SlotIs;
    WalkStep(head, k, g, s, d, step);
    AtNext(s, d);
  }

  // ------------------------------------------------------------- unlinking

  /** Where a member of the tree bins sits: its size, its ring position, its place. */
  lemma FindMember(head: map<int, Head>, k: Links, fd: Word, bk: Word, g: Trie, x: int)
    returns (s: nat, j: nat, l: Loc)
    requires TrieOk(head, k, fd, bk, g) && Member(g, x)
    ensures x > 0 && x in head && s == head[x].size && s in g.ring && j < |g.ring[s]| && g.ring[s][j] == x
    ensures s in g.home && l == g.home[s] && l in g.loc && g.loc[l] == s && l.bin < NTREEBINS
    ensures Node(g, l) == g.ring[s][0] && RingOk(fd, bk, g.ring[s]) && LargeSize(s)
    ensures Rd(k.index, x) == l.bin
    ensures Rd(k.parent, x) == if j == 0 then ParentOf(g, l) else 0
    ensures Rd(k.parent, x) == 0 <==> j > 0
  {
    s :| s in g.ring && x in g.ring[s];
    j :| 0 <= j < |g.ring[s]| && g.ring[s][j] == x;
    l := g.home[s];
    assert SizedChunk(head, x, s);
    assert LargeSize(s) && OnPath(s, l);
    RootBlock(s);
    hide TreeIndex, LargeSize, RingOk;
    if j == 0 {
      assert NodeOk(k, g, l);
      if l.path != [] {
        NodesDiffer(head, g, Up(l), Up(l));
      }
    }
  }

  /** How a tree node recognises itself in its parent. */
  lemma SelfSlot(head: map<int, Head>, k: Links, treebins: seq<int>, treemap: set<nat>, g: Trie, l: Loc)
    requires ShapeOk(g) && SizesOk(head, g) && NodesOk(k, g) && RootsOk(treebins, treemap, g)
    requires l in g.loc && l.bin < NTREEBINS
    ensures |treebins| == NTREEBINS && (Node(g, l) == treebins[l.bin] <==> l.path == [])
    ensures l.path != [] ==> (Rd(k.left, ParentOf(g, l)) == Node(g, l) <==> !LastStep(l))
    ensures ParentOf(g, l) != Node(g, l) && ParentOf(g, l) != 0
  {
    var root := Loc(l.bin, []);
    Ancestors(g, l, 0);
    NodesDiffer(head, g, l, root);
    if l.path != [] {
      KidNull(head, k, g, Up(l), false);
      UpChild(l, Up(l), false);
      NodesDiffer(head, g, l, Up(l));
      if Child(Up(l), false) in g.loc {
        NodesDiffer(head, g, l, Child(Up(l), false));
      }
    }
    hide SizesOk, NodesOk;
  }

  lemma ChildBelow(l: Loc, m: Loc, b: bool)
    ensures Below(Child(l, b), l)
    ensures Below(m, l) ==> Below(Child(m, b), l)
  {
  }

  lemma PathBound(g: Trie, m: Loc)
    requires ShapeOk(g) && PlaceOk(g) && m in g.loc
    ensures |m.path| <= Depth(m.bin)
  {
    assert OnPath(g.loc[m], m);
  }

  lemma RemovedTail(g: Trie, s: nat, i: nat)
    requires ShapeOk(g) && s in g.ring && i < |g.ring[s]| && Distinct(g.ring[s])
    requires forall q <- g.ring :: q != s ==> g.ring[s][i] !in g.ring[q]
    ensures Removed(g, Regroup(g, s, g.ring[s][..i] + g.ring[s][i + 1..]), g.ring[s][i])
  {
    var x := g.ring[s][i];
    var r := g.ring[s][..i] + g.ring[s][i + 1..];
    RemovedElements(g.ring[s], i);
    RemovedRing(g, Regroup(g, s, r), s, s, r, x);
  }

  lemma RemovedElements(r: seq<int>, i: nat)
    requires i < |r| && Distinct(r)
    ensures forall y :: y in r[..i] + r[i + 1..] <==> y in r && y != r[i]
  {
    assert r == r[..i] + [r[i]] + r[i + 1..];
    forall y | y in r && y != r[i]
      ensures y in r[..i] + r[i + 1..]
    {
    }
    assert r[i] !in r[..i] && r[i] !in r[i + 1..];
  }

  /** Only ring s changed (to r, at size t), losing x. */
  lemma RemovedRing(g: Trie, g': Trie, s: nat, t: nat, r: seq<int>, x: int)
    requires s in g.ring && x in g.ring[s] && t in g'.ring && g'.ring[t] == r
    requires forall q <- g.ring :: q != s ==> x !in g.ring[q]
    requires forall q :: q != s && q != t ==> (q in g.ring <==> q in g'.ring) && (q in g.ring ==> g'.ring[q] == g.ring[q])
    requires s == t ==> forall y :: y in r <==> y in g.ring[s] && y != x
    requires s != t ==> s !in g'.ring && g.ring[s] == [x] && t in g.ring && g.ring[t] == r
    ensures Removed(g, g', x)
  {
    forall y
      ensures Member(g', y) <==> Member(g, y) && y != x
    {
      if Member(g', y) {
        var q :| q in g'.ring && y in g'.ring[q];
        assert y in g.ring[q];
      }
      if Member(g, y) && y != x {
        var q :| q in g.ring && y in g.ring[q];
        assert y in g'.ring[q];
      }
    }
  }

  lemma OnlyHere(head: map<int, Head>, g: Trie, s: nat, i: nat, q: nat)
    requires SizesOk(head, g) && s in g.ring && i < |g.ring[s]| && q in g.ring && q != s
    ensures g.ring[s][i] !in g.ring[q]
  {
    if g.ring[s][i] in g.ring[q] {
      var j :| 0 <= j < |g.ring[q]| && g.ring[q][j] == g.ring[s][i];
      RingsDiffer(head, g, s, i, q, j);
    }
  }

  /** unlink_large_chunk of a chunk behind its tree node. */
  lemma UnlinkTail(head: map<int, Head>, k: Links, fd: Word, bk: Word, treebins: seq<int>, treemap: set<nat>,
                   g: Trie, s: nat, i: nat, f: int, b: int)
    requires BinsOk(head, k, fd, bk, treebins, treemap, g) && s in g.ring && 1 <= i < |g.ring[s]|
    requires f == Rd(fd, g.ring[s][i]) && b == Rd(bk, g.ring[s][i])
    ensures var g' := Regroup(g, s, g.ring[s][..i] + g.ring[s][i + 1..]);
            BinsOk(head, k, fd[b := f], bk[f := b], treebins, treemap, g') && Removed(g, g', g.ring[s][i])
  {
    var r := g.ring[s][..i] + g.ring[s][i + 1..];
    assert Distinct(g.ring[s]);
    hide ShapeOk, PlaceOk, SizesOk, TreeOk, RingsOk, RootsOk, Distinct, Removed;
    LeaveOk(head, k, fd, bk, g, s, i, f, b);
    RootsRegroup(treebins, treemap, g, s, r);
    forall q <- g.ring | q != s
      ensures g.ring[s][i] !in g.ring[q]
    {
      OnlyHere(head, g, s, i, q);
    }
    RemovedTail(g, s, i);
  }

  /** unlink_large_chunk of a tree node whose ring has other members. */
  lemma UnlinkHead(head: map<int, Head>, k: Links, fd: Word, bk: Word, treebins: seq<int>, treemap: set<nat>,
                   g: Trie, s: nat, l: Loc, f: int, b: int)
    requires BinsOk(head, k, fd, bk, treebins, treemap, g) && s in g.ring && |g.ring[s]| >= 2
    requires s in g.home && l == g.home[s] && l in g.loc && g.loc[l] == s && l.bin < NTREEBINS
    requires f == Rd(fd, g.ring[s][0]) && b == Rd(bk, g.ring[s][0])
    ensures var g' := SwapNode(g, l, s, Succession(g.ring[s]));
            && BinsOk(head, SwapLinks(k, l, g.ring[s][0], b, ParentOf(g, l)), fd[b := f], bk[f := b],
                      if l.path == [] then treebins[l.bin := b] else treebins, treemap, g')
            && Removed(g, g', g.ring[s][0])
    ensures b > 0 && b == g.ring[s][|g.ring[s]| - 1]
  {
    hide ShapeOk, PlaceOk, SizesOk, TreeOk, RingsOk, RootsOk, Distinct, Removed, SwapLinks, ParentOf, Node;
    var r := Succession(g.ring[s]);
    HeadLeavesOk(head, k, fd, bk, g, s, f, b);
    RootsSwap(treebins, treemap, g, l, s, r);
    forall q <- g.ring | q != s
      ensures g.ring[s][0] !in g.ring[q]
    {
      OnlyHere(head, g, s, 0, q);
    }
    RingsDiffer(head, g, s, |g.ring[s]| - 1, s, 0);
    SuccessionElements(head, g, s);
    RemovedRing(g, SwapNode(g, l, s, r), s, s, r, g.ring[s][0]);
  }

  lemma SuccessionElements(head: map<int, Head>, g: Trie, s: nat)
    requires SizesOk(head, g) && s in g.ring && |g.ring[s]| >= 2
    ensures forall y :: y in Succession(g.ring[s]) <==> y in g.ring[s] && y != g.ring[s][0]
  {
    var r := g.ring[s];
    assert Distinct(r);
    assert r == [r[0]] + r[1..|r| - 1] + [r[|r| - 1]];
    assert r[0] !in r[1..];
    assert r[1..] == r[1..|r| - 1] + [r[|r| - 1]];
  }

  /** unlink_large_chunk of a lone leaf. */
  lemma UnlinkLeaf(head: map<int, Head>, k: Links, fd: Word, bk: Word, treebins: seq<int>, treemap: set<nat>,
                   g: Trie, s: nat, l: Loc)
    requires BinsOk(head, k, fd, bk, treebins, treemap, g) && s in g.ring && |g.ring[s]| == 1
    requires l in g.loc && g.loc[l] == s && l.bin < NTREEBINS && IsLeaf(g, l)
    ensures var g' := DropLeaf(g, l);
            && BinsOk(head, DropLinks(k, l, ParentOf(g, l)), fd, bk,
                      if l.path == [] then treebins[l.bin := 0] else treebins,
                      if l.path == [] then treemap - {l.bin} else treemap, g')
            && Removed(g, g', g.ring[s][0])
  {
    hide ShapeOk, PlaceOk, SizesOk, TreeOk, RingsOk, RootsOk, Removed, DropLinks, ParentOf, IsLeaf;
    DropLeafOk(head, k, fd, bk, g, l);
    RootsDrop(treebins, treemap, g, l);
    forall q <- g.ring | q != s
      ensures g.ring[s][0] !in g.ring[q]
    {
      OnlyHere(head, g, s, 0, q);
    }
    RemovedLeaf(g, l, s);
  }

  lemma RemovedLeaf(g: Trie, l: Loc, s: nat)
    requires l in g.loc && g.loc[l] == s && s in g.ring && |g.ring[s]| == 1
    requires forall q <- g.ring :: q != s ==> g.ring[s][0] !in g.ring[q]
    ensures Removed(g, DropLeaf(g, l), g.ring[s][0])
  {
    var g' := DropLeaf(g, l);
    forall y
      ensures Member(g', y) <==> Member(g, y) && y != g.ring[s][0]
    {
      if Member(g, y) && y != g.ring[s][0] {
        var q :| q in g.ring && y in g.ring[q];
        assert y in g'.ring[q];
      }
      if Member(g', y) {
        var q :| q in g'.ring && y in g'.ring[q];
        assert y in g.ring[q];
      }
    }
  }

  /** unlink_large_chunk of a lone inner node: the leaf m below it moves up. */
  lemma UnlinkInner(head: map<int, Head>, k: Links, fd: Word, bk: Word, treebins: seq<int>, treemap: set<nat>,
                    g: Trie, s: nat, l: Loc, m: Loc)
    requires BinsOk(head, k, fd, bk, treebins, treemap, g) && s in g.ring && |g.ring[s]| == 1
    requires l in g.loc && g.loc[l] == s && l.bin < NTREEBINS && IsLeaf(g, m) && Below(m, l)
    ensures var k1 := DropLinks(k, m, ParentOf(g, m));
            && ShapeOk(DropLeaf(g, m)) && l in DropLeaf(g, m).loc && g.loc[m] in g.ring
            && (var g' := SwapNode(DropLeaf(g, m), l, g.loc[m], g.ring[g.loc[m]]);
               && BinsOk(head, SwapLinks(k1, l, Node(g, l), Node(g, m), ParentOf(g, l)), fd, bk,
                         if l.path == [] then treebins[l.bin := Node(g, m)] else treebins, treemap, g')
               && Removed(g, g', g.ring[s][0]))
  {
    hide ShapeOk, PlaceOk, SizesOk, TreeOk, RingsOk, RootsOk, Removed, DropLinks, SwapLinks, ParentOf, Node, Below;
    InnerRing(g, l, m);
    var t := g.loc[m];
    var g1 := DropLeaf(g, m);
    LeafReplacesOk(head, k, fd, bk, g, l, m, DropLinks(k, m, ParentOf(g, m)), g1, t);
    LeafApart(head, g, l, m);
    InnerRoots(head, treebins, treemap, g, l, m, t, g1);
    forall q <- g.ring | q != s
      ensures g.ring[s][0] !in g.ring[q]
    {
      OnlyHere(head, g, s, 0, q);
    }
    assert g.ring[s] == [g.ring[s][0]];
    RemovedRing(g, SwapNode(g1, l, t, g.ring[t]), s, t, g.ring[t], g.ring[s][0]);
  }

  lemma InnerRing(g: Trie, l: Loc, m: Loc)
    requires ShapeOk(g) && l in g.loc && IsLeaf(g, m) && Below(m, l)
    ensures g.loc[m] in g.ring && g.loc[l] in g.ring && g.loc[m] != g.loc[l] && m != l
    ensures |g.ring[g.loc[m]]| > 0
  {
  }

  lemma InnerRoots(head: map<int, Head>, treebins: seq<int>, treemap: set<nat>, g: Trie, l: Loc, m: Loc, t: nat, g1: Trie)
    requires ShapeOk(g) && SizesOk(head, g) && RootsOk(treebins, treemap, g) && l in g.loc && l.bin < NTREEBINS
    requires IsLeaf(g, m) && Below(m, l) && t == g.loc[m] && g1 == DropLeaf(g, m)
    requires ShapeOk(g1) && l in g1.loc && t in g.ring && t !in g1.home && |g.ring[t]| > 0
    requires Node(g, m) == g.ring[t][0]
    requires ShapeOk(SwapNode(g1, l, t, g.ring[t]))
    ensures RootsOk(if l.path == [] then treebins[l.bin := Node(g, m)] else treebins, treemap,
                    SwapNode(g1, l, t, g.ring[t]))
  {
    hide SizesOk, RootsOk, ShapeOk, Node;
    assert m.path != [] && m.bin == l.bin;
    RootsDrop(treebins, treemap, g, m);
    RootsSwap(treebins, treemap, g1, l, t, g.ring[t]);
  }

  /** The child pointers of a tree node tell which children exist. */
  lemma Kids(head: map<int, Head>, k: Links, fd: Word, bk: Word, g: Trie, l: Loc)
    requires TrieOk(head, k, fd, bk, g) && l in g.loc
    ensures Rd(k.left, Node(g, l)) == Node(g, Child(l, false))
    ensures Rd(k.right, Node(g, l)) == Node(g, Child(l, true))
    ensures Node(g, Child(l, false)) != 0 <==> Child(l, false) in g.loc
    ensures Node(g, Child(l, true)) != 0 <==> Child(l, true) in g.loc
    ensures Node(g, l) > 0 && Node(g, Child(l, false)) >= 0 && Node(g, Child(l, true)) >= 0
    ensures Child(l, true).bin == Child(l, false).bin == l.bin
    ensures |l.path| <= Depth(l.bin)
  {
    hide ShapeOk, PlaceOk, SizesOk, NodesOk, TailsOk, IndexOk, RingsOk, Node, Depth;
    KidNull(head, k, g, l, false);
    KidNull(head, k, g, l, true);
    PathBound(g, l);
    if Child(l, false) in g.loc {
      KidNull(head, k, g, Child(l, false), false);
    }
    if Child(l, true) in g.loc {
      KidNull(head, k, g, Child(l, true), false);
    }
  }

  lemma StepBelow(g: Trie, l: Loc, m: Loc, b: bool)
    requires ShapeOk(g) && m in g.loc && (m == l || Below(m, l))
    ensures Below(Child(m, b), l) && SlotIs(Child(m, b), b) && !SlotIs(Child(m, b), !b)
    ensures ParentOf(g, Child(m, b)) == Node(g, m)
    ensures Child(m, b).bin == m.bin && |Child(m, b).path| == |m.path| + 1
  {
    hide ShapeOk, Node;
    ChildUp(m, b);
    ChildBelow(m, l, b);
    ChildBelow(l, m, b);
  }

  lemma SelfSlotOk(head: map<int, Head>, k: Links, fd: Word, bk: Word, treebins: seq<int>, treemap: set<nat>,
                   g: Trie, l: Loc)
    requires BinsOk(head, k, fd, bk, treebins, treemap, g) && l in g.loc && l.bin < NTREEBINS
    ensures ShapeOk(g) && |treebins| == NTREEBINS && (Node(g, l) == treebins[l.bin] <==> l.path == [])
    ensures l.path != [] ==> (Rd(k.left, ParentOf(g, l)) == Node(g, l) <==> !LastStep(l))
    ensures ParentOf(g, l) != Node(g, l) && ParentOf(g, l) != 0
  {
    hide ShapeOk, PlaceOk, SizesOk, NodesOk, TailsOk, IndexOk, RingsOk, RootsOk, Node;
    SelfSlot(head, k, treebins, treemap, g, l);
  }

  lemma HeadDiffers(head: map<int, Head>, k: Links, fd: Word, bk: Word, g: Trie, s: nat, l: Loc)
    requires TrieOk(head, k, fd, bk, g) && s in g.ring && |g.ring[s]| >= 2
    requires l in g.loc && g.loc[l] == s
    ensures var b := g.ring[s][|g.ring[s]| - 1];
            b != 0 && b != Node(g, l) && b != ParentOf(g, l) && Node(g, l) == g.ring[s][0]
  {
    hide PlaceOk, TreeOk, RingsOk;
    RingsDiffer(head, g, s, |g.ring[s]| - 1, s, 0);
    if l.path != [] {
      RingsDiffer(head, g, s, |g.ring[s]| - 1, g.loc[Up(l)], 0);
    }
    hide SizesOk;
  }

  lemma InnerPlaces(l: Loc, m: Loc)
    requires Below(m, l)
    ensures m != l && m.path != [] && (l.path != [] ==> m != Up(l) && Up(m) != Up(l))
  {
    assert Up(m).path[..|l.path|] == l.path;
  }

  /** Cutting the leaf m leaves what l needs to find itself in its parent. */
  lemma InnerDiffers(head: map<int, Head>, k: Links, fd: Word, bk: Word, g: Trie, l: Loc, m: Loc)
    requires TrieOk(head, k, fd, bk, g) && l in g.loc && IsLeaf(g, m) && Below(m, l)
    ensures var k1 := DropLinks(k, m, ParentOf(g, m));
            && k1.index == k.index
            && (l.path != [] ==> Rd(k1.left, ParentOf(g, l)) == Rd(k.left, ParentOf(g, l)))
    ensures Node(g, m) != Node(g, l) && Node(g, m) != ParentOf(g, l)
  {
    hide PlaceOk, TreeOk, RingsOk, SizesOk, Node, Below;
    InnerPlaces(l, m);
    assert Up(m) in g.loc && (l.path != [] ==> Up(l) in g.loc);
    hide ShapeOk;
    NodesDiffer(head, g, m, l);
    if l.path != [] {
      NodesDiffer(head, g, m, Up(l));
      NodesDiffer(head, g, Up(m), Up(l));
    }
  }

  lemma NodeNeighbours(head: map<int, Head>, k: Links, fd: Word, bk: Word, g: Trie, l: Loc)
    requires TrieOk(head, k, fd, bk, g) && l in g.loc
    ensures Member(g, Rd(fd, Node(g, l))) && Member(g, Node(g, l))
  {
    assert RingOk(fd, bk, g.ring[g.loc[l]]);
    NeighboursIn(fd, bk, g, g.loc[l], 0);
    hide PlaceOk, SizesOk, TreeOk, RingsOk;
  }

  /** The tree bins do not depend on links and heads of other chunks. */
  lemma BinsFrame(head: map<int, Head>, k: Links, fd: Word, bk: Word, treebins: seq<int>, treemap: set<nat>, g: Trie,
                  head': map<int, Head>, fd': Word, bk': Word)
    requires BinsOk(head, k, fd, bk, treebins, treemap, g)
    requires forall z :: Member(g, z) ==> z in head' && z in head && head'[z].size == head[z].size
    requires forall z :: Member(g, z) ==> Rd(fd', z) == Rd(fd, z) && Rd(bk', z) == Rd(bk, z)
    ensures BinsOk(head', k, fd', bk', treebins, treemap, g)
  {
    hide ShapeOk, PlaceOk, TreeOk, RootsOk;
    FrameSizes(head, g, head');
    FrameRings(fd, bk, g, fd', bk');
  }

  lemma FrameSizes(head: map<int, Head>, g: Trie, head': map<int, Head>)
    requires SizesOk(head, g)
    requires forall z :: Member(g, z) ==> z in head' && z in head && head'[z].size == head[z].size
    ensures SizesOk(head', g)
  {
    forall s <- g.ring, j | 0 <= j < |g.ring[s]|
      ensures SizedChunk(head', g.ring[s][j], s)
    {
      assert g.ring[s][j] in g.ring[s];
      assert Member(g, g.ring[s][j]);
      assert SizedChunk(head, g.ring[s][j], s);
    }
  }

  lemma FrameRings(fd: Word, bk: Word, g: Trie, fd': Word, bk': Word)
    requires RingsOk(fd, bk, g)
    requires forall z :: Member(g, z) ==> Rd(fd', z) == Rd(fd, z) && Rd(bk', z) == Rd(bk, z)
    ensures RingsOk(fd', bk', g)
  {
    forall s <- g.ring
      ensures RingOk(fd', bk', g.ring[s])
    {
      forall z | z in g.ring[s]
        ensures Rd(fd', z) == Rd(fd, z) && Rd(bk', z) == Rd(bk, z)
      {
        assert Member(g, z);
      }
      RingFrame(fd, bk, fd', bk', g.ring[s]);
    }
  }

  lemma RingWritesJoin(fd: Word, bk: Word, g: Trie, x: int, t: int, f: int)
    requires Member(g, t) && Member(g, f)
    ensures RingWrites(fd, bk, fd[t := x][x := f], bk[f := x][x := t], g, x)
  {
  }

  lemma RingWritesAlone(fd: Word, bk: Word, g: Trie, x: int)
    ensures RingWrites(fd, bk, fd[x := x], bk[x := x], g, x)
  {
  }

  // ---------------------------------------------------------- where links are written

  lemma WritesTrans(k: Links, k1: Links, k2: Links, g: Trie, x: int)
    requires TreeWrites(k, k1, g, x) && TreeWrites(k1, k2, g, x)
    ensures TreeWrites(k, k2, g, x)
  {
    hide Member;
    forall z ensures z == x || Member(g, z) || SameLinks(k, k2, z) {
      assert z == x || Member(g, z) || SameLinks(k, k1, z);
      assert z == x || Member(g, z) || SameLinks(k1, k2, z);
    }
  }

  lemma LeafWrites(k: Links, g: Trie, l: Loc, x: int)
    requires ShapeOk(g) && (l.path != [] ==> Up(l) in g.loc)
    ensures TreeWrites(k, LeafLinks(k, l, x, ParentOf(g, l)), g, x)
  {
    hide Member;
    if l.path != [] {
      NodeMember(g, Up(l));
    }
    hide ShapeOk;
  }

  /** The leaf is the root of its bin, or goes below a node. */
  lemma LeafWritesAt(head: map<int, Head>, k: Links, fd: Word, bk: Word, g: Trie, s: nat, x: int, d: nat)
    requires TrieOk(head, k, fd, bk, g) && d <= Depth(TreeIndex(s))
    requires d > 0 ==> At(s, d).path != [] && Up(At(s, d)) in g.loc
    ensures TreeWrites(k, LeafLinks(k, At(s, d), x, ParentOf(g, At(s, d))), g, x)
  {
    hide TreeWrites, LeafLinks, ParentOf, ShapeOk, TreeIndex;
    TrieShape(head, k, fd, bk, g);
    hide TrieOk;
    LeafWrites(k, g, At(s, d), x);
  }

  lemma JoinWrites(k: Links, g: Trie, x: int, i: nat)
    ensures TreeWrites(k, JoinLinks(k, x, i), g, x)
  {
    hide Member;
  }

  lemma NoWrites(k: Links, g: Trie, x: int)
    ensures TreeWrites(k, k, g, x)
  {
  }

  lemma DropWrites(k: Links, g: Trie, l: Loc, x: int)
    requires ShapeOk(g) && l in g.loc
    ensures TreeWrites(k, DropLinks(k, l, ParentOf(g, l)), g, x)
  {
    hide Member;
    if l.path != [] {
      NodeMember(g, Up(l));
    }
    hide ShapeOk;
  }

  /** Null, or a chunk of the trie. */
  ghost predicate NullOrMember(g: Trie, c: int) { c == 0 || Member(g, c) }

  lemma SwapWrites(k: Links, g: Trie, l: Loc, x: int, y: int, up: int)
    requires Member(g, y) && (l.path != [] ==> Member(g, up))
    requires NullOrMember(g, Rd(k.left, x)) && NullOrMember(g, Rd(k.right, x))
    ensures TreeWrites(k, SwapLinks(k, l, x, y, up), g, x)
  {
    hide Member;
  }

  lemma KidMembers(head: map<int, Head>, k: Links, fd: Word, bk: Word, g: Trie, l: Loc)
    requires TrieOk(head, k, fd, bk, g) && l in g.loc
    ensures NullOrMember(g, Rd(k.left, Node(g, l))) && NullOrMember(g, Rd(k.right, Node(g, l)))
  {
    hide TrieOk, Node, Member;
    Kids(head, k, fd, bk, g, l);
    TrieShape(head, k, fd, bk, g);
    if Child(l, false) in g.loc {
      NodeMember(g, Child(l, false));
    }
    if Child(l, true) in g.loc {
      NodeMember(g, Child(l, true));
    }
  }

  lemma TrieShape(head: map<int, Head>, k: Links, fd: Word, bk: Word, g: Trie)
    requires TrieOk(head, k, fd, bk, g)
    ensures ShapeOk(g)
  {
  }

  /** A tree node makes way for y. */
  lemma HeadWrites(head: map<int, Head>, k: Links, fd: Word, bk: Word, g: Trie, l: Loc, y: int)
    requires TrieOk(head, k, fd, bk, g) && l in g.loc && Member(g, y)
    ensures TreeWrites(k, SwapLinks(k, l, Node(g, l), y, ParentOf(g, l)), g, Node(g, l))
  {
    hide Member, SwapLinks, TreeWrites, PlaceOk, SizesOk, NodesOk, TailsOk, IndexOk, RingsOk;
    KidMembers(head, k, fd, bk, g, l);
    if l.path != [] {
      NodeMember(g, Up(l));
    }
    SwapWrites(k, g, l, Node(g, l), y, ParentOf(g, l));
  }

  /** A lone tree node makes way for the leaf m below it. */
  lemma InnerWrites(head: map<int, Head>, k: Links, fd: Word, bk: Word, g: Trie, l: Loc, m: Loc)
    requires TrieOk(head, k, fd, bk, g) && l in g.loc && m in g.loc
    ensures TreeWrites(k, SwapLinks(DropLinks(k, m, ParentOf(g, m)), l, Node(g, l), Node(g, m), ParentOf(g, l)), g, Node(g, l))
  {
    hide Member, SwapLinks, TreeWrites, PlaceOk, SizesOk, NodesOk, TailsOk, IndexOk, RingsOk;
    var k1 := DropLinks(k, m, ParentOf(g, m));
    KidMembers(head, k, fd, bk, g, l);
    NodeMember(g, m);
    if l.path != [] {
      NodeMember(g, Up(l));
    }
    DropWrites(k, g, m, Node(g, l));
    SwapWrites(k1, g, l, Node(g, l), Node(g, m), ParentOf(g, l));
    WritesTrans(k, k1, SwapLinks(k1, l, Node(g, l), Node(g, m), ParentOf(g, l)), g, Node(g, l));
  }
}
