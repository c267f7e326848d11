// Chunk fields in memory, and circular doubly-linked lists threaded through
// them: small bins (with the bin itself as list head) and the rings of
// same-size chunks in the tree bins (luajit/src/lj_alloc.c).

module AllocRing {

  /** A head word: the chunk size with its two flag bits. */
  datatype Head = Head(size: nat, pinuse: bool, cinuse: bool)

  type Heads = map<int, Head>

  type Word = map<int, int>

  /** Reads one word; memory that was never written reads as zero. */
  function Rd(w: Word, a: int): int { if a in w then w[a] else 0 }

  predicate Distinct(r: seq<int>) {
    forall j, k :: 0 <= j < k < |r| ==> r[j] != r[k]
  }

  function After(r: seq<int>, k: nat): nat
    requires k < |r|
  {
    if k + 1 == |r| then 0 else k + 1
  }

  /** The elements of r, in this order, form one circular list. */
  ghost predicate RingOk(fd: Word, bk: Word, r: seq<int>) {
    && |r| > 0
    && Distinct(r)
    && (forall k :: 0 <= k < |r| ==> Rd(fd, r[k]) == r[After(r, k)])
    && (forall k :: 0 <= k < |r| ==> Rd(bk, r[After(r, k)]) == r[k])
  }

  lemma RingFrame(fd: Word, bk: Word, fd': Word, bk': Word, r: seq<int>)
    requires RingOk(fd, bk, r)
    requires forall x :: x in r ==> Rd(fd', x) == Rd(fd, x) && Rd(bk', x) == Rd(bk, x)
    ensures RingOk(fd', bk', r)
  {
  }

  /** The predecessor link of the element at position k. */
  function Before(r: seq<int>, k: nat): nat
    requires k < |r|
  {
    if k == 0 then |r| - 1 else k - 1
  }

  lemma RingBack(fd: Word, bk: Word, r: seq<int>, k: nat)
    requires RingOk(fd, bk, r) && k < |r|
    ensures Rd(bk, r[k]) == r[Before(r, k)]
  {
    assert After(r, Before(r, k)) == k;
  }

  /** Linking x in directly after the first element. */
  lemma RingInsert(fd: Word, bk: Word, r: seq<int>, x: int, f: int)
    requires RingOk(fd, bk, r) && x !in r && f == Rd(fd, r[0])
    ensures RingOk(fd[r[0] := x][x := f], bk[f := x][x := r[0]], [r[0], x] + r[1..])
  {
    var r' := [r[0], x] + r[1..];
    var fd', bk' := fd[r[0] := x][x := f], bk[f := x][x := r[0]];
    assert f == r[After(r, 0)];
    forall k | 0 <= k < |r'|
      ensures Rd(fd', r'[k]) == r'[After(r', k)] && Rd(bk', r'[After(r', k)]) == r'[k]
    {
      if k >= 2 {
        assert r'[k] == r[k - 1];
        assert r'[After(r', k)] == r[After(r, k - 1)];
      }
    }
  }

  /** Unlinking the element at position k of a list of two or more. */
  lemma RingRemove(fd: Word, bk: Word, r: seq<int>, k: nat, f: int, b: int)
    requires RingOk(fd, bk, r) && |r| >= 2 && k < |r|
    requires f == Rd(fd, r[k]) && b == Rd(bk, r[k])
    ensures RingOk(fd[b := f], bk[f := b], r[..k] + r[k + 1..])
  {
    RingBack(fd, bk, r, k);
    var r' := r[..k] + r[k + 1..];
    forall j | 0 <= j < |r'|
      ensures Rd(fd[b := f], r'[j]) == r'[After(r', j)]
      ensures Rd(bk[f := b], r'[After(r', j)]) == r'[j]
    {
      var i := if j < k then j else j + 1;
      assert r'[j] == r[i];
      if After(r, i) == k {
        assert r'[After(r', j)] == r[After(r, k)];
      } else {
        assert r'[After(r', j)] == r[After(r, i)];
      }
    }
  }

  /** A circular list may be entered at its last element instead. */
  lemma RingRotate(fd: Word, bk: Word, r: seq<int>)
    requires RingOk(fd, bk, r)
    ensures RingOk(fd, bk, [r[|r| - 1]] + r[..|r| - 1])
  {
    var r' := [r[|r| - 1]] + r[..|r| - 1];
    forall j | 0 <= j < |r'|
      ensures Rd(fd, r'[j]) == r'[After(r', j)] && Rd(bk, r'[After(r', j)]) == r'[j]
    {
      var i := if j == 0 then |r| - 1 else j - 1;
      assert r'[j] == r[i];
      assert r'[After(r', j)] == r[After(r, i)];
    }
  }

  /** The list without its first element, entered at its last one. */
  function Succession(r: seq<int>): seq<int>
    requires |r| >= 2
  {
    [r[|r| - 1]] + r[1..|r| - 1]
  }

  lemma SuccessionParts(r: seq<int>)
    requires |r| >= 2
    ensures r[..0] + r[1..] == r[1..]
    ensures [r[1..][|r| - 2]] + r[1..][..|r| - 2] == Succession(r)
  {
  }

  lemma RingSucceed(fd: Word, bk: Word, r: seq<int>, f: int, b: int)
    requires RingOk(fd, bk, r) && |r| >= 2
    requires f == Rd(fd, r[0]) && b == Rd(bk, r[0])
    ensures b == Succession(r)[0]
    ensures RingOk(fd[b := f], bk[f := b], Succession(r))
  {
    RingBack(fd, bk, r, 0);
    hide RingOk;
    SuccessionParts(r);
    RingRemove(fd, bk, r, 0, f, b);
    RingRotate(fd[b := f], bk[f := b], r[1..]);
  }

  /** A chunk that is its own neighbour is alone. */
  lemma RingAlone(fd: Word, bk: Word, r: seq<int>, k: nat)
    requires RingOk(fd, bk, r) && k < |r|
    ensures Rd(bk, r[k]) == r[k] <==> |r| == 1
    ensures Rd(fd, r[k]) == Rd(bk, r[k]) <==> |r| <= 2
  {
    RingBack(fd, bk, r, k);
  }
}
