// table.sort: an in-place quicksort with a comparison that need not make sense
// (luajit/src/lib_table.c).

module TableSort {

  /** What a comparison does: it answers, or it raises an error. */
  datatype Answer = Yes | No | Throws

  /** How sorting ends: normally, with the error for an invalid order, or with an error of the
      comparison. */
  datatype Outcome = Done | InvalidOrder | Thrown

  // ------------------------------------------------------------------------ orders

  ghost predicate StrictWeak<T(!new)>(lt: (T, T) -> bool) {
    && (forall x :: !lt(x, x))
    && (forall x, y, z :: lt(x, y) && lt(y, z) ==> lt(x, z))
    && (forall x, y, z :: !lt(x, y) && !lt(y, z) ==> !lt(x, z))
  }

  /** The comparison always answers as the order says. */
  ghost predicate Follows<T(!new)>(cmp: (nat, T, T) -> Answer, lt: (T, T) -> bool) {
    forall c, x, y :: cmp(c, x, y) == if lt(x, y) then Yes else No
  }

  ghost predicate Sorted<T(!new)>(lt: (T, T) -> bool, s: seq<T>, l: int, u: int)
    requires 0 <= l && u < |s|
  {
    forall x, y :: l <= x < y <= u ==> !lt(s[y], s[x])
  }

  /** Nothing from lo up to but excluding hi comes after v. */
  ghost predicate Below<T(!new)>(lt: (T, T) -> bool, s: seq<T>, lo: int, hi: int, v: T)
    requires 0 <= lo && hi <= |s|
  {
    forall k :: lo <= k < hi ==> !lt(v, s[k])
  }

  /** Nothing from lo up to but excluding hi comes before v. */
  ghost predicate Above<T(!new)>(lt: (T, T) -> bool, s: seq<T>, lo: int, hi: int, v: T)
    requires 0 <= lo && hi <= |s|
  {
    forall k :: lo <= k < hi ==> !lt(s[k], v)
  }

  // ------------------------------------------------------------------ permutations

  /** The same elements from l to u, and no change elsewhere. */
  ghost predicate Perm<T>(s: seq<T>, t: seq<T>, l: int, u: int)
    requires 0 <= l <= u + 1 <= |s|
  {
    && |t| == |s| && t[..l] == s[..l] && t[u + 1..] == s[u + 1..]
    && multiset(t[l..u + 1]) == multiset(s[l..u + 1])
  }

  lemma PermTrans<T>(r: seq<T>, s: seq<T>, t: seq<T>, l: int, u: int)
    requires 0 <= l <= u + 1 <= |r| && Perm(r, s, l, u) && Perm(s, t, l, u)
    ensures Perm(r, t, l, u)
  {
  }

  lemma PermWiden<T>(s: seq<T>, t: seq<T>, l: int, u: int, l': int, u': int)
    requires 0 <= l' <= l <= u + 1 <= u' + 1 <= |s| && Perm(s, t, l, u)
    ensures Perm(s, t, l', u')
  {
    Cut3(s, l, u, l', u');
    Cut3(t, l, u, l', u');
    assert t[l'..l] == t[..l][l'..] == s[..l][l'..] == s[l'..l];
    assert t[u + 1..u' + 1] == t[u + 1..][..u' - u] == s[u + 1..][..u' - u] == s[u + 1..u' + 1];
    assert t[..l'] == t[..l][..l'] == s[..l][..l'] == s[..l'];
    assert t[u' + 1..] == t[u + 1..][u' - u..] == s[u + 1..][u' - u..] == s[u' + 1..];
  }

  lemma Cut3<T>(s: seq<T>, l: int, u: int, l': int, u': int)
    requires 0 <= l' <= l <= u + 1 <= u' + 1 <= |s|
    ensures multiset(s[l'..u' + 1]) == multiset(s[l'..l]) + multiset(s[l..u + 1]) + multiset(s[u + 1..u' + 1])
  {
    assert s[l'..u' + 1] == s[l'..l] + s[l..u + 1] + s[u + 1..u' + 1];
  }

  function Swapped<T>(s: seq<T>, i: int, j: int): seq<T>
    requires 0 <= i < |s| && 0 <= j < |s|
  {
    s[i := s[j]][j := s[i]]
  }

  lemma PermSwap<T>(s: seq<T>, i: int, j: int, l: int, u: int)
    requires 0 <= l <= i <= u < |s| && l <= j <= u
    ensures Perm(s, Swapped(s, i, j), l, u)
  {
    var t := Swapped(s, i, j);
    var a, b := s[l..u + 1], t[l..u + 1];
    assert b == a[i - l := a[j - l]][j - l := a[i - l]];
    assert multiset(b) == multiset(a);
  }

  /** What holds of all elements of a part holds of them in any order. */
  lemma PermHas<T>(s: seq<T>, t: seq<T>, l: int, u: int, k: int) returns (m: int)
    requires 0 <= l <= u + 1 <= |s| && Perm(s, t, l, u) && l <= k <= u
    ensures l <= m <= u && s[m] == t[k]
  {
    var a, b := s[l..u + 1], t[l..u + 1];
    assert b[k - l] == t[k];
    assert t[k] in multiset(b);
    assert t[k] in a;
    var n :| 0 <= n < |a| && a[n] == t[k];
    m := l + n;
  }

  lemma PermBounds<T(!new)>(lt: (T, T) -> bool, s: seq<T>, t: seq<T>, l: int, u: int, v: T)
    requires 0 <= l <= u + 1 <= |s| && Perm(s, t, l, u)
    ensures Below(lt, s, l, u + 1, v) ==> Below(lt, t, l, u + 1, v)
    ensures Above(lt, s, l, u + 1, v) ==> Above(lt, t, l, u + 1, v)
  {
    forall k | l <= k < u + 1
      ensures Below(lt, s, l, u + 1, v) ==> !lt(v, t[k])
      ensures Above(lt, s, l, u + 1, v) ==> !lt(t[k], v)
    {
      var m := PermHas(s, t, l, u, k);
    }
  }

  /** From l0 to u0, all pairs are in order but those with both elements from l to u. */
  ghost predicate Around<T(!new)>(lt: (T, T) -> bool, s: seq<T>, l0: int, u0: int, l: int, u: int)
    requires 0 <= l0 <= u0 + 1 <= |s|
  {
    forall x, y :: l0 <= x < y <= u0 && (x < l || y > u) ==> !lt(s[y], s[x])
  }

  /** Reordering the inner part does no harm to the other pairs. */
  lemma AroundPerm<T(!new)>(lt: (T, T) -> bool, s: seq<T>, t: seq<T>, l0: int, u0: int, l: int, u: int)
    requires 0 <= l0 <= l <= u + 1 <= u0 + 1 <= |s| && Perm(s, t, l, u) && Around(lt, s, l0, u0, l, u)
    ensures Around(lt, t, l0, u0, l, u)
  {
    forall x, y | l0 <= x < y <= u0 && (x < l || y > u)
      ensures !lt(t[y], t[x])
    {
      var x', y' := x, y;
      if l <= x <= u {
        x' := PermHas(s, t, l, u, x);
      } else {
        PermSame(s, t, l, u, x);
      }
      if l <= y <= u {
        y' := PermHas(s, t, l, u, y);
      } else {
        PermSame(s, t, l, u, y);
      }
      assert t[x] == s[x'] && t[y] == s[y'];
    }
  }

  lemma PermSame<T>(s: seq<T>, t: seq<T>, l: int, u: int, k: int)
    requires 0 <= l <= u + 1 <= |s| && Perm(s, t, l, u) && 0 <= k < |s| && (k < l || k > u)
    ensures t[k] == s[k]
  {
    if k < l {
      assert t[k] == t[..l][k] && s[k] == s[..l][k];
    } else {
      assert t[k] == t[u + 1..][k - u - 1] && s[k] == s[u + 1..][k - u - 1];
    }
  }

  /** Split at i, and with one part sorted, only pairs within the other part are left. */
  lemma AroundSplit<T(!new)>(lt: (T, T) -> bool, s: seq<T>, l0: int, u0: int, l: int, u: int, i: int, left: bool)
    requires StrictWeak(lt) && 0 <= l0 <= l <= i <= u <= u0 < |s| && Around(lt, s, l0, u0, l, u)
    requires Below(lt, s, l, i, s[i]) && Above(lt, s, i + 1, u + 1, s[i])
    requires if left then Sorted(lt, s, l, i - 1) else Sorted(lt, s, i + 1, u)
    ensures if left then Around(lt, s, l0, u0, i + 1, u) else Around(lt, s, l0, u0, l, i - 1)
  {
    forall x, y | l <= x < y <= u && x <= i <= y
      ensures !lt(s[y], s[x])
    {
    }
  }

  // ------------------------------------------------------------------------- depth

  function Log2(n: nat): nat { if n < 2 then 0 else 1 + Log2(n / 2) }

  lemma {:induction false} Log2Grows(m: nat, n: nat)
    requires m <= n
    ensures Log2(m) <= Log2(n)
  {
    if m >= 2 {
      Log2Grows(m / 2, n / 2);
    }
  }

  /** How deep sorting that many elements may recurse. */
  function Bound(n: int): nat { if n <= 0 then 1 else Log2(n) + 1 }

  lemma BoundHalf(m: int, n: int)
    requires 2 * m < n && n >= 2
    ensures Bound(m) + 1 <= Bound(n)
  {
    if m > 0 {
      Log2Grows(m, n / 2);
    }
  }

  lemma BoundSome(n: int)
    ensures Bound(n) >= 1
  {
  }

  /** The smaller part of a part. */
  lemma BoundPart(m: int, n: int, all: int)
    requires 2 * m < n <= all && n >= 2
    ensures Bound(m) + 1 <= Bound(all)
  {
    BoundHalf(m, n);
    Log2Grows(n, all);
  }

  // ----------------------------------------------------------------------- sorting

  class Sorter<T(!new)> {
    const a: array<T>
    const cmp: (nat, T, T) -> Answer
    var calls: nat

    constructor (a: array<T>, cmp: (nat, T, T) -> Answer)
      ensures this.a == a && this.cmp == cmp && calls == 0
    {
      this.a, this.cmp, calls := a, cmp, 0;
    }

    /** sort_comp: what it answers may depend on how often it has been called. */
    method Compare(x: T, y: T) returns (r: Answer)
      modifies `calls
      ensures r == cmp(old(calls), x, y) && calls == old(calls) + 1
    {
      r := cmp(calls, x, y);
      calls := calls + 1;
    }

    /** set2, with the two values that have just been fetched from there. */
    method Swap(i: int, j: int, ghost s0: seq<T>, ghost l: int, ghost u: int)
      requires 0 <= l <= i <= u < a.Length && l <= j <= u && |s0| == a.Length && Perm(s0, a[..], l, u)
      modifies a
      ensures Perm(s0, a[..], l, u) && a[i] == old(a[j]) && a[j] == old(a[i])
      ensures forall k :: 0 <= k < a.Length && k != i && k != j ==> a[k] == old(a[k])
    {
      ghost var s := a[..];
      a[i], a[j] := a[j], a[i];
      assert a[..] == Swapped(s, i, j);
      PermSwap(s, i, j, l, u);
      PermTrans(s0, s, a[..], l, u);
    }

    /** The first, the middle and the last element are in order. */
    ghost predicate Median(lt: (T, T) -> bool, l: int, u: int)
      requires 0 <= l < u < a.Length
      reads a
    {
      var m := (l + u) / 2;
      if u - l == 1 then !lt(a[u], a[l]) else !lt(a[m], a[l]) && !lt(a[u], a[m]) && !lt(a[u], a[l])
    }

    /** The first part of a round: median of three. */
    method MedianOfThree(l: int, u: int, ghost lt: (T, T) -> bool) returns (r: Outcome)
      requires 0 <= l < u < a.Length
      modifies `calls, a
      ensures Perm(old(a[..]), a[..], l, u) && !r.InvalidOrder?
      ensures StrictWeak(lt) && Follows(cmp, lt) ==> r.Done? && Median(lt, l, u)
    {
      hide Perm, Swapped;
      ghost var s0 := a[..];
      PermSelf(s0, l, u);
      var c := Compare(a[u], a[l]);
      if c.Throws? {
        return Thrown;
      }
      if c.Yes? {
        Swap(l, u, s0, l, u);
      }
      if u - l == 1 {
        return Done;
      }
      var i := (l + u) / 2;
      c := Compare(a[i], a[l]);
      if c.Throws? {
        return Thrown;
      }
      if c.Yes? {
        Swap(i, l, s0, l, u);
      } else {
        c := Compare(a[u], a[i]);
        if c.Throws? {
          return Thrown;
        }
        if c.Yes? {
          Swap(i, u, s0, l, u);
        }
      }
      r := Done;
    }

    /** The two scans around the pivot, which is the last element but one: where it ends up, with
        nothing after it on its left and nothing before it on its right. */
    method Partition(l: int, u: int, ghost lt: (T, T) -> bool) returns (r: Outcome, i: int)
      requires 0 <= l && l + 3 <= u < a.Length
      requires StrictWeak(lt) && Follows(cmp, lt) ==> !lt(a[u - 1], a[l]) && !lt(a[u], a[u - 1])
      modifies `calls, a
      ensures Perm(old(a[..]), a[..], l, u) && l < i <= u
      ensures StrictWeak(lt) && Follows(cmp, lt) ==>
                r.Done? && Below(lt, a[..], l, i, a[i]) && Above(lt, a[..], i + 1, u + 1, a[i])
    {
      hide Perm, Swapped;
      ghost var s0 := a[..];
      ghost var good := StrictWeak(lt) && Follows(cmp, lt);
      PermSelf(s0, l, u);
      var p := a[u - 1];
      i := l;
      var j := u - 1;
      while true
        invariant Perm(s0, a[..], l, u) && l <= i <= j <= u - 1 && l + 1 <= j && a[u - 1] == p
        invariant i <= u - 2
        invariant good ==> Below(lt, a[..], l, i + 1, p) && Above(lt, a[..], j, u + 1, p)
        decreases j - i
      {
        r, i := ScanUp(l, i, u, p, lt);
        if !r.Done? {
          return;
        }
        r, j := ScanDown(l, j, u, p, lt);
        if !r.Done? {
          return;
        }
        if j < i {
          break;
        }
        Swap(i, j, s0, l, u);
      }
      Swap(u - 1, i, s0, l, u);
    }

    /** Repeat ++i until the element there is not before the pivot. */
    method ScanUp(l: int, i0: int, u: int, p: T, ghost lt: (T, T) -> bool) returns (r: Outcome, i: int)
      requires 0 <= l <= i0 < u < a.Length
      requires StrictWeak(lt) && Follows(cmp, lt) ==> Below(lt, a[..], l, i0 + 1, p) && i0 < u - 1 && a[u - 1] == p
      modifies `calls
      ensures i0 < i <= u
      ensures StrictWeak(lt) && Follows(cmp, lt) ==>
                r.Done? && Below(lt, a[..], l, i, p) && !lt(a[i], p) && i <= u - 1
    {
      i := i0 + 1;
      var c := Compare(a[i], p);
      while c.Yes?
        invariant i0 < i <= u
        invariant StrictWeak(lt) && Follows(cmp, lt) ==>
                    Below(lt, a[..], l, i, p) && i <= u - 1 && c == if lt(a[i], p) then Yes else No
        decreases u - i
      {
        if i >= u {
          return InvalidOrder, i;
        }
        i := i + 1;
        c := Compare(a[i], p);
      }
      r := if c.Throws? then Thrown else Done;
    }

    /** Repeat --j until the element there is not after the pivot. */
    method ScanDown(l: int, j0: int, u: int, p: T, ghost lt: (T, T) -> bool) returns (r: Outcome, j: int)
      requires 0 <= l < j0 <= u < a.Length
      requires StrictWeak(lt) && Follows(cmp, lt) ==> Above(lt, a[..], j0, u + 1, p) && !lt(p, a[l])
      modifies `calls
      ensures l <= j < j0
      ensures StrictWeak(lt) && Follows(cmp, lt) ==>
                r.Done? && Above(lt, a[..], j + 1, u + 1, p) && !lt(p, a[j])
    {
      j := j0 - 1;
      var c := Compare(p, a[j]);
      while c.Yes?
        invariant l <= j < j0
        invariant StrictWeak(lt) && Follows(cmp, lt) ==>
                    Above(lt, a[..], j + 1, u + 1, p) && c == if lt(p, a[j]) then Yes else No
        decreases j - l
      {
        if j <= l {
          return InvalidOrder, j;
        }
        j := j - 1;
        c := Compare(p, a[j]);
      }
      r := if c.Throws? then Thrown else Done;
    }

    /** A round of auxsort up to the recursion: two or three elements are sorted, and more are
        split at i. */
    method Round(l: int, u: int, ghost lt: (T, T) -> bool) returns (r: Outcome, i: int)
      requires 0 <= l < u < a.Length
      modifies `calls, a
      ensures Perm(old(a[..]), a[..], l, u) && (u - l > 2 ==> l < i <= u)
      ensures StrictWeak(lt) && Follows(cmp, lt) ==>
                r.Done? && if u - l <= 2 then Sorted(lt, a[..], l, u)
                           else Below(lt, a[..], l, i, a[i]) && Above(lt, a[..], i + 1, u + 1, a[i])
    {
      hide Perm, Below, Above, StrictWeak, Follows;
      ghost var s0 := a[..];
      i := (l + u) / 2;
      r := MedianOfThree(l, u, lt);
      if !r.Done? || u - l <= 2 {
        return r, l + 1;
      }
      Swap(i, u - 1, s0, l, u);
      ghost var s1 := a[..];
      r, i := Partition(l, u, lt);
      PermTrans(s0, s1, a[..], l, u);
    }

    /** auxsort: whatever the comparison answers, the elements from l to u are reordered and
        nothing else is touched; with an order, they end up sorted. The recursion is as deep as
        there are binary digits in the number of elements, at most. */
    method AuxSort(l0: int, u0: int, ghost lt: (T, T) -> bool) returns (r: Outcome, ghost depth: nat)
      requires 0 <= l0 <= u0 + 1 <= a.Length
      modifies `calls, a
      ensures Perm(old(a[..]), a[..], l0, u0)
      ensures StrictWeak(lt) && Follows(cmp, lt) ==> r.Done? && Sorted(lt, a[..], l0, u0)
      ensures depth <= Bound(u0 - l0 + 1)
      decreases u0 - l0 + 1
    {
      hide Perm, Below, Above, Around, Sorted, StrictWeak, Follows, Bound, Log2;
      ghost var s0 := a[..];
      ghost var good := StrictWeak(lt) && Follows(cmp, lt);
      depth := 1;
      var l, u := l0, u0;
      PermSelf(s0, l0, u0);
      AroundAll(lt, s0, l0, u0);
      BoundSome(u0 - l0 + 1);
      while l < u
        invariant l0 <= l <= u + 1 <= u0 + 1 && depth <= Bound(u0 - l0 + 1)
        invariant Perm(s0, a[..], l0, u0) && (good ==> Around(lt, a[..], l0, u0, l, u))
        decreases u - l
      {
        ghost var s1 := a[..];
        var i;
        r, i := Round(l, u, lt);
        Inner(lt, good, s0, s1, a[..], l0, u0, l, u);
        if !r.Done? {
          return;
        }
        if u - l <= 2 {
          Small(lt, good, a[..], l0, u0, l, u);
          return;
        }
        ghost var s4, l1, u1, m := a[..], l, u, i;
        var j;
        if i - l < u - i {
          j := l;
          i := i - 1;
          l := i + 2;
        } else {
          j := i + 1;
          i := u;
          u := j - 2;
        }
        BoundPart(i - j + 1, u1 - l1 + 1, u0 - l0 + 1);
        ghost var d;
        r, d := AuxSort(j, i, lt);
        depth := if d + 1 > depth then d + 1 else depth;
        Smaller(lt, good && r.Done?, s0, s4, a[..], l0, u0, l1, u1, m, j, i);
        if !r.Done? {
          return;
        }
      }
      AllSorted(lt, good, a[..], l0, u0, l, u);
      r := Done;
    }

    /** table.sort: the elements from 1 to n. */
    method Sort(n: nat, ghost lt: (T, T) -> bool) returns (r: Outcome)
      requires n < a.Length
      modifies `calls, a
      ensures Perm(old(a[..]), a[..], 1, n)
      ensures StrictWeak(lt) && Follows(cmp, lt) ==> r.Done? && Sorted(lt, a[..], 1, n)
    {
      ghost var depth;
      r, depth := AuxSort(1, n, lt);
    }
  }

  // ------------------------------------------------------------------------- rounds

  lemma PermSelf<T>(s: seq<T>, l: int, u: int)
    requires 0 <= l <= u + 1 <= |s|
    ensures Perm(s, s, l, u)
  {
  }

  lemma AroundAll<T(!new)>(lt: (T, T) -> bool, s: seq<T>, l0: int, u0: int)
    requires 0 <= l0 <= u0 + 1 <= |s|
    ensures Around(lt, s, l0, u0, l0, u0)
  {
  }

  /** A step that reorders the part still to be sorted. */
  lemma Inner<T(!new)>(lt: (T, T) -> bool, good: bool, s0: seq<T>, s: seq<T>, t: seq<T>, l0: int, u0: int, l: int, u: int)
    requires 0 <= l0 <= l <= u + 1 <= u0 + 1 <= |s0| == |s|
    requires Perm(s0, s, l0, u0) && Perm(s, t, l, u) && (good ==> Around(lt, s, l0, u0, l, u))
    ensures Perm(s0, t, l0, u0) && (good ==> Around(lt, t, l0, u0, l, u))
  {
    PermWiden(s, t, l, u, l0, u0);
    PermTrans(s0, s, t, l0, u0);
    if good {
      AroundPerm(lt, s, t, l0, u0, l, u);
    }
    hide Perm, Around;
  }

  lemma Small<T(!new)>(lt: (T, T) -> bool, good: bool, s: seq<T>, l0: int, u0: int, l: int, u: int)
    requires 0 <= l0 <= l < u <= u0 < |s| && (good ==> Around(lt, s, l0, u0, l, u) && Sorted(lt, s, l, u))
    ensures good ==> Sorted(lt, s, l0, u0)
  {
  }

  lemma AllSorted<T(!new)>(lt: (T, T) -> bool, good: bool, s: seq<T>, l0: int, u0: int, l: int, u: int)
    requires 0 <= l0 <= l <= u + 1 <= u0 + 1 <= |s| && u <= l && (good ==> Around(lt, s, l0, u0, l, u))
    ensures good ==> Sorted(lt, s, l0, u0)
  {
  }

  /** Once the part from j to i on one side of the pivot at m is sorted, the other one is left. */
  lemma Smaller<T(!new)>(lt: (T, T) -> bool, good: bool, s0: seq<T>, s: seq<T>, t: seq<T>, l0: int, u0: int, l: int, u: int, m: int,
                         j: int, i: int)
    requires 0 <= l0 <= l < m <= u <= u0 < |s0| == |s|
    requires (j == l && i == m - 1) || (j == m + 1 && i == u)
    requires Perm(s0, s, l0, u0) && Perm(s, t, j, i)
    requires good ==> StrictWeak(lt) && Around(lt, s, l0, u0, l, u) && Sorted(lt, t, j, i)
    requires good ==> Below(lt, s, l, m, s[m]) && Above(lt, s, m + 1, u + 1, s[m])
    ensures Perm(s0, t, l0, u0)
    ensures good ==> if j == l then Around(lt, t, l0, u0, m + 1, u) else Around(lt, t, l0, u0, l, m - 1)
  {
    PermWiden(s, t, j, i, l, u);
    PermWiden(s, t, l, u, l0, u0);
    PermTrans(s0, s, t, l0, u0);
    if good {
      AroundPerm(lt, s, t, l0, u0, l, u);
      SidesKept(lt, s, t, l, u, m, j, i);
      AroundSplit(lt, t, l0, u0, l, u, m, j == l);
    }
    hide Perm, Around, Sorted, StrictWeak, Below, Above;
  }

  lemma SidesKept<T(!new)>(lt: (T, T) -> bool, s: seq<T>, t: seq<T>, l: int, u: int, m: int, j: int, i: int)
    requires 0 <= l < m <= u < |s| && ((j == l && i == m - 1) || (j == m + 1 && i == u)) && Perm(s, t, j, i)
    requires Below(lt, s, l, m, s[m]) && Above(lt, s, m + 1, u + 1, s[m])
    ensures Below(lt, t, l, m, t[m]) && Above(lt, t, m + 1, u + 1, t[m])
  {
    PermSame(s, t, j, i, m);
    PermBounds(lt, s, t, j, i, s[m]);
    if j == l {
      forall k | m + 1 <= k < u + 1 ensures t[k] == s[k] {
        PermSame(s, t, j, i, k);
      }
    } else {
      forall k | l <= k < m ensures t[k] == s[k] {
        PermSame(s, t, j, i, k);
      }
    }
    hide Perm;
  }
}
