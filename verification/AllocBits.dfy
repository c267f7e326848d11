// The size bits that steer a walk through a tree bin (luajit/src/lj_alloc.c).
//
// A node at depth d of bin i is selected by the d size bits starting at
// BitForTreeIndex(i); the C code reads them off the top of a register that is
// shifted left by one on every step.

module AllocBits {
  import opened AllocSizes

  type Path = seq<bool>

  const HIGH_BIT := 0x8000_0000_0000_0000

  predicate LargeSize(s: nat) { MIN_LARGE_SIZE <= s < SIZE_LIMIT }

  function BitAt(s: nat, k: nat): bool { Shr(s, k) % 2 == 1 }

  /** The number of path steps bin i can distinguish. */
  function Depth(i: nat): nat { BitForTreeIndex(i) + 1 }

  /** The first d steps that lead towards size s in bin i. */
  function PathTo(s: nat, i: nat, d: nat): (p: Path)
    requires d <= Depth(i)
    ensures |p| == d
    ensures forall j :: 0 <= j < d ==> p[j] == BitAt(s, Depth(i) - 1 - j)
  {
    seq(d, j requires 0 <= j < d => BitAt(s, Depth(i) - 1 - j))
  }

  /** The step a walk towards s takes at depth d. */
  function StepAt(s: nat, i: nat, d: nat): bool
    requires d < Depth(i)
  {
    BitAt(s, Depth(i) - 1 - d)
  }

  lemma PathPrefix(s: nat, i: nat, d: nat, e: nat)
    requires d <= e <= Depth(i)
    ensures PathTo(s, i, e)[..d] == PathTo(s, i, d)
  {
  }

  lemma PathSnoc(s: nat, i: nat, d: nat)
    requires d < Depth(i)
    ensures PathTo(s, i, d + 1) == PathTo(s, i, d) + [StepAt(s, i, d)]
  {
  }

  // ------------------------------------------------- paths decide the order

  /** Sizes s and t share all bits above those that bin i resolves. */
  predicate SameRoot(s: nat, t: nat, i: nat) {
    Shr(s, Depth(i)) == Shr(t, Depth(i))
  }

  lemma BinHasOneRoot(s: nat, t: nat)
    requires LargeSize(s) && LargeSize(t) && TreeIndex(s) == TreeIndex(t)
    ensures TreeIndex(s) < NTREEBINS && SameRoot(s, t, TreeIndex(s))
  {
    RootBlock(s);
    RootBlock(t);
  }

  lemma RootBlock(s: nat)
    requires LargeSize(s)
    ensures TreeIndex(s) < NTREEBINS
    ensures Shr(s, Depth(TreeIndex(s))) ==
            if TreeIndex(s) == 31 then 0 else 2 + TreeIndex(s) % 2
  {
    RootBlockLast(s);
    RootBlockOfWord(s, s / 256);
    assert s / 256 % 0x1_0000_0000 == s / 256;
  }

  lemma RootBlockOfWord(s: nat, x: nat)
    requires x == s / 256 && x > 0 && Shr(s, 64) == 0
    ensures IndexOfWord(s, x) < NTREEBINS
    ensures Shr(s, Depth(IndexOfWord(s, x))) ==
            if IndexOfWord(s, x) == 31 then 0 else 2 + IndexOfWord(s, x) % 2
  {
    if x <= 0xFFFF {
      var k := IndexInBlock(s, x);
      assert IndexOfWord(s, x) / 2 == k;
    }
  }

  lemma RootBlockLast(s: nat)
    requires s < SIZE_LIMIT
    ensures Shr(s, 64) == 0
  {
    Pow2Values();
    Pow2Mono(32, 64);
    assert Pow2(32) == SIZE_LIMIT by {
      Pow2Up(22);
      Pow2Up(26);
      Pow2Up(28);
    }
    ShrIs(s, 64, 0);
  }

  /** Two sizes of one bin that agree on a path agree on all bits above it. */
  lemma {:induction false} SameBlock(s: nat, t: nat, i: nat, d: nat)
    requires SameRoot(s, t, i)
    requires d <= Depth(i) && PathTo(s, i, d) == PathTo(t, i, d)
    ensures Shr(s, Depth(i) - d) == Shr(t, Depth(i) - d)
  {
    if d > 0 {
      PathPrefix(s, i, d - 1, d);
      PathPrefix(t, i, d - 1, d);
      SameBlock(s, t, i, d - 1);
      var k := Depth(i) - d;
      assert BitAt(s, k) == BitAt(t, k) by {
        assert PathTo(s, i, d)[d - 1] == PathTo(t, i, d)[d - 1];
      }
      ShrNext(s, k);
      ShrNext(t, k);
    }
  }

  /** A full path determines the size. */
  lemma FullPath(s: nat, t: nat, i: nat)
    requires SameRoot(s, t, i)
    requires PathTo(s, i, Depth(i)) == PathTo(t, i, Depth(i))
    ensures s == t
  {
    SameBlock(s, t, i, Depth(i));
  }

  /** Where two sizes of one bin first part, the one that goes left is smaller. */
  lemma LeftIsSmaller(s: nat, t: nat, i: nat, d: nat)
    requires SameRoot(s, t, i)
    requires d < Depth(i) && PathTo(s, i, d) == PathTo(t, i, d)
    requires !StepAt(s, i, d) && StepAt(t, i, d)
    ensures s < t
  {
    var k := Depth(i) - 1 - d;
    SameBlock(s, t, i, d);
    ShrNext(s, k);
    ShrNext(t, k);
    ShrOrder(s, t, k);
  }

  /** Bins are ordered by size. */
  lemma BinsOrdered(s: nat, t: nat)
    requires LargeSize(s) && LargeSize(t) && TreeIndex(s) < TreeIndex(t)
    ensures s < t
  {
    BinRange(s);
    BinRange(t);
    RangesOrdered(s, t, TreeIndex(s), TreeIndex(t));
  }

  lemma RangesOrdered(s: nat, t: nat, i: nat, j: nat)
    requires i < j && InRangeOf(s, i) && InRangeOf(t, j)
    ensures s < t
  {
    MinSizeMono(i + 1, j);
  }

  lemma {:induction false} MinSizeMono(i: nat, j: nat)
    requires i <= j
    ensures MinSizeForTreeIndex(i) <= MinSizeForTreeIndex(j)
  {
    if i < j {
      MinSizeMono(i, j - 1);
      MinSizeStep((j - 1) / 2, (j - 1) % 2);
    }
  }

  lemma MinSizeStep(k: nat, b: nat)
    requires b < 2
    ensures MinSizeForTreeIndex(2 * k + b) <= MinSizeForTreeIndex(2 * k + b + 1)
  {
    MinSizeValue(k);
    if b == 0 {
      assert MinSizeForTreeIndex(2 * k + b) == 2 * Pow2(k + 7);
    } else {
      assert MinSizeForTreeIndex(2 * k + b + 1) == 4 * Pow2(k + 7);
    }
  }

  // --------------------------------------------------- the shifted register

  /** s << n on a 64-bit word, one position at a time. */
  function Shl(s: nat, n: nat): nat { if n == 0 then s % WORD else Shl(s, n - 1) * 2 % WORD }

  lemma ShlNext(s: nat, n: nat)
    ensures Shl(s, n + 1) == Shl(s, n) * 2 % WORD
  {
  }

  function LeftShiftForTreeIndex(i: nat): nat
    requires i < NTREEBINS
  {
    SIZE_T_BITSIZE - Depth(i)
  }

  /** Shifting left by n moves bit k to bit k + n, as long as it stays in the word. */
  lemma {:induction false} ShlBit(s: nat, n: nat, k: nat)
    requires s < WORD && n + k < SIZE_T_BITSIZE
    ensures BitAt(Shl(s, n), n + k) == BitAt(s, k)
  {
    if n > 0 {
      ShlBit(s, n - 1, k);
      var y := Shl(s, n - 1);
      var z := y % HIGH_BIT;
      assert y * 2 % WORD == 2 * z;
      assert Shr(2 * z, n + k) == Shr(z, n + k - 1);
      ModKeepsBit(y, n + k - 1);
    }
  }

  lemma HighBit()
    ensures Pow2(63) == HIGH_BIT
  {
    Pow2Values();
    Pow2Up(22);
    Pow2Up(29);
    Pow2Up(36);
    Pow2Up(43);
    Pow2Up(50);
    Pow2Up(57);
    Pow2Up(59);
  }

  lemma ModKeepsBit(y: nat, k: nat)
    requires k < 63
    ensures BitAt(y % HIGH_BIT, k) == BitAt(y, k)
  {
    HighBit();
    var m, z := y / HIGH_BIT, y % HIGH_BIT;
    AddHigh(z, m, 63, k);
    EvenTerm(Shr(z, k), m, Pow2(62 - k));
    assert Pow2(63 - k) == 2 * Pow2(62 - k);
  }

  lemma EvenTerm(x: nat, m: nat, p: nat)
    ensures (x + m * (2 * p)) % 2 == x % 2
  {
    assert m * (2 * p) == 2 * (m * p);
  }

  lemma {:induction false} AddHigh(x: nat, m: nat, n: nat, k: nat)
    requires k <= n
    ensures Shr(x + m * Pow2(n), k) == Shr(x, k) + m * Pow2(n - k)
  {
    if k > 0 {
      assert m * Pow2(n) == 2 * (m * Pow2(n - 1));
      AddHigh(x / 2, m, n - 1, k - 1);
    }
  }

  /** The top bit of the register after d steps is the next path step. */
  lemma TopBit(s: nat, i: nat, d: nat)
    requires s < WORD && i < NTREEBINS && d < Depth(i)
    ensures (Shl(s, LeftShiftForTreeIndex(i) + d) >= HIGH_BIT) == StepAt(s, i, d)
  {
    var n := LeftShiftForTreeIndex(i) + d;
    ShlBit(s, n, Depth(i) - 1 - d);
    var x := Shl(s, n);
    TopBitOf(x);
  }

  lemma TopBitOf(x: nat)
    requires x < WORD
    ensures BitAt(x, 63) == (x >= HIGH_BIT)
  {
    HighBit();
    ShrIs(x, 63, if x >= HIGH_BIT then 1 else 0);
  }
}
