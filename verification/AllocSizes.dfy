// Chunk sizes and tree-bin indexing of the allocator (luajit/src/lj_alloc.c).
//
// A 64-bit size_t is modelled. Machine words are natural numbers below WORD;
// wherever the C code relies on wrap-around or truncation it is written out.

module AllocSizes {

  const MALLOC_ALIGNMENT := 8
  const CHUNK_OVERHEAD := 8
  const MIN_CHUNK_SIZE := 32
  const MIN_REQUEST := 23
  const MIN_LARGE_SIZE := 256
  const MAX_SMALL_REQUEST := 240
  const NSMALLBINS := 32
  const NTREEBINS := 32
  const SIZE_T_BITSIZE := 64
  const WORD := 0x1_0000_0000_0000_0000
  const MAX_REQUEST := WORD - 128
  const TOP_FOOT_SIZE := 64
  const DEFAULT_GRANULARITY := 0x2_0000

  /** Chunk sizes stay below this: 64-bit mode only maps the low part of memory. */
  const SIZE_LIMIT := 0x1_0000_0000

  // ------------------------------------------------------------------ shifts

  function Pow2(n: nat): (p: nat)
    ensures p >= 1
  {
    if n == 0 then 1 else 2 * Pow2(n - 1)
  }

  lemma {:induction false} Pow2Mono(a: nat, b: nat)
    requires a <= b
    ensures Pow2(a) <= Pow2(b)
  {
    if a < b {
      Pow2Mono(a, b - 1);
    }
  }

  lemma Pow2Up(n: nat)
    ensures Pow2(n + 1) == 2 * Pow2(n)
    ensures Pow2(n + 2) == 4 * Pow2(n)
    ensures Pow2(n + 4) == 16 * Pow2(n)
    ensures Pow2(n + 7) == 128 * Pow2(n)
  {
    assert Pow2(n + 3) == 2 * Pow2(n + 2);
    assert Pow2(n + 5) == 2 * Pow2(n + 4);
    assert Pow2(n + 6) == 2 * Pow2(n + 5);
  }

  lemma Pow2Values()
    ensures Pow2(7) == 128 && Pow2(15) == 0x8000 && Pow2(16) == 0x1_0000
    ensures Pow2(22) == 0x40_0000
  {
    Pow2Up(0);
    Pow2Up(7);
    Pow2Up(14);
    Pow2Up(15);
  }

  /** s >> k */
  function Shr(s: nat, k: nat): nat { if k == 0 then s else Shr(s / 2, k - 1) }

  lemma {:induction false} ShrNext(s: nat, k: nat)
    ensures Shr(s, k + 1) == Shr(s, k) / 2
  {
    if k > 0 {
      ShrNext(s / 2, k - 1);
    }
  }

  lemma {:induction false} ShrOrder(s: nat, t: nat, k: nat)
    requires Shr(s, k) < Shr(t, k)
    ensures s < t
  {
    if k > 0 {
      ShrOrder(s / 2, t / 2, k - 1);
    }
  }

  lemma {:induction false} ShrBounds(s: nat, k: nat)
    ensures Shr(s, k) * Pow2(k) <= s < Shr(s, k) * Pow2(k) + Pow2(k)
  {
    if k > 0 {
      ShrBounds(s / 2, k - 1);
      var q := Shr(s, k);
      assert q * (2 * Pow2(k - 1)) == 2 * (q * Pow2(k - 1));
    }
  }

  lemma ShrIs(s: nat, k: nat, q: nat)
    requires q * Pow2(k) <= s < q * Pow2(k) + Pow2(k)
    ensures Shr(s, k) == q
  {
    ShrBounds(s, k);
    var r := Shr(s, k);
    if r < q {
      MulStep(r, q, Pow2(k));
    } else if q < r {
      MulStep(q, r, Pow2(k));
    }
  }

  lemma MulStep(a: nat, b: nat, p: nat)
    requires a < b
    ensures a * p + p <= b * p
  {
    assert (b - a - 1) * p >= 0;
    assert b * p == a * p + p + (b - a - 1) * p;
  }

  // ---------------------------------------------------------------- requests

  /** pad_request: the chunk size that serves a request, 8-byte aligned. */
  function PadRequest(req: nat): nat { (req + CHUNK_OVERHEAD + 7) / 8 * 8 }

  /** request2size */
  function RequestToSize(req: nat): nat {
    if req < MIN_REQUEST then MIN_CHUNK_SIZE else PadRequest(req)
  }

  /** A chunk of the computed size is aligned, never below the minimum, carries
      the request beside its one word of overhead and wastes less than a word
      once the minimum is passed. */
  lemma RequestFits(req: nat)
    ensures var nb := RequestToSize(req);
            && nb % MALLOC_ALIGNMENT == 0
            && nb >= MIN_CHUNK_SIZE
            && req + CHUNK_OVERHEAD <= nb
            && (nb > MIN_CHUNK_SIZE ==> nb < req + CHUNK_OVERHEAD + MALLOC_ALIGNMENT)
            && (req <= MAX_SMALL_REQUEST <==> nb < MIN_LARGE_SIZE)
            && (req < MAX_REQUEST ==> nb < WORD)
  {
  }

  /** granularity_align, which wraps around for the largest sizes */
  function GranularityAlign(s: nat): nat {
    (s + DEFAULT_GRANULARITY - 1) % WORD / DEFAULT_GRANULARITY * DEFAULT_GRANULARITY
  }

  /** The size that alloc_sys asks of the system for a chunk of nb bytes. */
  function SystemRequest(nb: nat): nat { GranularityAlign((nb + TOP_FOOT_SIZE + 1) % WORD) }

  /** It exceeds nb only if nothing wrapped around; it then has room for the chunk, the
      segment footer and one byte more. */
  lemma SystemRequestFits(nb: nat)
    requires nb < WORD
    ensures SystemRequest(nb) > nb <==> nb + TOP_FOOT_SIZE + DEFAULT_GRANULARITY < WORD
    ensures SystemRequest(nb) > nb ==> SystemRequest(nb) > nb + TOP_FOOT_SIZE
    ensures SystemRequest(nb) % DEFAULT_GRANULARITY == 0 && SystemRequest(nb) % 8 == 0
  {
    var req := (nb + TOP_FOOT_SIZE + 1) % WORD;
    var x := (req + DEFAULT_GRANULARITY - 1) % WORD;
    RoundDown(x);
  }

  lemma RoundDown(x: nat)
    ensures x - DEFAULT_GRANULARITY < x / DEFAULT_GRANULARITY * DEFAULT_GRANULARITY <= x
    ensures x / DEFAULT_GRANULARITY * DEFAULT_GRANULARITY % DEFAULT_GRANULARITY == 0
    ensures x / DEFAULT_GRANULARITY * DEFAULT_GRANULARITY % 8 == 0
  {
  }

  // ------------------------------------------------------------ tree indexing

  /** lj_fls: index of the highest set bit. */
  function Fls(x: nat): (k: nat)
    requires x > 0
    ensures Pow2(k) <= x < 2 * Pow2(k)
  {
    if x == 1 then 0 else
      var k := Fls(x / 2) + 1;
      assert Pow2(k) == 2 * Pow2(k - 1);
      k
  }

  /** compute_tree_index, including the cast of the shifted size to 32 bits. */
  function TreeIndex(s: nat): nat { IndexOfWord(s, s / 256 % 0x1_0000_0000) }

  function IndexOfWord(s: nat, x: nat): nat {
    if x == 0 then 0
    else if x > 0xFFFF then NTREEBINS - 1
    else 2 * Fls(x) + Shr(s, Fls(x) + 7) % 2
  }

  /** minsize_for_tree_index */
  function MinSizeForTreeIndex(i: nat): nat {
    Pow2(i / 2 + 8) + if i % 2 == 0 then 0 else Pow2(i / 2 + 7)
  }

  /** bit_for_tree_index: the size bit that selects the child at the root. */
  function BitForTreeIndex(i: nat): nat {
    if i == NTREEBINS - 1 then SIZE_T_BITSIZE - 1 else i / 2 + 6
  }

  lemma FlsOfWord(x: nat) returns (k: nat)
    requires 0 < x <= 0xFFFF
    ensures k == Fls(x) < 16
    ensures Pow2(k + 7) <= 0x40_0000
    ensures x >= 0x8000 <==> k == 15
  {
    k := Fls(x);
    Pow2Values();
    if 16 <= k {
      Pow2Mono(16, k);
    } else if k < 15 {
      Pow2Mono(k + 1, 15);
    }
    Pow2Mono(k + 7, 22);
  }

  lemma BlockOf(s: nat, x: nat, k: nat)
    requires x == s / 256 && Pow2(k) <= x < 2 * Pow2(k)
    ensures 2 * Pow2(k + 7) <= s < 4 * Pow2(k + 7)
  {
    Pow2Up(k);
  }

  /** Below 2^24 the index is determined by the block of sizes [2^(k+8), 2^(k+9))
      and the half of that block the size falls into. */
  lemma IndexInBlock(s: nat, x: nat) returns (k: nat)
    requires x == s / 256 && 0 < x <= 0xFFFF
    ensures k == Fls(x) < 16
    ensures 2 * Pow2(k + 7) <= s < 4 * Pow2(k + 7)
    ensures Shr(s, k + 7) == if s < 3 * Pow2(k + 7) then 2 else 3
    ensures IndexOfWord(s, x) == if s < 3 * Pow2(k + 7) then 2 * k else 2 * k + 1
  {
    hide Pow2, Shr;
    k := FlsOfWord(x);
    BlockOf(s, x, k);
    HalfOfBlock(s, k + 7);
  }

  lemma HalfOfBlock(s: nat, n: nat)
    requires 2 * Pow2(n) <= s < 4 * Pow2(n)
    ensures Shr(s, n) == if s < 3 * Pow2(n) then 2 else 3
  {
    ShrIs(s, n, if s < 3 * Pow2(n) then 2 else 3);
  }

  lemma MinSizeValue(k: nat)
    ensures MinSizeForTreeIndex(2 * k) == 2 * Pow2(k + 7)
    ensures MinSizeForTreeIndex(2 * k + 1) == 3 * Pow2(k + 7)
    ensures MinSizeForTreeIndex(2 * k + 2) == 4 * Pow2(k + 7)
  {
    Pow2Up(k + 7);
  }

  /** Size s belongs to bin i by the bins' minimum sizes. */
  predicate InRangeOf(s: nat, i: nat) {
    && i < NTREEBINS
    && MinSizeForTreeIndex(i) <= s
    && (i + 1 < NTREEBINS ==> s < MinSizeForTreeIndex(i + 1))
  }

  lemma LastBinMin()
    ensures MinSizeForTreeIndex(31) == 0xC0_0000
  {
    MinSizeValue(15);
    Pow2Values();
  }

  lemma BinRangeSmall(s: nat, x: nat)
    requires x == s / 256 && 0 < x <= 0xFFFF
    ensures InRangeOf(s, IndexOfWord(s, x))
  {
    var k := IndexInBlock(s, x);
    MinSizeValue(k);
  }

  lemma LowWordHalf(y: nat)
    ensures y / 0x4000 % 2 == y % 0x1_0000_0000 / 0x4000 % 2
  {
    var q, x := y / 0x1_0000_0000, y % 0x1_0000_0000;
    var a, r := x / 0x4000, x % 0x4000;
    QuotientOf(0x4_0000 * q + a, r);
    assert y == 0x4000 * (0x4_0000 * q + a) + r;
    EvenPlus(0x2_0000 * q, a);
  }

  lemma QuotientOf(c: nat, r: nat)
    requires r < 0x4000
    ensures (0x4000 * c + r) / 0x4000 == c
  {
  }

  lemma EvenPlus(h: nat, a: nat)
    ensures (2 * h + a) % 2 == a % 2
  {
  }

  /** In the last block the half bit of the size is bit 14 of the shifted word. */
  lemma HalfBitOfWord(s: nat, x: nat)
    requires x == s / 256 % 0x1_0000_0000 && 0x8000 <= x <= 0xFFFF
    ensures Shr(s, 22) % 2 == if x < 0xC000 then 0 else 1
  {
    LowWordHalf(s / 256);
    assert s / 256 / 0x4000 == s / 0x40_0000;
    ShiftOf22(s);
  }

  lemma ShiftOf22(s: nat)
    ensures Shr(s, 22) == s / 0x40_0000
  {
    Pow2Values();
    ShrIs(s, 22, s / 0x40_0000);
  }

  lemma BinRangeLast(s: nat, x: nat)
    requires s >= 0xC0_0000 && x == s / 256 % 0x1_0000_0000 && x >= 0xC000
    ensures IndexOfWord(s, x) == 31 && InRangeOf(s, 31)
  {
    LastBinMin();
    if x <= 0xFFFF {
      var k := FlsOfWord(x);
      HalfBitOfWord(s, x);
    }
  }

  lemma BinRangeTruncated(s: nat, x: nat)
    requires s >= 0x100_0000_0000 && x == s / 256 % 0x1_0000_0000 && 0 < x < 0xC000
    ensures !InRangeOf(s, IndexOfWord(s, x))
  {
    var k := FlsOfWord(x);
    if k == 15 {
      HalfBitOfWord(s, x);
    }
    var b := Shr(s, k + 7) % 2;
    NextBinStartsBelow(s, k, b);
    NotBelowNext(s, 2 * k + b);
    assert IndexOfWord(s, x) == 2 * k + b;
  }

  lemma NotBelowNext(s: nat, i: nat)
    requires i + 1 < NTREEBINS && MinSizeForTreeIndex(i + 1) <= s
    ensures !InRangeOf(s, i)
  {
  }

  lemma NextBinStartsBelow(s: nat, k: nat, b: nat)
    requires s >= 0x100_0000 && Pow2(k + 7) <= 0x40_0000
    requires k < 16 && b < 2 && (k == 15 ==> b == 0)
    ensures 2 * k + b + 1 < NTREEBINS && MinSizeForTreeIndex(2 * k + b + 1) <= s
  {
    MinSizeValue(k);
    hide MinSizeForTreeIndex, Pow2;
    if b == 1 {
      assert 2 * k + b + 1 == 2 * k + 2;
    }
  }

  /** Every large size lies between the minimum of its own bin and the minimum of
      the next bin exactly when the 32-bit cast inside compute_tree_index loses
      nothing that matters: below 2^40 always, above it only when the truncated
      word still selects the last bin. */
  lemma BinRange(s: nat)
    requires MIN_LARGE_SIZE <= s < WORD
    ensures InRangeOf(s, TreeIndex(s)) <==> s < 0x100_0000_0000 || s / 256 % 0x1_0000_0000 >= 0xC000
  {
    var x := s / 256 % 0x1_0000_0000;
    if x >= 0xC000 {
      BinRangeLast(s, x);
    } else if s < 0x100_0000_0000 {
      BinRangeSmall(s, x);
    } else if x == 0 {
      MinSizeValue(0);
      Pow2Values();
    } else {
      BinRangeTruncated(s, x);
    }
  }

  /** A request that gets there: it has a chunk size of 2^40, which is looked for from the
      lowest bin on, that of the sizes from 256 to 383. */
  lemma BinRangeExample()
    ensures var req := 0x100_0000_0000 - 8;
            && MAX_SMALL_REQUEST < req < MAX_REQUEST && RequestToSize(req) == 0x100_0000_0000
            && TreeIndex(RequestToSize(req)) == 0 && !InRangeOf(RequestToSize(req), 0)
            && InRangeOf(RequestToSize(req - 8), NTREEBINS - 1)
  {
    var s := 0x100_0000_0000;
    assert s / 256 % 0x1_0000_0000 == 0;
    BinRange(s);
    BinRangeLast(s - 8, (s - 8) / 256 % 0x1_0000_0000);
  }
}
