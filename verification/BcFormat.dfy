// The bytecode dump format (luajit/src/lj_bcdump.h): prototypes, their encoding, and what
// a reader makes of it.

module BcFormat {

  const TWO7 := 0x80
  const TWO31 := 0x8000_0000
  const TWO32 := 0x1_0000_0000

  const HEAD1 := 0x1b
  const HEAD2 := 0x4c
  const HEAD3 := 0x4a
  const VERSION := 1
  const F_STRIP := 2
  const F_FFI := 4

  const KGC_CHILD := 0
  const KGC_TAB := 1
  const KGC_I64 := 2
  const KGC_U64 := 3
  const KGC_COMPLEX := 4
  const KGC_STR := 5

  const KTAB_NIL := 0
  const KTAB_FALSE := 1
  const KTAB_TRUE := 2
  const KTAB_INT := 3
  const KTAB_NUM := 4
  const KTAB_STR := 5

  /** LJ_MAX_STR and LJ_MAX_MEM */
  const MAX_MEM := 0x7fff_ff00

  type Bytes = seq<nat>

  function Concat(chunks: seq<Bytes>): Bytes { if chunks == [] then [] else chunks[0] + Concat(chunks[1..]) }

  lemma {:induction false} ConcatJoin(a: seq<Bytes>, b: seq<Bytes>)
    ensures Concat(a + b) == Concat(a) + Concat(b)
  {
    if a == [] {
      assert a + b == b;
    } else {
      assert (a + b)[1..] == a[1..] + b;
      ConcatJoin(a[1..], b);
    }
  }

  /** A 32-bit signed integer as an unsigned one, and back. */
  function Unsigned(k: int): int { if k < 0 then k + TWO32 else k }
  function Signed(u: int): int { if u >= TWO31 then u - TWO32 else u }

  predicate Word(v: int) { 0 <= v < TWO32 }
  predicate Int32(k: int) { -TWO31 <= k < TWO31 }
  predicate Byte(b: int) { 0 <= b < 256 }

  // ---------------------------------------------------------------------- ULEB128

  /** Section 7.6 of DWARF 4: seven bits a byte, least significant first. */
  function Uleb(v: nat): (b: Bytes)
    ensures b != []
  {
    if v < TWO7 then [v] else [v % TWO7 + TWO7] + Uleb(v / TWO7)
  }

  /** Every byte but the last has its top bit set: the end of a number shows. */
  lemma {:induction false} UlebBytes(v: nat)
    ensures forall i :: 0 <= i < |Uleb(v)| ==> Uleb(v)[i] < 256 && (Uleb(v)[i] >= TWO7 <==> i < |Uleb(v)| - 1)
  {
    if v >= TWO7 {
      UlebBytes(v / TWO7);
    }
  }

  /** No two numbers are written alike, not even with something behind them. */
  lemma {:induction false} UlebPrefixFree(v: nat, w: nat, a: Bytes, b: Bytes)
    requires Uleb(v) + a == Uleb(w) + b
    ensures v == w && a == b
  {
    var x, y := Uleb(v) + a, Uleb(w) + b;
    assert x[0] == Uleb(v)[0] && y[0] == Uleb(w)[0];
    if v >= TWO7 {
      assert x[1..] == Uleb(v / TWO7) + a;
    } else {
      assert x[1..] == a;
    }
    if w >= TWO7 {
      assert y[1..] == Uleb(w / TWO7) + b;
    } else {
      assert y[1..] == b;
    }
    if v >= TWO7 && w >= TWO7 {
      UlebPrefixFree(v / TWO7, w / TWO7, a, b);
      assert v == v / TWO7 * TWO7 + v % TWO7;
      assert w == w / TWO7 * TWO7 + w % TWO7;
    }
  }

  /** The bit length is known from the range. */
  lemma UlebLength(v: nat)
    requires v < 2 * TWO32
    ensures |Uleb(v)| == if v < 0x80 then 1 else if v < 0x4000 then 2 else if v < 0x20_0000 then 3
                         else if v < 0x1000_0000 then 4 else 5
  {
  }

  lemma UlebShort(v: nat)
    requires v < 2 * TWO32
    ensures |Uleb(v)| <= 5
  {
    UlebLength(v);
  }

  /** The highest set bit. */
  function Fls(n: nat): nat
    requires n > 0
  {
    if n == 1 then 0 else 1 + Fls(n / 2)
  }

  lemma {:induction false} FlsSmall(n: nat, k: nat, bound: nat)
    requires 0 < n < bound && bound == Pow2(k)
    ensures Fls(n) < k
  {
    if n > 1 {
      FlsSmall(n / 2, k - 1, bound / 2);
    }
  }

  lemma {:induction false} FlsLarge(n: nat, k: nat, bound: nat)
    requires 0 < bound <= n && bound == Pow2(k)
    ensures Fls(n) >= k
  {
    if k > 0 {
      FlsLarge(n / 2, k - 1, bound / 2);
    }
  }

  function Pow2(k: nat): nat { if k == 0 then 1 else 2 * Pow2(k - 1) }

  lemma PowersOf2()
    ensures Pow2(7) == 0x80 && Pow2(14) == 0x4000 && Pow2(21) == 0x20_0000 && Pow2(28) == 0x1000_0000 && Pow2(32) == TWO32
  {
    assert Pow2(7) == 0x80;
    assert Pow2(14) == 0x4000;
    assert Pow2(21) == 0x20_0000;
    assert Pow2(28) == 0x1000_0000;
  }

  /** The size of the length prefix, computed before it is written, is right. */
  lemma LengthPrefix(n: nat)
    requires 0 < n < TWO32
    ensures (Fls(n) + 8) * 9 / 64 == |Uleb(n)|
  {
    hide Pow2, Fls, Uleb;
    UlebLength(n);
    PowersOf2();
    FlsSmall(n, 32, TWO32);
    if n < 0x80 {
      FlsSmall(n, 7, 0x80);
    } else if n < 0x4000 {
      FlsLarge(n, 7, 0x80);
      FlsSmall(n, 14, 0x4000);
    } else if n < 0x20_0000 {
      FlsLarge(n, 14, 0x4000);
      FlsSmall(n, 21, 0x20_0000);
    } else if n < 0x1000_0000 {
      FlsLarge(n, 21, 0x20_0000);
      FlsSmall(n, 28, 0x1000_0000);
    } else {
      FlsLarge(n, 28, 0x1000_0000);
    }
  }

  // --------------------------------------------------------------- 33-bit numbers

  /** What the writer makes of twice a 32-bit word: the top bit is lost, but the result has
      its own top bit set, so that it fills all five bytes. */
  function Doubled(u: nat): nat { if u < TWO31 then 2 * u else 2 * u % TWO31 + TWO31 }

  /** The last byte with the two top bits of the word put right. */
  function FixedLast(last: nat, u: nat): nat { last % 8 + u / 0x800_0000 % 32 / 8 * 8 }

  /** Five digits of seven bits, the last of them possibly larger. */
  function Joined(d: seq<nat>): nat
    requires |d| == 5
  {
    d[0] + 0x80 * (d[1] + 0x80 * (d[2] + 0x80 * (d[3] + 0x80 * d[4])))
  }

  lemma UlebJoined(d: seq<nat>)
    requires |d| == 5 && d[0] < 0x80 && d[1] < 0x80 && d[2] < 0x80 && d[3] < 0x80 && 0 < d[4] < 0x80
    ensures Uleb(Joined(d)) == [d[0] + 0x80, d[1] + 0x80, d[2] + 0x80, d[3] + 0x80, d[4]]
  {
    UlebDigit(d[0], d[1] + 0x80 * (d[2] + 0x80 * (d[3] + 0x80 * d[4])));
    UlebDigit(d[1], d[2] + 0x80 * (d[3] + 0x80 * d[4]));
    UlebDigit(d[2], d[3] + 0x80 * d[4]);
    UlebDigit(d[3], d[4]);
    assert Uleb(d[4]) == [d[4]];
  }

  lemma UlebDigit(digit: nat, rest: nat)
    requires digit < TWO7 && rest > 0
    ensures Uleb(digit + TWO7 * rest) == [digit + TWO7] + Uleb(rest)
  {
    DigitParts(digit, rest);
  }

  lemma DigitParts(digit: nat, rest: nat)
    requires digit < TWO7
    ensures (digit + TWO7 * rest) / TWO7 == rest && (digit + TWO7 * rest) % TWO7 == digit
  {
  }

  /** A 33-bit number of at least 32 bits in digits. */
  lemma Split(w: nat) returns (d: seq<nat>)
    requires w < 2 * TWO32
    ensures |d| == 5 && d[0] < 0x80 && d[1] < 0x80 && d[2] < 0x80 && d[3] < 0x80 && w == Joined(d) && d[4] == w / 0x1000_0000
  {
    var a := w / 0x80;
    var b := a / 0x80;
    var c := b / 0x80;
    d := [w % 0x80, a % 0x80, b % 0x80, c % 0x80, c / 0x80];
    Divided(w, d[0], d[1], d[2], d[3], d[4]);
  }

  lemma Divided(w: nat, d0: nat, d1: nat, d2: nat, d3: nat, d4: nat)
    requires d0 < 0x80 && d1 < 0x80 && d2 < 0x80 && d3 < 0x80
    requires w == d0 + 0x80 * (d1 + 0x80 * (d2 + 0x80 * (d3 + 0x80 * d4)))
    ensures d4 == w / 0x1000_0000
  {
  }

  /** Doubling in 32 bits and patching the last byte writes the 33-bit number. */
  lemma Patched(u: nat, isNum: nat)
    requires u < TWO32 && isNum <= 1
    ensures var b := Uleb(Doubled(u) + isNum);
            Uleb(2 * u + isNum) == if u < TWO31 then b else b[|b| - 1 := FixedLast(b[|b| - 1], u)]
  {
    hide Uleb, Joined, FixedLast;
    if u >= TWO31 {
      var d := Split(2 * u + isNum);
      var last := DoubledLast(u, isNum, d);
      UlebJoined(d);
      UlebJoined(d[4 := last]);
      LastFixed(u, isNum, last);
    }
  }

  lemma DoubledLast(u: nat, isNum: nat, d: seq<nat>) returns (last: nat)
    requires TWO31 <= u < TWO32 && isNum <= 1
    requires |d| == 5 && d[4] == (2 * u + isNum) / 0x1000_0000 && 2 * u + isNum == Joined(d)
    ensures Joined(d[4 := last]) == Doubled(u) + isNum && 8 <= last < 16 && last % 8 == d[4] % 8 && 0 < d[4] < 32
  {
    var t := (2 * u) / TWO31 - 1;
    assert Doubled(u) == 2 * u - t * TWO31;
    last := d[4] - 8 * t;
  }

  lemma LastFixed(u: nat, isNum: nat, last: nat)
    requires TWO31 <= u < TWO32 && isNum <= 1 && last % 8 == (2 * u + isNum) / 0x1000_0000 % 8
    ensures FixedLast(last, u) == (2 * u + isNum) / 0x1000_0000
  {
    assert u / 0x800_0000 == (2 * u + isNum) / 0x1000_0000;
  }
}
