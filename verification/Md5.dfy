// MD5Init, MD5Update, MD5Final and MD5Transform (md5.c).

module Md5 {
  import opened Md5Spec

  // ------------------------------------------------------------------- MD5Transform

  function FF(a: UINT4, b: UINT4, c: UINT4, d: UINT4, x: UINT4, s: nat, ac: UINT4): UINT4
    requires 0 < s < 32
  {
    Add(Rotated(Add(a, Add(Add(F(b, c, d), x), ac)), s), b)
  }

  lemma SteppedFF(q: Regs, x: Words, i: nat, k: nat, s: nat, t: UINT4)
    requires |x| == 16 && 0 <= i < 16 && k == WordIndex(i) && s == Rotation(i) && t == Sine(i)
    ensures Steps(q, x, i) == Steps(Regs(q.d, FF(q.a, q.b, q.c, q.d, x[k], s, t), q.b, q.c), x, i + 1)
  {
    hide FF, Steps, WordIndex, Rotation, Sine, Operation;
    Stepped(q, x, i, k, s, t);
    assert i / 16 == 0;
    IsFF(q, x[k], s, t);
  }

  lemma IsFF(q: Regs, x: UINT4, s: nat, t: UINT4)
    requires 0 < s < 32
    ensures FF(q.a, q.b, q.c, q.d, x, s, t) == Operation(0, q, x, s, t)
  {
    hide F, Add, Rotated;
    Sum(q.a, F(q.b, q.c, q.d), x, t);
    Swap(q.b, Rotated(Add(q.a, Add(Add(F(q.b, q.c, q.d), x), t)), s));
  }

  function GG(a: UINT4, b: UINT4, c: UINT4, d: UINT4, x: UINT4, s: nat, ac: UINT4): UINT4
    requires 0 < s < 32
  {
    Add(Rotated(Add(a, Add(Add(G(b, c, d), x), ac)), s), b)
  }

  lemma SteppedGG(q: Regs, x: Words, i: nat, k: nat, s: nat, t: UINT4)
    requires |x| == 16 && 16 <= i < 32 && k == WordIndex(i) && s == Rotation(i) && t == Sine(i)
    ensures Steps(q, x, i) == Steps(Regs(q.d, GG(q.a, q.b, q.c, q.d, x[k], s, t), q.b, q.c), x, i + 1)
  {
    hide GG, Steps, WordIndex, Rotation, Sine, Operation;
    Stepped(q, x, i, k, s, t);
    assert i / 16 == 1;
    IsGG(q, x[k], s, t);
  }

  lemma IsGG(q: Regs, x: UINT4, s: nat, t: UINT4)
    requires 0 < s < 32
    ensures GG(q.a, q.b, q.c, q.d, x, s, t) == Operation(1, q, x, s, t)
  {
    hide G, Add, Rotated;
    Sum(q.a, G(q.b, q.c, q.d), x, t);
    Swap(q.b, Rotated(Add(q.a, Add(Add(G(q.b, q.c, q.d), x), t)), s));
  }

  function HH(a: UINT4, b: UINT4, c: UINT4, d: UINT4, x: UINT4, s: nat, ac: UINT4): UINT4
    requires 0 < s < 32
  {
    Add(Rotated(Add(a, Add(Add(H(b, c, d), x), ac)), s), b)
  }

  lemma SteppedHH(q: Regs, x: Words, i: nat, k: nat, s: nat, t: UINT4)
    requires |x| == 16 && 32 <= i < 48 && k == WordIndex(i) && s == Rotation(i) && t == Sine(i)
    ensures Steps(q, x, i) == Steps(Regs(q.d, HH(q.a, q.b, q.c, q.d, x[k], s, t), q.b, q.c), x, i + 1)
  {
    hide HH, Steps, WordIndex, Rotation, Sine, Operation;
    Stepped(q, x, i, k, s, t);
    assert i / 16 == 2;
    IsHH(q, x[k], s, t);
  }

  lemma IsHH(q: Regs, x: UINT4, s: nat, t: UINT4)
    requires 0 < s < 32
    ensures HH(q.a, q.b, q.c, q.d, x, s, t) == Operation(2, q, x, s, t)
  {
    hide H, Add, Rotated;
    Sum(q.a, H(q.b, q.c, q.d), x, t);
    Swap(q.b, Rotated(Add(q.a, Add(Add(H(q.b, q.c, q.d), x), t)), s));
  }

  function II(a: UINT4, b: UINT4, c: UINT4, d: UINT4, x: UINT4, s: nat, ac: UINT4): UINT4
    requires 0 < s < 32
  {
    Add(Rotated(Add(a, Add(Add(I(b, c, d), x), ac)), s), b)
  }

  lemma SteppedII(q: Regs, x: Words, i: nat, k: nat, s: nat, t: UINT4)
    requires |x| == 16 && 48 <= i < 64 && k == WordIndex(i) && s == Rotation(i) && t == Sine(i)
    ensures Steps(q, x, i) == Steps(Regs(q.d, II(q.a, q.b, q.c, q.d, x[k], s, t), q.b, q.c), x, i + 1)
  {
    hide II, Steps, WordIndex, Rotation, Sine, Operation;
    Stepped(q, x, i, k, s, t);
    assert i / 16 == 3;
    IsII(q, x[k], s, t);
  }

  lemma IsII(q: Regs, x: UINT4, s: nat, t: UINT4)
    requires 0 < s < 32
    ensures II(q.a, q.b, q.c, q.d, x, s, t) == Operation(3, q, x, s, t)
  {
    hide I, Add, Rotated;
    Sum(q.a, I(q.b, q.c, q.d), x, t);
    Swap(q.b, Rotated(Add(q.a, Add(Add(I(q.b, q.c, q.d), x), t)), s));
  }

  lemma Stepped(q: Regs, x: Words, i: nat, k: nat, s: nat, t: UINT4)
    requires |x| == 16 && i < 64 && k == WordIndex(i) && s == Rotation(i) && t == Sine(i)
    ensures k < 16 && Steps(q, x, i) == Steps(Regs(q.d, Operation(i / 16, q, x[k], s, t), q.b, q.c), x, i + 1)
  {
    hide Operation, Sine, Rotation;
  }

  lemma Sum(a: UINT4, f: UINT4, x: UINT4, t: UINT4)
    ensures Add(a, Add(Add(f, x), t)) == Add(Add(Add(a, f), x), t)
  {
    Associative(a, Add(f, x), t);
    Associative(a, f, x);
    hide Add;
  }

  lemma Associative(x: UINT4, y: UINT4, z: UINT4)
    ensures Add(x, Add(y, z)) == Add(Add(x, y), z)
  {
    Wraps(y, z);
    Wraps(x, y);
    Wraps(x, Add(y, z));
    Wraps(Add(x, y), z);
    hide Add;
  }

  lemma Wraps(x: UINT4, y: UINT4)
    ensures Add(x, y) == if x + y < TWO32 then x + y else x + y - TWO32
  {
  }

  lemma Swap(a: UINT4, b: UINT4)
    ensures Add(a, b) == Add(b, a)
  {
  }

  method Round1(q: Regs, x: Words) returns (r: Regs)
    requires |x| == 16
    ensures Steps(q, x, 0) == Steps(r, x, 16)
  {
    hide FF, GG, HH, II, Steps;
    var a, b, c, d := q.a, q.b, q.c, q.d;
    SteppedFF(Regs(a, b, c, d), x, 0, 0, 7, 3614090360);
    a := FF(a, b, c, d, x[0], 7, 3614090360);
    SteppedFF(Regs(d, a, b, c), x, 1, 1, 12, 3905402710);
    d := FF(d, a, b, c, x[1], 12, 3905402710);
    SteppedFF(Regs(c, d, a, b), x, 2, 2, 17, 606105819);
    c := FF(c, d, a, b, x[2], 17, 606105819);
    SteppedFF(Regs(b, c, d, a), x, 3, 3, 22, 3250441966);
    b := FF(b, c, d, a, x[3], 22, 3250441966);
    SteppedFF(Regs(a, b, c, d), x, 4, 4, 7, 4118548399);
    a := FF(a, b, c, d, x[4], 7, 4118548399);
    SteppedFF(Regs(d, a, b, c), x, 5, 5, 12, 1200080426);
    d := FF(d, a, b, c, x[5], 12, 1200080426);
    SteppedFF(Regs(c, d, a, b), x, 6, 6, 17, 2821735955);
    c := FF(c, d, a, b, x[6], 17, 2821735955);
    SteppedFF(Regs(b, c, d, a), x, 7, 7, 22, 4249261313);
    b := FF(b, c, d, a, x[7], 22, 4249261313);
    SteppedFF(Regs(a, b, c, d), x, 8, 8, 7, 1770035416);
    a := FF(a, b, c, d, x[8], 7, 1770035416);
    SteppedFF(Regs(d, a, b, c), x, 9, 9, 12, 2336552879);
    d := FF(d, a, b, c, x[9], 12, 2336552879);
    SteppedFF(Regs(c, d, a, b), x, 10, 10, 17, 4294925233);
    c := FF(c, d, a, b, x[10], 17, 4294925233);
    SteppedFF(Regs(b, c, d, a), x, 11, 11, 22, 2304563134);
    b := FF(b, c, d, a, x[11], 22, 2304563134);
    SteppedFF(Regs(a, b, c, d), x, 12, 12, 7, 1804603682);
    a := FF(a, b, c, d, x[12], 7, 1804603682);
    SteppedFF(Regs(d, a, b, c), x, 13, 13, 12, 4254626195);
    d := FF(d, a, b, c, x[13], 12, 4254626195);
    SteppedFF(Regs(c, d, a, b), x, 14, 14, 17, 2792965006);
    c := FF(c, d, a, b, x[14], 17, 2792965006);
    SteppedFF(Regs(b, c, d, a), x, 15, 15, 22, 1236535329);
    b := FF(b, c, d, a, x[15], 22, 1236535329);
    r := Regs(a, b, c, d);
  }

  method Round2(q: Regs, x: Words) returns (r: Regs)
    requires |x| == 16
    ensures Steps(q, x, 16) == Steps(r, x, 32)
  {
    hide FF, GG, HH, II, Steps;
    var a, b, c, d := q.a, q.b, q.c, q.d;
    SteppedGG(Regs(a, b, c, d), x, 16, 1, 5, 4129170786);
    a := GG(a, b, c, d, x[1], 5, 4129170786);
    SteppedGG(Regs(d, a, b, c), x, 17, 6, 9, 3225465664);
    d := GG(d, a, b, c, x[6], 9, 3225465664);
    SteppedGG(Regs(c, d, a, b), x, 18, 11, 14, 643717713);
    c := GG(c, d, a, b, x[11], 14, 643717713);
    SteppedGG(Regs(b, c, d, a), x, 19, 0, 20, 3921069994);
    b := GG(b, c, d, a, x[0], 20, 3921069994);
    SteppedGG(Regs(a, b, c, d), x, 20, 5, 5, 3593408605);
    a := GG(a, b, c, d, x[5], 5, 3593408605);
    SteppedGG(Regs(d, a, b, c), x, 21, 10, 9, 38016083);
    d := GG(d, a, b, c, x[10], 9, 38016083);
    SteppedGG(Regs(c, d, a, b), x, 22, 15, 14, 3634488961);
    c := GG(c, d, a, b, x[15], 14, 3634488961);
    SteppedGG(Regs(b, c, d, a), x, 23, 4, 20, 3889429448);
    b := GG(b, c, d, a, x[4], 20, 3889429448);
    SteppedGG(Regs(a, b, c, d), x, 24, 9, 5, 568446438);
    a := GG(a, b, c, d, x[9], 5, 568446438);
    SteppedGG(Regs(d, a, b, c), x, 25, 14, 9, 3275163606);
    d := GG(d, a, b, c, x[14], 9, 3275163606);
    SteppedGG(Regs(c, d, a, b), x, 26, 3, 14, 4107603335);
    c := GG(c, d, a, b, x[3], 14, 4107603335);
    SteppedGG(Regs(b, c, d, a), x, 27, 8, 20, 1163531501);
    b := GG(b, c, d, a, x[8], 20, 1163531501);
    SteppedGG(Regs(a, b, c, d), x, 28, 13, 5, 2850285829);
    a := GG(a, b, c, d, x[13], 5, 2850285829);
    SteppedGG(Regs(d, a, b, c), x, 29, 2, 9, 4243563512);
    d := GG(d, a, b, c, x[2], 9, 4243563512);
    SteppedGG(Regs(c, d, a, b), x, 30, 7, 14, 1735328473);
    c := GG(c, d, a, b, x[7], 14, 1735328473);
    SteppedGG(Regs(b, c, d, a), x, 31, 12, 20, 2368359562);
    b := GG(b, c, d, a, x[12], 20, 2368359562);
    r := Regs(a, b, c, d);
  }

  method Round3(q: Regs, x: Words) returns (r: Regs)
    requires |x| == 16
    ensures Steps(q, x, 32) == Steps(r, x, 48)
  {
    hide FF, GG, HH, II, Steps;
    var a, b, c, d := q.a, q.b, q.c, q.d;
    SteppedHH(Regs(a, b, c, d), x, 32, 5, 4, 4294588738);
    a := HH(a, b, c, d, x[5], 4, 4294588738);
    SteppedHH(Regs(d, a, b, c), x, 33, 8, 11, 2272392833);
    d := HH(d, a, b, c, x[8], 11, 2272392833);
    SteppedHH(Regs(c, d, a, b), x, 34, 11, 16, 1839030562);
    c := HH(c, d, a, b, x[11], 16, 1839030562);
    SteppedHH(Regs(b, c, d, a), x, 35, 14, 23, 4259657740);
    b := HH(b, c, d, a, x[14], 23, 4259657740);
    SteppedHH(Regs(a, b, c, d), x, 36, 1, 4, 2763975236);
    a := HH(a, b, c, d, x[1], 4, 2763975236);
    SteppedHH(Regs(d, a, b, c), x, 37, 4, 11, 1272893353);
    d := HH(d, a, b, c, x[4], 11, 1272893353);
    SteppedHH(Regs(c, d, a, b), x, 38, 7, 16, 4139469664);
    c := HH(c, d, a, b, x[7], 16, 4139469664);
    SteppedHH(Regs(b, c, d, a), x, 39, 10, 23, 3200236656);
    b := HH(b, c, d, a, x[10], 23, 3200236656);
    SteppedHH(Regs(a, b, c, d), x, 40, 13, 4, 681279174);
    a := HH(a, b, c, d, x[13], 4, 681279174);
    SteppedHH(Regs(d, a, b, c), x, 41, 0, 11, 3936430074);
    d := HH(d, a, b, c, x[0], 11, 3936430074);
    SteppedHH(Regs(c, d, a, b), x, 42, 3, 16, 3572445317);
    c := HH(c, d, a, b, x[3], 16, 3572445317);
    SteppedHH(Regs(b, c, d, a), x, 43, 6, 23, 76029189);
    b := HH(b, c, d, a, x[6], 23, 76029189);
    SteppedHH(Regs(a, b, c, d), x, 44, 9, 4, 3654602809);
    a := HH(a, b, c, d, x[9], 4, 3654602809);
    SteppedHH(Regs(d, a, b, c), x, 45, 12, 11, 3873151461);
    d := HH(d, a, b, c, x[12], 11, 3873151461);
    SteppedHH(Regs(c, d, a, b), x, 46, 15, 16, 530742520);
    c := HH(c, d, a, b, x[15], 16, 530742520);
    SteppedHH(Regs(b, c, d, a), x, 47, 2, 23, 3299628645);
    b := HH(b, c, d, a, x[2], 23, 3299628645);
    r := Regs(a, b, c, d);
  }

  method Round4(q: Regs, x: Words) returns (r: Regs)
    requires |x| == 16
    ensures Steps(q, x, 48) == Steps(r, x, 64)
  {
    hide FF, GG, HH, II, Steps;
    var a, b, c, d := q.a, q.b, q.c, q.d;
    SteppedII(Regs(a, b, c, d), x, 48, 0, 6, 4096336452);
    a := II(a, b, c, d, x[0], 6, 4096336452);
    SteppedII(Regs(d, a, b, c), x, 49, 7, 10, 1126891415);
    d := II(d, a, b, c, x[7], 10, 1126891415);
    SteppedII(Regs(c, d, a, b), x, 50, 14, 15, 2878612391);
    c := II(c, d, a, b, x[14], 15, 2878612391);
    SteppedII(Regs(b, c, d, a), x, 51, 5, 21, 4237533241);
    b := II(b, c, d, a, x[5], 21, 4237533241);
    SteppedII(Regs(a, b, c, d), x, 52, 12, 6, 1700485571);
    a := II(a, b, c, d, x[12], 6, 1700485571);
    SteppedII(Regs(d, a, b, c), x, 53, 3, 10, 2399980690);
    d := II(d, a, b, c, x[3], 10, 2399980690);
    SteppedII(Regs(c, d, a, b), x, 54, 10, 15, 4293915773);
    c := II(c, d, a, b, x[10], 15, 4293915773);
    SteppedII(Regs(b, c, d, a), x, 55, 1, 21, 2240044497);
    b := II(b, c, d, a, x[1], 21, 2240044497);
    SteppedII(Regs(a, b, c, d), x, 56, 8, 6, 1873313359);
    a := II(a, b, c, d, x[8], 6, 1873313359);
    SteppedII(Regs(d, a, b, c), x, 57, 15, 10, 4264355552);
    d := II(d, a, b, c, x[15], 10, 4264355552);
    SteppedII(Regs(c, d, a, b), x, 58, 6, 15, 2734768916);
    c := II(c, d, a, b, x[6], 15, 2734768916);
    SteppedII(Regs(b, c, d, a), x, 59, 13, 21, 1309151649);
    b := II(b, c, d, a, x[13], 21, 1309151649);
    SteppedII(Regs(a, b, c, d), x, 60, 4, 6, 4149444226);
    a := II(a, b, c, d, x[4], 6, 4149444226);
    SteppedII(Regs(d, a, b, c), x, 61, 11, 10, 3174756917);
    d := II(d, a, b, c, x[11], 10, 3174756917);
    SteppedII(Regs(c, d, a, b), x, 62, 2, 15, 718787259);
    c := II(c, d, a, b, x[2], 15, 718787259);
    SteppedII(Regs(b, c, d, a), x, 63, 9, 21, 3951481745);
    b := II(b, c, d, a, x[9], 21, 3951481745);
    r := Regs(a, b, c, d);
  }

  /** MD5Transform: one block. */
  method Transform(buf: Regs, x: Words) returns (r: Regs)
    requires |x| == 16
    ensures r == Compress(buf, x)
  {
    hide Steps, Add;
    var q := Round1(buf, x);
    q := Round2(q, x);
    q := Round3(q, x);
    q := Round4(q, x);
    NoSteps(q, x);
    r := Regs(Add(buf.a, q.a), Add(buf.b, q.b), Add(buf.c, q.c), Add(buf.d, q.d));
  }

  lemma NoSteps(q: Regs, x: Words)
    requires |x| == 16
    ensures Steps(q, x, 64) == q
  {
  }

  // ----------------------------------------------------------------------- context

  /** How many of n bytes fill whole blocks. */
  function Whole(n: nat): nat { n - n % 64 }

  /** The whole blocks of the message have been compressed, and what is behind them is in the
      input buffer. */
  ghost predicate Running(m: Bytes, buf: Regs, inp: Bytes, mdi: nat) {
    && |inp| == 64 && mdi == |m| % 64 && inp[..mdi] == m[Whole(|m|)..]
    && buf == CompressAll(INITIAL, WordsOf(m[..Whole(|m|)]))
  }

  class MD5_CTX {
    var lo: UINT4
    var hi: UINT4
    var buf: Regs
    var inp: Bytes
    ghost var fed: Bytes

    /** The counter holds the number of bits fed so far, modulo 2 to the 64th. */
    ghost predicate Valid()
      reads this
    {
      hi * TWO32 + lo == 8 * |fed| % TWO64 && Running(fed, buf, inp, |fed| % 64)
    }

    /** MD5Init */
    constructor ()
      ensures Valid() && fed == []
    {
      lo, hi := 0, 0;
      buf := INITIAL;
      inp := seq(64, _ => 0);
      fed := [];
    }

    /** The counting at the start of MD5Update: a carry shows in the low word becoming smaller. */
    method Count(inLen: nat, ghost total: nat)
      requires inLen < TWO32 && hi * TWO32 + lo == 8 * total % TWO64
      modifies `lo, `hi
      ensures hi * TWO32 + lo == 8 * (total + inLen) % TWO64
    {
      hide Add;
      var shifted := inLen * 8 % TWO32;
      Wraps(lo, shifted);
      Wraps(hi, 1);
      ghost var carry := if lo + shifted < TWO32 then 0 else 1;
      Wraps(Add(hi, carry), inLen / 0x2000_0000);
      Wraps(hi, 0);
      Counted(lo, hi, total, inLen);
      if Add(lo, shifted) < lo {
        hi := Add(hi, 1);
      }
      lo := Add(lo, shifted);
      hi := Add(hi, inLen / 0x2000_0000);
    }

    /** MD5Update: the message goes on with inBuf. Whole blocks are taken directly if the buffer
        is aligned and no bytes are waiting. */
    method Update(inBuf: Bytes, aligned: bool)
      requires Valid() && |inBuf| < TWO32
      modifies this
      ensures Valid() && fed == old(fed) + inBuf
    {
      hide WordsOf, CompressAll, Compress, Running;
      Index(lo, hi, |fed|);
      var mdi := lo / 8 % 64;
      Count(|inBuf|, |fed|);
      var k := 0;
      if mdi == 0 && aligned {
        k := FastPath(inBuf);
      } else {
        assert fed + inBuf[..0] == fed;
      }
      SlowPath(inBuf, k, mdi);
      fed := fed + inBuf;
    }

    /** The whole blocks of an aligned buffer. */
    method FastPath(inBuf: Bytes) returns (k: nat)
      requires Running(fed, buf, inp, 0)
      modifies `buf
      ensures k <= |inBuf| && Running(fed + inBuf[..k], buf, inp, 0)
    {
      hide WordsOf, CompressAll, Compress, Running;
      k := 0;
      assert fed + inBuf[..0] == fed;
      while |inBuf| - k >= 64
        invariant 0 <= k <= |inBuf| && Running(fed + inBuf[..k], buf, inp, 0)
        decreases |inBuf| - k
      {
        RunBlock(fed + inBuf[..k], inBuf[k..k + 64], buf, inp);
        Longer(fed, inBuf, k, k + 64);
        buf := Transform(buf, WordsOf(inBuf[k..k + 64]));
        k := k + 64;
      }
    }

    /** The loop over single bytes. */
    method SlowPath(inBuf: Bytes, k0: nat, mdi0: nat)
      requires k0 <= |inBuf| && mdi0 < 64 && Running(fed + inBuf[..k0], buf, inp, mdi0)
      modifies `buf, `inp
      ensures Running(fed + inBuf, buf, inp, (|fed| + |inBuf|) % 64)
    {
      hide WordsOf, CompressAll, Compress, Running;
      var k, mdi := k0, mdi0;
      while k < |inBuf|
        invariant 0 <= k <= |inBuf| && 0 <= mdi < 64 && Running(fed + inBuf[..k], buf, inp, mdi)
      {
        RunByte(fed + inBuf[..k], inBuf[k], buf, inp, mdi);
        Longer(fed, inBuf, k, k + 1);
        assert inBuf[k..k + 1] == [inBuf[k]];
        inp := inp[mdi := inBuf[k]];
        mdi := mdi + 1;
        k := k + 1;
        if mdi == 64 {
          var words := Decode(inp, 16);
          buf := Transform(buf, words);
          mdi := 0;
        }
      }
      assert inBuf[..k] == inBuf;
      RunIndex(fed + inBuf, buf, inp, mdi);
    }

    /** MD5Final: the digest of all that has been fed. */
    method Final(aligned: bool) returns (digest: Bytes)
      requires Valid()
      modifies this
      ensures digest == Digest(old(fed))
    {
      hide WordsOf, CompressAll, Compress, Running, Output, Padding, Whole;
      ghost var m := fed;
      var in14, in15 := lo, hi;
      Index(lo, hi, |fed|);
      var mdi := lo / 8 % 64;
      var padLen := if mdi < 56 then 56 - mdi else 120 - mdi;
      PaddingIs(padLen);
      Update(([0x80] + seq(63, _ => 0))[..padLen], aligned);
      RunFull(fed, buf, inp);
      var words := Decode(inp, 14);
      FinalIs(m, fed, buf, inp, in14, in15);
      buf := Transform(buf, words + [in14, in15]);
      digest := BytesOf(buf.a) + BytesOf(buf.b) + BytesOf(buf.c) + BytesOf(buf.d);
      OutputIs(buf);
    }
  }

  /** The bytes of a block as words. */
  method Decode(b: Bytes, count: nat) returns (w: Words)
    requires 4 * count <= |b|
    ensures w == WordsOf(b[..4 * count])
  {
    hide WordsOf, Word;
    w := [];
    NoWords();
    while |w| < count
      invariant |w| <= count && w == WordsOf(b[..4 * |w|])
      decreases count - |w|
    {
      var ii := 4 * |w|;
      NextWord(b, ii);
      w := w + [Word(b[ii], b[ii + 1], b[ii + 2], b[ii + 3])];
    }
  }

  /** A message in pieces: the digest does not depend on how it is split. */
  method DigestOf(parts: seq<Bytes>, aligned: nat -> bool) returns (digest: Bytes)
    requires forall i :: 0 <= i < |parts| ==> |parts[i]| < TWO32
    ensures digest == Digest(Joined(parts))
  {
    hide Digest, Running, CompressAll, WordsOf, Joined;
    NoParts(parts[..0]);
    var ctx := new MD5_CTX();
    var i := 0;
    while i < |parts|
      invariant 0 <= i <= |parts| && ctx.Valid() && fresh(ctx) && ctx.fed == Joined(parts[..i])
    {
      JoinedMore(parts, i);
      ctx.Update(parts[i], aligned(i));
      i := i + 1;
    }
    assert parts[..i] == parts;
    digest := ctx.Final(true);
  }

  lemma NoParts(parts: seq<Bytes>)
    ensures |parts| == 0 ==> Joined(parts) == []
  {
  }

  function Joined(parts: seq<Bytes>): Bytes { if parts == [] then [] else parts[0] + Joined(parts[1..]) }

  lemma {:induction false} JoinedMore(parts: seq<Bytes>, i: nat)
    requires i < |parts|
    ensures Joined(parts[..i + 1]) == Joined(parts[..i]) + parts[i]
  {
    if i == 0 {
      assert parts[..1][0] == parts[0] && |parts[..1][1..]| == 0 && |parts[..0]| == 0;
    } else {
      JoinedMore(parts[1..], i - 1);
      assert parts[..i + 1][1..] == parts[1..][..i] && parts[..i][1..] == parts[1..][..i - 1];
    }
  }

  // -------------------------------------------------------------------- small steps

  lemma NoWords()
    ensures forall b: Bytes :: |b| == 0 ==> WordsOf(b) == []
  {
  }

  lemma NextWord(b: Bytes, ii: nat)
    requires ii % 4 == 0 && ii + 4 <= |b|
    ensures WordsOf(b[..ii + 4]) == WordsOf(b[..ii]) + [Word(b[ii], b[ii + 1], b[ii + 2], b[ii + 3])]
  {
    hide Word;
    var four := b[ii..ii + 4];
    assert b[..ii + 4] == b[..ii] + four;
    WordsJoin(b[..ii], four);
    assert WordsOf(four) == [Word(four[0], four[1], four[2], four[3])] + WordsOf(four[4..]);
  }

  lemma Counted(lo: UINT4, hi: UINT4, total: nat, inLen: nat)
    requires inLen < TWO32 && hi * TWO32 + lo == 8 * total % TWO64
    ensures var shifted, high := inLen * 8 % TWO32, inLen / 0x2000_0000;
            var carry := if lo + shifted < TWO32 then 0 else 1;
            var lo' := lo + shifted - carry * TWO32;
            var h1 := if hi + carry < TWO32 then hi + carry else 0;
            var h2 := if h1 + high < TWO32 then h1 + high else h1 + high - TWO32;
            h2 * TWO32 + lo' == 8 * (total + inLen) % TWO64
  {
    var bits := hi * TWO32 + lo + 8 * inLen;
    Quotient(total, inLen, bits);
    assert 8 * inLen == inLen / 0x2000_0000 * TWO32 + inLen * 8 % TWO32;
  }

  /** Adding to a number of bits modulo 2 to the 64th. */
  lemma Quotient(total: nat, inLen: nat, bits: nat)
    requires bits == 8 * total % TWO64 + 8 * inLen && inLen < TWO32
    ensures 8 * (total + inLen) % TWO64 == if bits < TWO64 then bits else bits - TWO64
  {
    var q := 8 * total / TWO64;
    assert 8 * total == q * TWO64 + 8 * total % TWO64;
    if bits < TWO64 {
      Remainder(8 * (total + inLen), q, bits);
    } else {
      Remainder(8 * (total + inLen), q + 1, bits - TWO64);
    }
  }

  lemma Remainder(n: nat, q: nat, r: nat)
    requires n == q * TWO64 + r && r < TWO64
    ensures n % TWO64 == r
  {
  }

  /** The bit counter tells how many bytes are waiting. */
  lemma Index(lo: UINT4, hi: UINT4, n: nat)
    requires hi * TWO32 + lo == 8 * n % TWO64
    ensures lo / 8 % 64 == n % 64
  {
    var q, low := 8 * n / TWO64, lo / 8;
    assert 8 * n == q * TWO64 + hi * TWO32 + lo;
    Eighth(n, q, hi, lo);
    Last6(n, q * 0x80_0000_0000_0000 + hi * 0x80_0000 + low / 64, low % 64);
  }

  lemma Eighth(n: nat, q: nat, hi: nat, lo: nat)
    requires 8 * n == q * TWO64 + hi * TWO32 + lo
    ensures n == 64 * (q * 0x80_0000_0000_0000 + hi * 0x80_0000) + lo / 8
  {
  }

  lemma Last6(n: nat, h: nat, l: nat)
    requires n == 64 * h + l && l < 64
    ensures n % 64 == l
  {
  }

  lemma Longer(m: Bytes, b: Bytes, k: nat, l: nat)
    requires k <= l <= |b|
    ensures (m + b[..k]) + b[k..l] == m + b[..l]
  {
  }

  lemma RunIndex(m: Bytes, buf: Regs, inp: Bytes, mdi: nat)
    requires Running(m, buf, inp, mdi)
    ensures mdi == |m| % 64
  {
  }

  lemma RunByte(m: Bytes, c: Byte, buf: Regs, inp: Bytes, mdi: nat)
    requires Running(m, buf, inp, mdi) && mdi < 64
    ensures |inp| == 64
    ensures mdi < 63 ==> Running(m + [c], buf, inp[mdi := c], mdi + 1)
    ensures mdi == 63 ==> inp[mdi := c][..64] == inp[mdi := c]
                          && Running(m + [c], Compress(buf, WordsOf(inp[mdi := c])), inp[mdi := c], 0)
  {
    hide WordsOf, CompressAll, Compress;
    var w := Whole(|m|);
    var inp' := inp[mdi := c];
    assert inp'[..mdi + 1] == inp[..mdi] + [c];
    assert m[w..] + [c] == (m + [c])[w..];
    if mdi < 63 {
      assert Whole(|m| + 1) == w && (m + [c])[..w] == m[..w];
    } else {
      assert Whole(|m| + 1) == |m| + 1;
      assert m + [c] == m[..w] + inp';
      BlockMore(INITIAL, m[..w], inp');
      assert (m + [c])[..|m| + 1] == m + [c];
    }
  }

  lemma RunBlock(m: Bytes, block: Bytes, buf: Regs, inp: Bytes)
    requires Running(m, buf, inp, 0) && |block| == 64
    ensures Running(m + block, Compress(buf, WordsOf(block)), inp, 0)
  {
    hide WordsOf, CompressAll, Compress;
    assert Whole(|m|) == |m| && Whole(|m| + 64) == |m| + 64;
    assert m[..|m|] == m && (m + block)[..|m| + 64] == m + block;
    BlockMore(INITIAL, m, block);
  }

  /** The padding taken from the fixed array. */
  lemma PaddingIs(p: nat)
    requires 1 <= p <= 64
    ensures ([0x80] + seq(63, _ => 0))[..p] == Padding(p)
  {
  }

  lemma RunFull(m: Bytes, buf: Regs, inp: Bytes)
    requires Running(m, buf, inp, |m| % 64)
    ensures |inp| == 64
  {
  }

  lemma OutputIs(h: Regs)
    ensures Output(h) == BytesOf(h.a) + BytesOf(h.b) + BytesOf(h.c) + BytesOf(h.d)
  {
  }

  /** The last block: what is waiting of the padded message, and the length. */
  lemma FinalIs(m: Bytes, padded: Bytes, buf: Regs, inp: Bytes, lo: UINT4, hi: UINT4)
    requires hi * TWO32 + lo == 8 * |m| % TWO64 && padded == m + Padding(PadLength(|m|))
    requires Running(padded, buf, inp, |padded| % 64)
    ensures Compress(buf, WordsOf(inp[..56]) + [lo, hi]) == Chaining(m)
  {
    var w := Whole(|padded|);
    assert |padded| % 64 == 56;
    LengthIs(m, lo, hi);
    LastPart(padded, buf, inp);
    WholeBlocks(|padded|);
    hide WordsOf, CompressAll, Compress, Whole, Padding, LengthWords, Running;
    LastBlock(padded[..w], inp[..56], [lo, hi], buf);
  }

  lemma LengthIs(m: Bytes, lo: UINT4, hi: UINT4)
    requires hi * TWO32 + lo == 8 * |m| % TWO64
    ensures LengthWords(|m|) == [lo, hi]
  {
  }

  lemma LastPart(m: Bytes, buf: Regs, inp: Bytes)
    requires |m| % 64 == 56 && Running(m, buf, inp, 56)
    ensures |inp| == 64 && Whole(|m|) <= |m| && m == m[..Whole(|m|)] + inp[..56]
    ensures buf == CompressAll(INITIAL, WordsOf(m[..Whole(|m|)]))
  {
    hide WordsOf, CompressAll;
    var w := Whole(|m|);
    assert m == m[..w] + m[w..];
  }

  lemma LastBlock(front: Bytes, rest: Bytes, length: Words, buf: Regs)
    requires |front| % 64 == 0 && |front| / 4 % 16 == 0 && |rest| == 56 && |length| == 2
    requires buf == CompressAll(INITIAL, WordsOf(front))
    ensures CompressAll(INITIAL, WordsOf(front + rest) + length) == Compress(buf, WordsOf(rest) + length)
  {
    hide WordsOf, CompressAll, Compress;
    WordsJoin(front, rest);
    Appended(WordsOf(front), WordsOf(rest), length, buf);
  }

  lemma Appended(v: Words, w: Words, length: Words, buf: Regs)
    requires |v| % 16 == 0 && |w| == 14 && |length| == 2 && buf == CompressAll(INITIAL, v)
    ensures CompressAll(INITIAL, (v + w) + length) == Compress(buf, w + length)
  {
    hide CompressAll, Compress;
    var last := w + length;
    assert (v + w) + length == v + last;
    CompressJoin(INITIAL, v, last);
    OneBlock(buf, last);
  }

  lemma WholeBlocks(n: nat)
    ensures Whole(n) % 64 == 0 && Whole(n) / 4 % 16 == 0 && Whole(n) <= n
  {
    var q := n / 64;
    assert Whole(n) == 64 * q;
    assert 64 * q / 4 == 16 * q;
  }
}
