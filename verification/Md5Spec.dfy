// The MD5 message digest, fed piece by piece (md5.c), against sections 3.1 to 3.5 of RFC 1321.

module Md5Spec {

  const TWO32 := 0x1_0000_0000
  const TWO64 := 0x1_0000_0000_0000_0000

  /** Words of 32 bits, and bytes. */
  type UINT4 = x: int | 0 <= x < TWO32
  type Byte = x: int | 0 <= x < 256

  type Words = seq<UINT4>
  type Bytes = seq<Byte>

  datatype Regs = Regs(a: UINT4, b: UINT4, c: UINT4, d: UINT4)

  // ------------------------------------------------------ the step of section 3.4

  function And(x: UINT4, y: UINT4): UINT4 { ((x as bv32) & (y as bv32)) as int }
  function Or(x: UINT4, y: UINT4): UINT4 { ((x as bv32) | (y as bv32)) as int }
  function Xor(x: UINT4, y: UINT4): UINT4 { And(Or(x, y), Not(And(x, y))) }
  function Not(x: UINT4): UINT4 { 0xffff_ffff - x }

  function F(x: UINT4, y: UINT4, z: UINT4): UINT4 { Or(And(x, y), And(Not(x), z)) }
  function G(x: UINT4, y: UINT4, z: UINT4): UINT4 { Or(And(x, z), And(y, Not(z))) }
  function H(x: UINT4, y: UINT4, z: UINT4): UINT4 { Xor(Xor(x, y), z) }
  function I(x: UINT4, y: UINT4, z: UINT4): UINT4 { Xor(y, Or(x, Not(z))) }

  function Add(x: UINT4, y: UINT4): UINT4 { (x + y) % TWO32 }

  /** The word turned left by n bits. */
  function Rotated(x: UINT4, n: nat): UINT4
    requires 0 < n < 32
  {
    (((x as bv32) << n) | ((x as bv32) >> (32 - n))) as int
  }

  /** The function of round r. */
  function Mix(r: nat, x: UINT4, y: UINT4, z: UINT4): UINT4 {
    if r == 0 then F(x, y, z) else if r == 1 then G(x, y, z) else if r == 2 then H(x, y, z) else I(x, y, z)
  }

  /** The word of the block, the amount of rotation and the table entry for step i. */
  function WordIndex(i: nat): nat {
    if i < 16 then i % 16 else if i < 32 then (5 * i + 1) % 16 else if i < 48 then (3 * i + 5) % 16 else 7 * i % 16
  }

  function Rotation(i: nat): (s: nat)
    ensures 0 < s < 32
  {
    var k := i % 4;
    if i < 16 then (if k == 0 then 7 else if k == 1 then 12 else if k == 2 then 17 else 22)
    else if i < 32 then (if k == 0 then 5 else if k == 1 then 9 else if k == 2 then 14 else 20)
    else if i < 48 then (if k == 0 then 4 else if k == 1 then 11 else if k == 2 then 16 else 23)
    else (if k == 0 then 6 else if k == 1 then 10 else if k == 2 then 15 else 21)
  }

  function Table1(): Words {
    [
      3614090360, 3905402710, 606105819, 3250441966,
      4118548399, 1200080426, 2821735955, 4249261313,
      1770035416, 2336552879, 4294925233, 2304563134,
      1804603682, 4254626195, 2792965006, 1236535329
    ]
  }

  function Table2(): Words {
    [
      4129170786, 3225465664, 643717713, 3921069994,
      3593408605, 38016083, 3634488961, 3889429448,
      568446438, 3275163606, 4107603335, 1163531501,
      2850285829, 4243563512, 1735328473, 2368359562
    ]
  }

  function Table3(): Words {
    [
      4294588738, 2272392833, 1839030562, 4259657740,
      2763975236, 1272893353, 4139469664, 3200236656,
      681279174, 3936430074, 3572445317, 76029189,
      3654602809, 3873151461, 530742520, 3299628645
    ]
  }

  function Table4(): Words {
    [
      4096336452, 1126891415, 2878612391, 4237533241,
      1700485571, 2399980690, 4293915773, 2240044497,
      1873313359, 4264355552, 2734768916, 1309151649,
      4149444226, 3174756917, 718787259, 3951481745
    ]
  }

  /** The integer part of 2 to the 32nd times the absolute value of the sine of i + 1. */
  function Sine(i: nat): UINT4
    requires i < 64
  {
    if i < 16 then Table1()[i] else if i < 32 then Table2()[i - 16] else if i < 48 then Table3()[i - 32] else Table4()[i - 48]
  }

  function Operation(r: nat, q: Regs, x: UINT4, s: nat, t: UINT4): UINT4
    requires 0 < s < 32
  {
    Add(q.b, Rotated(Add(Add(Add(q.a, Mix(r, q.b, q.c, q.d)), x), t), s))
  }

  /** Step i gives the first register a new value, and the registers change places. */
  function Step(q: Regs, x: Words, i: nat): Regs
    requires |x| == 16 && i < 64
  {
    Regs(q.d, Operation(i / 16, q, x[WordIndex(i)], Rotation(i), Sine(i)), q.b, q.c)
  }

  function Steps(q: Regs, x: Words, i: nat): Regs
    requires |x| == 16 && i <= 64
    decreases 64 - i
  {
    if i == 64 then q else Steps(Step(q, x, i), x, i + 1)
  }

  /** One block of the message. */
  function Compress(h: Regs, x: Words): Regs
    requires |x| == 16
  {
    var q := Steps(h, x, 0);
    Regs(Add(h.a, q.a), Add(h.b, q.b), Add(h.c, q.c), Add(h.d, q.d))
  }

  // ------------------------------------------------------------- the whole message

  /** Four bytes, the low-order one first. */
  function Word(b0: Byte, b1: Byte, b2: Byte, b3: Byte): UINT4 { b0 + 0x100 * b1 + 0x1_0000 * b2 + 0x100_0000 * b3 }

  function WordsOf(b: Bytes): (w: Words)
    ensures |w| == |b| / 4
  {
    if |b| < 4 then [] else [Word(b[0], b[1], b[2], b[3])] + WordsOf(b[4..])
  }

  function CompressAll(h: Regs, w: Words): Regs
    decreases w
  {
    if |w| < 16 then h else CompressAll(Compress(h, w[..16]), w[16..])
  }

  /** Section 3.1: a one bit and then zero bits, up to 56 modulo 64 bytes; always at least one. */
  function PadLength(n: nat): (p: nat)
    ensures 1 <= p <= 64 && (n + p) % 64 == 56
  {
    if n % 64 < 56 then 56 - n % 64 else 120 - n % 64
  }

  function Padding(p: nat): Bytes
    requires p >= 1
  {
    [0x80] + seq(p - 1, _ => 0)
  }

  /** Section 3.2: the length in bits, modulo 2 to the 64th, as two words. */
  function LengthWords(n: nat): Words {
    var bits := 8 * n % TWO64;
    [bits % TWO32, bits / TWO32]
  }

  const INITIAL := Regs(0x67452301, 0xefcdab89, 0x98badcfe, 0x10325476)

  function Chaining(m: Bytes): Regs {
    CompressAll(INITIAL, WordsOf(m + Padding(PadLength(|m|))) + LengthWords(|m|))
  }

  /** Section 3.5: the digest begins with the low-order byte of the first register. */
  function BytesOf(w: UINT4): Bytes { [w % 0x100, w / 0x100 % 0x100, w / 0x1_0000 % 0x100, w / 0x100_0000] }

  function Output(h: Regs): Bytes { BytesOf(h.a) + BytesOf(h.b) + BytesOf(h.c) + BytesOf(h.d) }

  function Digest(m: Bytes): Bytes { Output(Chaining(m)) }

  // ---------------------------------------------------------------- taking it apart

  lemma {:induction false} WordsJoin(a: Bytes, b: Bytes)
    requires |a| % 4 == 0
    ensures WordsOf(a + b) == WordsOf(a) + WordsOf(b)
  {
    hide Word;
    if a == [] {
      assert a + b == b;
    } else {
      assert (a + b)[4..] == a[4..] + b;
      WordsJoin(a[4..], b);
    }
  }

  lemma {:induction false} CompressJoin(h: Regs, v: Words, w: Words)
    requires |v| % 16 == 0
    ensures CompressAll(h, v + w) == CompressAll(CompressAll(h, v), w)
    decreases v
  {
    hide Compress;
    if v == [] {
      assert v + w == w;
    } else {
      assert (v + w)[..16] == v[..16] && (v + w)[16..] == v[16..] + w;
      CompressJoin(Compress(h, v[..16]), v[16..], w);
    }
  }

  /** One more block. */
  lemma BlockMore(h: Regs, a: Bytes, block: Bytes)
    requires |a| % 64 == 0 && |block| == 64
    ensures CompressAll(h, WordsOf(a + block)) == Compress(CompressAll(h, WordsOf(a)), WordsOf(block))
  {
    hide WordsOf, CompressAll, Compress;
    var k := |a| / 64;
    assert |a| / 4 == 16 * k;
    WordsJoin(a, block);
    CompressJoin(h, WordsOf(a), WordsOf(block));
    OneBlock(CompressAll(h, WordsOf(a)), WordsOf(block));
  }

  lemma OneBlock(h: Regs, w: Words)
    requires |w| == 16
    ensures CompressAll(h, w) == Compress(h, w)
  {
    hide Compress;
    assert w[..16] == w && w[16..] == [];
  }
}
