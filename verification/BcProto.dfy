// Prototypes and their place in a dump: children first, in reverse constant order, and
// handed to their parent over a stack (luajit/src/lj_bcwrite.c, luajit/src/lj_bcread.c).

module BcProto {
  import opened BcFormat

  const PROTO_CHILD := 1

  /** Keys and values of template tables. */
  datatype Value = Nil | False | True | Int(k: int) | Num(lo: nat, hi: nat) | Str(s: Bytes)

  /** The slots of a hash part; those with a nil value are free. */
  datatype Node = Node(key: Value, val: Value)

  /** A template table before it is written. */
  datatype Template = Template(slots: seq<Value>, nodes: seq<Node>)

  /** A GC constant: T is how template tables are held. */
  datatype Const<T> = Child(pt: Proto<T>) | Table(t: T) | Text(s: Bytes) | Cdata(tp: nat, words: seq<nat>)

  /** Number constants. */
  datatype Number = IntK(k: int) | NumK(lo: nat, hi: nat)

  /** The debug block, with its lines. */
  datatype Debug = Debug(firstLine: nat, numLine: nat, block: Bytes)

  datatype Proto<T> =
    Proto(flags: nat, numParams: nat, frameSize: nat, bc: Bytes, uv: Bytes, kgc: seq<Const<T>>, kn: seq<Number>, dbg: Debug)

  type Source = Proto<Template>
  type Loaded = Proto<map<Value, Value>>

  // --------------------------------------------------------------- well-formedness

  predicate BytesOk(b: Bytes) { |b| <= MAX_MEM && forall i :: 0 <= i < |b| ==> Byte(b[i]) }

  predicate ValueOk(v: Value) {
    match v
    case Int(k) => Int32(k)
    case Num(lo, hi) => Word(lo) && Word(hi)
    case Str(s) => BytesOk(s)
    case _ => true
  }

  predicate Live(n: Node) { !n.val.Nil? }

  // ------------------------------------------------------------------- number keys

  /** The exponent and the fraction of an IEEE 754 double, given by its two words. */
  function Exponent(hi: nat): nat { hi / 0x10_0000 % 0x800 }

  function Fraction(lo: nat, hi: nat): nat { hi % 0x10_0000 * TWO32 + lo }

  function TwoTo(n: nat): (p: nat)
    ensures p > 0
  {
    if n == 0 then 1 else 2 * TwoTo(n - 1)
  }

  /** The double is the integer k. Both zeros are. */
  predicate Equals(lo: nat, hi: nat, k: int) {
    var e, f := Exponent(hi), Fraction(lo, hi);
    if k == 0 then e == 0 && f == 0
    else
      && 1023 <= e <= 1075 && (k < 0 <==> hi / 0x8000_0000 % 2 == 1)
      && TWO32 * 0x10_0000 + f == (if k < 0 then -k else k) * TwoTo(1075 - e)
  }

  predicate IsNan(v: Value) { v.Num? && Exponent(v.hi) == 0x7FF && Fraction(v.lo, v.hi) != 0 }

  /** lj_num2int of a double that is an integer of 32 bits. */
  function NumToInt(lo: nat, hi: nat): int {
    var e, f := Exponent(hi), Fraction(lo, hi);
    if !(1023 <= e <= 1054) then 0
    else
      var m := (TWO32 * 0x10_0000 + f) / TwoTo(1075 - e);
      if hi / 0x8000_0000 % 2 == 1 then -m else m
  }

  /** No other integer is equal to it. */
  lemma NumToIntIs(lo: nat, hi: nat, k: int)
    requires Int32(k) && Word(lo) && Word(hi) && Equals(lo, hi, k)
    ensures k == NumToInt(lo, hi)
  {
    var e, f := Exponent(hi), Fraction(lo, hi);
    if k != 0 {
      var m, p := if k < 0 then -k else k, TwoTo(1075 - e);
      TwoToLarge(e, m);
      QuotientIs(m, p);
      assert (m * p) / p == m;
    }
  }

  lemma QuotientIs(m: nat, p: nat)
    requires p > 0
    ensures (m * p) / p == m
  {
    var q := (m * p) / p;
    assert p * (m - q) == (m * p) % p;
    MulSize(p, m - q);
  }

  lemma MulSize(p: nat, d: int)
    ensures d >= 1 ==> p * d >= p
    ensures d <= -1 ==> p * d <= 0 - p
  {
    if d >= 1 {
      assert p * d == p + p * (d - 1) && p * (d - 1) >= 0;
    } else if d <= -1 {
      assert p * d == p * (d + 1) - p && p * (d + 1) <= 0;
    }
  }

  /** A number of at least 53 bits less than 2^31 times a power of two needs at least 2^21. */
  lemma TwoToLarge(e: nat, m: nat)
    requires 1023 <= e <= 1075 && m <= 0x8000_0000 && m * TwoTo(1075 - e) >= TWO32 * 0x10_0000
    ensures e <= 1054
  {
    if e > 1054 {
      TwoToMono(1075 - e, 20);
      TwoTo20();
      MulMono(m, TwoTo(1075 - e), 0x10_0000);
    }
  }

  lemma MulMono(m: nat, p: nat, q: nat)
    requires p <= q
    ensures m * p <= m * q
  {
  }

  lemma TwoTo20()
    ensures TwoTo(20) == 0x10_0000
  {
    assert TwoTo(5) == 32;
    assert TwoTo(10) == 1024;
    assert TwoTo(15) == 0x8000;
  }

  lemma {:induction false} TwoToMono(a: nat, b: nat)
    requires a <= b
    ensures TwoTo(a) <= TwoTo(b)
  {
    if a < b {
      TwoToMono(a, b - 1);
    }
  }

  /** The key that a table has for a value: integral numbers of 32 bits are the integers. */
  function Canon(v: Value): Value {
    if v.Num? && Int32(NumToInt(v.lo, v.hi)) && Equals(v.lo, v.hi, NumToInt(v.lo, v.hi)) then Int(NumToInt(v.lo, v.hi)) else v
  }

  predicate Distinct(nodes: seq<Node>) {
    forall i, j :: 0 <= i < j < |nodes| && Live(nodes[i]) && Live(nodes[j]) ==> Canon(nodes[i].key) != Canon(nodes[j].key)
  }

  /** A table as the virtual machine keeps it: no key is in twice, be it as an integer or as a
      number, integer keys within the array part are not in the hash part, and a hash part of one
      slot is the shared empty one. */
  predicate TemplateOk(t: Template) {
    && Word(|t.slots|) && Word(|t.nodes|)
    && (forall i :: 0 <= i < |t.slots| ==> ValueOk(t.slots[i]))
    && (forall i :: 0 <= i < |t.nodes| ==> ValueOk(t.nodes[i].key) && ValueOk(t.nodes[i].val))
    && (forall i :: 0 <= i < |t.nodes| && Live(t.nodes[i]) ==>
          var k := Canon(t.nodes[i].key); !k.Nil? && !IsNan(k) && !(k.Int? && 0 <= k.k < |t.slots|))
    && Distinct(t.nodes)
    && (|t.nodes| == 1 ==> !Live(t.nodes[0]))
  }

  /** One word pair for 64-bit integers, two for complex numbers. */
  function CdataWords(tp: nat): nat { if tp == KGC_COMPLEX then 4 else 2 }

  predicate ConstOk(c: Const<Template>) {
    match c
    case Child(pt) => true
    case Table(t) => TemplateOk(t)
    case Text(s) => BytesOk(s)
    case Cdata(tp, words) => KGC_I64 <= tp <= KGC_COMPLEX && |words| == CdataWords(tp) && forall i :: 0 <= i < |words| ==> Word(words[i])
  }

  predicate NumberOk(n: Number) { if n.IntK? then Int32(n.k) else Word(n.lo) && Word(n.hi) }

  predicate HasChild(flags: nat) { flags % 2 == PROTO_CHILD }

  /** One prototype is as the compiler leaves it, its children aside: it has a return
      instruction at least, and it is marked as a parent if it has children. */
  predicate ShallowOk(pt: Source) {
    && Byte(pt.flags) && Byte(pt.numParams) && Byte(pt.frameSize)
    && BytesOk(pt.bc) && |pt.bc| % 4 == 0 && |pt.bc| >= 4
    && BytesOk(pt.uv) && |pt.uv| % 2 == 0 && |pt.uv| < 512
    && Word(|pt.kgc|) && (forall i :: 0 <= i < |pt.kgc| ==> ConstOk(pt.kgc[i]) && (pt.kgc[i].Child? ==> HasChild(pt.flags)))
    && Word(|pt.kn|) && (forall i :: 0 <= i < |pt.kn| ==> NumberOk(pt.kn[i]))
    && Word(pt.dbg.firstLine) && Word(pt.dbg.numLine) && BytesOk(pt.dbg.block)
  }

  // ---------------------------------------------------------------------- encoding

  /** ktabk */
  function EncValue(v: Value): Bytes {
    match v
    case Nil => [KTAB_NIL]
    case False => [KTAB_FALSE]
    case True => [KTAB_TRUE]
    case Int(k) => [KTAB_INT] + if Int32(k) then Uleb(Unsigned(k)) else []
    case Num(lo, hi) => [KTAB_NUM] + Uleb(lo) + Uleb(hi)
    case Str(s) => Uleb(KTAB_STR + |s|) + s
  }

  /** karray* */
  function EncArray(a: seq<Value>): Bytes { if a == [] then [] else EncValue(a[0]) + EncArray(a[1..]) }

  /** khash* */
  function EncPairs(ps: seq<Node>): Bytes {
    if ps == [] then [] else EncValue(ps[0].key) + EncValue(ps[0].val) + EncPairs(ps[1..])
  }

  /** The array part up to its last non-nil slot. */
  function Trimmed(a: seq<Value>): (r: seq<Value>)
    ensures |r| <= |a| && r == a[..|r|] && forall i :: |r| <= i < |a| ==> a[i].Nil?
    ensures r != [] ==> !r[|r| - 1].Nil?
  {
    if a == [] then [] else if a[|a| - 1].Nil? then Trimmed(a[..|a| - 1]) else a
  }

  /** The used slots of the hash part, last one first. */
  function Used(nodes: seq<Node>): (r: seq<Node>)
    ensures |r| <= |nodes|
  {
    if nodes == [] then []
    else (if Live(nodes[|nodes| - 1]) then [nodes[|nodes| - 1]] else []) + Used(nodes[..|nodes| - 1])
  }

  /** ktab */
  function EncTable(t: Template): Bytes {
    Uleb(|Trimmed(t.slots)|) + Uleb(|Used(t.nodes)|) + EncArray(Trimmed(t.slots)) + EncPairs(Used(t.nodes))
  }

  function EncWords(ws: seq<nat>): Bytes { if ws == [] then [] else Uleb(ws[0]) + EncWords(ws[1..]) }

  /** kgc: a child leaves no more than its type. */
  function EncConst(c: Const<Template>): Bytes {
    match c
    case Child(_) => Uleb(KGC_CHILD)
    case Table(t) => Uleb(KGC_TAB) + EncTable(t)
    case Text(s) => Uleb(KGC_STR + |s|) + s
    case Cdata(tp, words) => Uleb(tp) + EncWords(words)
  }

  function EncConsts(k: seq<Const<Template>>): Bytes { if k == [] then [] else EncConst(k[0]) + EncConsts(k[1..]) }

  /** knum: a 33-bit number with a type bit, and another word behind it. */
  function EncNumber(n: Number): Bytes {
    match n
    case IntK(k) => if Int32(k) then Uleb(2 * Unsigned(k)) else []
    case NumK(lo, hi) => Uleb(2 * lo + 1) + Uleb(hi)
  }

  function EncNumbers(k: seq<Number>): Bytes { if k == [] then [] else EncNumber(k[0]) + EncNumbers(k[1..]) }

  /** [debuglenU [firstlineU numlineU]] */
  function EncLines(d: Debug, strip: bool): Bytes {
    if strip then [] else Uleb(|d.block|) + if d.block == [] then [] else Uleb(d.firstLine) + Uleb(d.numLine)
  }

  /** phead */
  function EncHead(pt: Source, strip: bool): Bytes {
    [pt.flags % 8, pt.numParams, pt.frameSize, |pt.uv| / 2]
    + Uleb(|pt.kgc|) + Uleb(|pt.kn|) + Uleb(|pt.bc| / 4) + EncLines(pt.dbg, strip)
  }

  function EncDebug(d: Debug, strip: bool): Bytes { if strip then [] else d.block }

  /** pdata */
  function EncData(pt: Source, strip: bool): Bytes {
    EncHead(pt, strip) + pt.bc + pt.uv + EncConsts(pt.kgc) + EncNumbers(pt.kn) + EncDebug(pt.dbg, strip)
  }

  function EncProto(pt: Source, strip: bool): Bytes { Uleb(|EncData(pt, strip)|) + EncData(pt, strip) }

  function EncAll(ps: seq<Source>, strip: bool): Bytes { if ps == [] then [] else EncProto(ps[0], strip) + EncAll(ps[1..], strip) }

  /** The same, record by record. */
  function EncEach(ps: seq<Source>, strip: bool): seq<Bytes> { seq(|ps|, i requires 0 <= i < |ps| => EncProto(ps[i], strip)) }

  lemma EncEachJoin(a: seq<Source>, b: seq<Source>, strip: bool)
    ensures EncEach(a + b, strip) == EncEach(a, strip) + EncEach(b, strip)
  {
    hide EncProto;
  }

  lemma {:induction false} EncEachAll(ps: seq<Source>, strip: bool)
    ensures Concat(EncEach(ps, strip)) == EncAll(ps, strip)
  {
    hide EncProto;
    if ps != [] {
      assert EncEach(ps, strip)[1..] == EncEach(ps[1..], strip);
      EncEachAll(ps[1..], strip);
    }
  }

  lemma {:induction false} EncAllJoin(a: seq<Source>, b: seq<Source>, strip: bool)
    ensures EncAll(a + b, strip) == EncAll(a, strip) + EncAll(b, strip)
  {
    hide EncProto;
    if a == [] {
      assert a + b == b;
    } else {
      assert (a + b)[1..] == a[1..] + b;
      EncAllJoin(a[1..], b, strip);
    }
  }

  /** One prototype can be written and read: in particular, its record is not too long. */
  predicate ProtoOk(pt: Source, strip: bool) { ShallowOk(pt) && |EncData(pt, strip)| <= MAX_MEM }

  predicate AllOk(ps: seq<Source>, strip: bool) { forall i :: 0 <= i < |ps| ==> ProtoOk(ps[i], strip) }

  // --------------------------------------------------------------- order in the dump

  /** The prototypes as they are written: a prototype after its children, and those from the
      last constant down to the first. */
  function Order(pt: Source): (r: seq<Source>)
    decreases pt, 1
  {
    OrderKids(pt.kgc) + [pt]
  }

  function OrderKids(k: seq<Const<Template>>): (r: seq<Source>)
    decreases k, 0
  {
    if k == [] then [] else OrderKids(k[1..]) + OrderKid(k[0])
  }

  function OrderKid(c: Const<Template>): (r: seq<Source>)
    decreases c, 0
  {
    if c.Child? then Order(c.pt) else []
  }

  /** A dump behind its first byte: version, flags, name, prototypes, and a zero. */
  function EncFlags(pt: Source, strip: bool): nat { (if strip then F_STRIP else 0) + pt.flags / 4 % 2 * F_FFI }

  function EncHeader(pt: Source, name: Bytes, strip: bool): Bytes {
    [HEAD2, HEAD3, VERSION, EncFlags(pt, strip)] + if strip then [] else Uleb(|name|) + name
  }

  function Dump(pt: Source, name: Bytes, strip: bool): Bytes {
    [HEAD1] + EncHeader(pt, name, strip) + EncAll(Order(pt), strip) + [0]
  }

  /** What the writer callback is given, call by call. */
  function Pieces(pt: Source, name: Bytes, strip: bool): seq<Bytes> {
    [[HEAD1] + EncHeader(pt, name, strip)] + EncEach(Order(pt), strip) + [[0]]
  }

  lemma PiecesDump(pt: Source, name: Bytes, strip: bool)
    ensures Concat(Pieces(pt, name, strip)) == Dump(pt, name, strip)
  {
    hide EncHeader, Order, EncEach, EncAll;
    var h, each := [HEAD1] + EncHeader(pt, name, strip), EncEach(Order(pt), strip);
    EncEachAll(Order(pt), strip);
    assert Concat([[0]]) == [0];
    ConcatJoin(each, [[0]]);
    assert ([h] + (each + [[0]]))[1..] == each + [[0]];
    assert Pieces(pt, name, strip) == [h] + (each + [[0]]);
  }

  // -------------------------------------------------------------- what a reader gets

  /** Storing into a table; nil removes the key. */
  function Put(m: map<Value, Value>, k: Value, v: Value): map<Value, Value> {
    if v.Nil? then m - {k} else m[k := v]
  }

  function Get(m: map<Value, Value>, k: Value): Value { if k in m then m[k] else Nil }

  function PutArray(m: map<Value, Value>, a: seq<Value>, i: nat): map<Value, Value>
    decreases a
  {
    if a == [] then m else PutArray(Put(m, Int(i), a[0]), a[1..], i + 1)
  }

  function PutPairs(m: map<Value, Value>, ps: seq<Node>): map<Value, Value>
    decreases ps
  {
    if ps == [] then m else PutPairs(Put(m, Canon(ps[0].key), ps[0].val), ps[1..])
  }

  function Load(t: Template): map<Value, Value> { PutPairs(PutArray(map[], Trimmed(t.slots), 0), Used(t.nodes)) }

  function LoadDebug(d: Debug, strip: bool): Debug {
    if strip || d.block == [] then Debug(0, 0, []) else d
  }

  /** The whole tree once it is loaded again. */
  function Loads(pt: Source, strip: bool): Loaded
    decreases pt, 1
  {
    Proto(pt.flags % 8, pt.numParams, pt.frameSize, pt.bc, pt.uv, LoadConsts(pt.kgc, strip), pt.kn, LoadDebug(pt.dbg, strip))
  }

  function LoadConsts(k: seq<Const<Template>>, strip: bool): seq<Const<map<Value, Value>>>
    decreases k, 0
  {
    if k == [] then [] else [LoadConst(k[0], strip)] + LoadConsts(k[1..], strip)
  }

  function LoadConst(c: Const<Template>, strip: bool): Const<map<Value, Value>>
    decreases c, 0
  {
    match c
    case Child(pt) => Child(Loads(pt, strip))
    case Table(t) => Table(Load(t))
    case Text(s) => Text(s)
    case Cdata(tp, words) => Cdata(tp, words)
  }

  // ------------------------------------------------------------- tables keep content

  /** lj_tab_get: what a template table holds for a key. */
  function Holds(t: Template, k: Value): Value {
    var c := Canon(k);
    if c.Int? && 0 <= c.k < |t.slots| then t.slots[c.k] else HeldBy(t.nodes, c)
  }

  /** What the slots hold for a key. */
  function HeldBy(nodes: seq<Node>, k: Value): Value {
    if nodes == [] then Nil
    else if Live(nodes[|nodes| - 1]) && Canon(nodes[|nodes| - 1].key) == k then nodes[|nodes| - 1].val
    else HeldBy(nodes[..|nodes| - 1], k)
  }

  lemma {:induction false} PutArrayGets(m: map<Value, Value>, a: seq<Value>, i: nat, k: Value)
    ensures Get(PutArray(m, a, i), k) == if k.Int? && i <= k.k < i + |a| then a[k.k - i] else Get(m, k)
    decreases a
  {
    if a != [] {
      PutArrayGets(Put(m, Int(i), a[0]), a[1..], i + 1, k);
    }
  }

  /** Putting the used slots, last one first, gives every key what its slot holds. */
  lemma {:induction false} PutPairsGets(m: map<Value, Value>, nodes: seq<Node>, k: Value)
    requires Distinct(nodes)
    ensures Get(PutPairs(m, Used(nodes)), k) == if HeldBy(nodes, k).Nil? then Get(m, k) else HeldBy(nodes, k)
    decreases nodes
  {
    hide PutPairs, Put, Distinct, Used, Canon;
    if nodes == [] {
      PutNone(m);
    } else {
      var n := |nodes| - 1;
      var rest := nodes[..n];
      DistinctRest(nodes);
      if Live(nodes[n]) {
        PutLast(m, nodes);
        PutPairsGets(Put(m, Canon(nodes[n].key), nodes[n].val), rest, k);
        PutGets(m, Canon(nodes[n].key), nodes[n].val, k);
        if Canon(nodes[n].key) == k {
          assert nodes == rest + [nodes[n]];
          NotHeld(rest, nodes[n]);
        }
      } else {
        UsedRest(nodes);
        PutPairsGets(m, rest, k);
      }
    }
  }

  lemma PutNone(m: map<Value, Value>)
    ensures PutPairs(m, Used([])) == m
  {
  }

  lemma UsedRest(nodes: seq<Node>)
    requires nodes != [] && !Live(nodes[|nodes| - 1])
    ensures Used(nodes) == Used(nodes[..|nodes| - 1])
  {
  }

  lemma PutLast(m: map<Value, Value>, nodes: seq<Node>)
    requires nodes != [] && Live(nodes[|nodes| - 1])
    ensures var last := nodes[|nodes| - 1];
            PutPairs(m, Used(nodes)) == PutPairs(Put(m, Canon(last.key), last.val), Used(nodes[..|nodes| - 1]))
  {
    var last := nodes[|nodes| - 1];
    assert Used(nodes)[0] == last && Used(nodes)[1..] == Used(nodes[..|nodes| - 1]);
  }

  lemma PutGets(m: map<Value, Value>, k: Value, v: Value, key: Value)
    ensures Get(Put(m, k, v), key) == if key == k then v else Get(m, key)
  {
  }

  lemma DistinctRest(nodes: seq<Node>)
    requires nodes != [] && Distinct(nodes)
    ensures Distinct(nodes[..|nodes| - 1])
  {
  }

  /** A key is not held by slots that go before the one that has it. */
  lemma {:induction false} NotHeld(nodes: seq<Node>, last: Node)
    requires Live(last) && Distinct(nodes + [last])
    ensures HeldBy(nodes, Canon(last.key)).Nil?
  {
    hide Canon;
    if nodes != [] {
      var n := |nodes| - 1;
      assert (nodes + [last])[n] == nodes[n] && (nodes + [last])[n + 1] == last;
      assert forall i :: 0 <= i < n ==> (nodes + [last])[i] == (nodes[..n] + [last])[i];
      assert (nodes[..n] + [last])[n] == last;
      NotHeld(nodes[..n], last);
    }
  }

  /** A table is loaded with the content that it had, whatever key it is asked for. */
  lemma LoadKeeps(t: Template, k: Value)
    requires TemplateOk(t)
    ensures Get(Load(t), Canon(k)) == Holds(t, k)
  {
    hide Trimmed, Used, PutPairs, PutArray, Canon;
    var a, c := PutArray(map[], Trimmed(t.slots), 0), Canon(k);
    PutArrayGets(map[], Trimmed(t.slots), 0, c);
    PutPairsGets(a, t.nodes, c);
    if c.Int? && 0 <= c.k < |t.slots| {
      ArrayKeyFree(t, t.nodes, c);
    }
  }

  /** A number is the same key as an integer exactly if it equals it. */
  lemma CanonIs(lo: nat, hi: nat, k: int)
    requires Int32(k) && Word(lo) && Word(hi)
    ensures Canon(Num(lo, hi)) == Int(k) <==> Equals(lo, hi, k)
  {
    if Equals(lo, hi, k) {
      NumToIntIs(lo, hi, k);
    }
    hide Equals, NumToInt;
  }

  /** One and minus 2^31 as numbers are keys for the integers, minus zero is one for 0. */
  lemma CanonExamples()
    ensures Canon(Num(0, 0x3FF0_0000)) == Int(1) && Canon(Num(0, 0xC1E0_0000)) == Int(-0x8000_0000)
    ensures Canon(Num(0, 0x8000_0000)) == Int(0)
  {
    hide Canon, Equals;
    EqualsOne();
    EqualsLeast();
    EqualsZero();
    CanonIs(0, 0x3FF0_0000, 1);
    CanonIs(0, 0xC1E0_0000, -0x8000_0000);
    CanonIs(0, 0x8000_0000, 0);
  }

  lemma EqualsOne()
    ensures Equals(0, 0x3FF0_0000, 1)
  {
    TwoToValues();
    hide TwoTo;
  }

  lemma EqualsLeast()
    ensures Equals(0, 0xC1E0_0000, -0x8000_0000)
  {
    TwoToValues();
    hide TwoTo;
  }

  lemma EqualsZero()
    ensures Equals(0, 0x8000_0000, 0)
  {
  }

  lemma TwoToValues()
    ensures TwoTo(21) == 0x20_0000 && TwoTo(52) == 0x10_0000 * TWO32
  {
    TwoTo20();
    assert TwoTo(2) == 4 && TwoTo(5) == 32 && TwoTo(10) == 1024;
    TwoToAdd(20, 20);
    TwoToAdd(40, 10);
    TwoToAdd(50, 2);
    hide TwoTo;
  }

  lemma {:induction false} TwoToAdd(a: nat, b: nat)
    ensures TwoTo(a + b) == TwoTo(a) * TwoTo(b)
  {
    if b > 0 {
      TwoToAdd(a, b - 1);
    }
  }

  lemma {:induction false} ArrayKeyFree(t: Template, nodes: seq<Node>, k: Value)
    requires forall i :: 0 <= i < |nodes| && Live(nodes[i]) ==> Canon(nodes[i].key) != k
    ensures HeldBy(nodes, k).Nil?
  {
    hide Canon;
    if nodes != [] {
      ArrayKeyFree(t, nodes[..|nodes| - 1], k);
    }
  }
}
