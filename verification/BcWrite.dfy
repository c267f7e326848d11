// The bytecode writer (luajit/src/lj_bcwrite.c), in dual-number mode.

module BcWrite {
  import opened BcFormat
  import opened BcProto

  /** Output buffer, writer callback and status. The callback answers its calls one by one,
      with zero if it is to be called again. */
  class BCWriteCtx {
    const strip: bool
    const answer: nat -> int
    var buf: Bytes
    var n: nat
    var handed: seq<Bytes>
    var status: int

    ghost predicate Valid()
      reads this
    {
      n <= |buf| && |buf| >= 1024
    }

    /** What has been put into the buffer. */
    ghost function Filled(): Bytes
      requires Valid()
      reads this
    {
      buf[..n]
    }

    constructor (strip: bool, answer: nat -> int)
      ensures this.strip == strip && this.answer == answer && Valid() && handed == [] && status == 0
    {
      this.strip, this.answer := strip, answer;
      buf := seq(1024, _ => 0);
      n, handed, status := 0, [], 0;
    }

    /** bcwrite_resize and bcwrite_need: room for more bytes. */
    method Need(len: nat)
      requires Valid()
      modifies `buf
      ensures Valid() && Filled() == old(Filled()) && n + len <= |buf| && |buf| >= old(|buf|)
    {
      if n + len > |buf| {
        var sz := |buf| * 2;
        while n + len > sz
          invariant sz >= |buf| * 2
          decreases n + len - sz
        {
          sz := sz * 2;
        }
        buf := buf + seq(sz - |buf|, _ => 0);
      }
    }

    /** bcwrite_byte */
    method PutByte(b: nat)
      requires Valid() && n < |buf|
      modifies `buf, `n
      ensures Valid() && Filled() == old(Filled()) + [b] && |buf| == old(|buf|)
    {
      buf, n := buf[n := b], n + 1;
    }

    /** bcwrite_block */
    method PutBlock(p: Bytes)
      requires Valid() && n + |p| <= |buf|
      modifies `buf, `n
      ensures Valid() && Filled() == old(Filled()) + p && |buf| == old(|buf|)
    {
      var q := n;
      n := n + |p|;
      var i := 0;
      while i < |p|
        invariant 0 <= i <= |p| && Valid() && |buf| == old(|buf|) && n == q + |p|
        invariant buf[..q + i] == old(buf[..q]) + p[..i]
      {
        CopyStep(buf, q + i, p[i]);
        assert p[..i + 1] == p[..i] + [p[i]];
        buf := buf[q + i := p[i]];
        i := i + 1;
      }
      assert p[..i] == p;
    }

    /** bcwrite_uleb128: five bytes of room are enough. */
    method PutUleb128(v0: nat)
      requires Valid() && n + |Uleb(v0)| <= |buf|
      modifies `buf, `n
      ensures Valid() && Filled() == old(Filled()) + Uleb(v0)
      ensures |buf| == old(|buf|) && buf[n..] == old(buf)[n..]
    {
      hide Uleb;
      var v: nat := v0;
      ghost var done: Bytes := [];
      while v >= TWO7
        invariant Valid() && |buf| == old(|buf|) && n == old(n) + |done| && n + |Uleb(v)| <= |buf| && Filled() == old(Filled()) + done
        invariant done + Uleb(v) == Uleb(v0) && buf[n..] == old(buf)[n..]
      {
        ghost var digit := v % TWO7 + TWO7;
        UlebStep(done, v);
        CopyStep(buf, n, digit);
        done := done + [digit];
        buf, n := buf[n := v % TWO7 + TWO7], n + 1;
        v := v / TWO7;
      }
      UlebLast(done, v);
      CopyStep(buf, n, v);
      buf, n := buf[n := v], n + 1;
    }

    // -------------------------------------------------------------------- constants

    /** bcwrite_ktabk */
    method PutValue(v: Value)
      requires Valid() && ValueOk(v)
      modifies `buf, `n
      ensures Valid() && Filled() == old(Filled()) + EncValue(v)
    {
      hide Uleb;
      Need(11);
      match v
      case Str(s) => PutStr(s);
      case Int(k) => PutPart(KTAB_INT, [Unsigned(k)]);
      case Num(lo, hi) => PutPart(KTAB_NUM, [lo, hi]);
      case Nil => PutByte(KTAB_NIL);
      case False => PutByte(KTAB_FALSE);
      case True => PutByte(KTAB_TRUE);
    }

    method PutStr(s: Bytes)
      requires Valid() && BytesOk(s)
      modifies `buf, `n
      ensures Valid() && Filled() == old(Filled()) + EncValue(Str(s))
    {
      hide Uleb;
      ghost var f := Filled();
      Need(5 + |s|);
      UlebShort(KTAB_STR + |s|);
      PutUleb128(KTAB_STR + |s|);
      PutBlock(s);
      assert f + Uleb(KTAB_STR + |s|) + s == f + EncValue(Str(s));
    }

    /** A type and one or two words. */
    method PutPart(tp: nat, words: seq<nat>)
      requires Valid() && 1 <= |words| <= 2 && n + 11 <= |buf| && forall i :: 0 <= i < |words| ==> Word(words[i])
      modifies `buf, `n
      ensures Valid()
      ensures Filled() == old(Filled()) + ([tp] + Uleb(words[0]) + if |words| == 2 then Uleb(words[1]) else [])
    {
      hide Uleb;
      ghost var f := Filled();
      PutByte(tp);
      UlebShort(words[0]);
      PutUleb128(words[0]);
      if |words| == 2 {
        UlebShort(words[1]);
        PutUleb128(words[1]);
        assert f + [tp] + Uleb(words[0]) + Uleb(words[1]) == f + ([tp] + Uleb(words[0]) + Uleb(words[1]));
      } else {
        assert f + [tp] + Uleb(words[0]) == f + ([tp] + Uleb(words[0]) + []);
      }
    }

    /** bcwrite_ktab, for which there is room for two numbers. */
    method PutTable(t: Template)
      requires Valid() && TemplateOk(t) && n + 10 <= |buf|
      modifies `buf, `n
      ensures Valid() && Filled() == old(Filled()) + EncTable(t)
    {
      hide Uleb, TemplateOk, EncArray, EncPairs;
      ghost var f := Filled();
      var nArray := CountArray(t.slots);
      var nHash := CountHash(t);
      TableCounts(t);
      PutUleb128(nArray);
      PutUleb128(nHash);
      ghost var g := f + Uleb(nArray) + Uleb(nHash);
      PutArray(t, nArray);
      PutHash(t, nHash);
      assert g + EncArray(Trimmed(t.slots)) + EncPairs(Used(t.nodes)) == f + EncTable(t);
    }

    /** Array entries, which may contain nil. */
    method PutArray(t: Template, nArray: nat)
      requires Valid() && TemplateOk(t) && nArray == |Trimmed(t.slots)|
      modifies `buf, `n
      ensures Valid() && Filled() == old(Filled()) + EncArray(Trimmed(t.slots))
    {
      hide EncValue, Trimmed, Valid;
      ghost var f, a := Filled(), Trimmed(t.slots);
      var i := 0;
      assert a[0..] == a;
      while i < nArray
        invariant 0 <= i <= nArray && Valid() && Filled() + EncArray(a[i..]) == f + EncArray(a)
      {
        ghost var g := Filled();
        assert a[i..][0] == t.slots[i] && a[i..][1..] == a[i + 1..];
        PutValue(t.slots[i]);
        assert g + EncValue(t.slots[i]) + EncArray(a[i + 1..]) == g + EncArray(a[i..]);
        i := i + 1;
      }
      assert a[nArray..] == [];
    }

    /** Hash entries, from the last slot down until all have been written. */
    method PutHash(t: Template, nHash: nat)
      requires Valid() && TemplateOk(t) && nHash == |Used(t.nodes)|
      modifies `buf, `n
      ensures Valid() && Filled() == old(Filled()) + EncPairs(Used(t.nodes))
    {
      hide EncValue, Used, Valid, EncPairs;
      if nHash == 0 {
        NoPairs(Used(t.nodes));
        return;
      }
      ghost var f := Filled();
      UsedSome(t.nodes);
      var i, k: int := nHash, |t.nodes| - 1;
      assert t.nodes[..k + 1] == t.nodes;
      while true
        invariant Valid() && 0 <= k < |t.nodes| && i == |Used(t.nodes[..k + 1])| > 0
        invariant Filled() + EncPairs(Used(t.nodes[..k + 1])) == f + EncPairs(Used(t.nodes))
        decreases k
      {
        UsedStep(t.nodes, k);
        if Live(t.nodes[k]) {
          ghost var g := Filled();
          NodeOk(t, k);
          PutValue(t.nodes[k].key);
          PutValue(t.nodes[k].val);
          PairsStep(g, t.nodes[k], Used(t.nodes[..k]));
          i := i - 1;
          if i == 0 {
            NoPairs(Used(t.nodes[..k]));
            break;
          }
        }
        UsedSome(t.nodes[..k]);
        k := k - 1;
      }
    }

    /** bcwrite_kgc */
    method PutConsts(k: seq<Const<Template>>)
      requires Valid() && forall i :: 0 <= i < |k| ==> ConstOk(k[i])
      modifies `buf, `n
      ensures Valid() && Filled() == old(Filled()) + EncConsts(k)
    {
      hide EncConst, ConstOk, Valid;
      ghost var f := Filled();
      var i := 0;
      assert k[0..] == k;
      while i < |k|
        invariant 0 <= i <= |k| && Valid() && Filled() + EncConsts(k[i..]) == f + EncConsts(k)
      {
        ghost var g := Filled();
        assert k[i..][0] == k[i] && k[i..][1..] == k[i + 1..];
        PutConst(k[i]);
        assert g + EncConst(k[i]) + EncConsts(k[i + 1..]) == g + EncConsts(k[i..]);
        i := i + 1;
      }
      assert k[i..] == [];
    }

    /** One round of bcwrite_kgc: the type and the data of a constant. */
    method PutConst(c: Const<Template>)
      requires Valid() && ConstOk(c)
      modifies `buf, `n
      ensures Valid() && Filled() == old(Filled()) + EncConst(c)
    {
      hide Uleb, EncTable, TemplateOk, EncWords;
      ghost var f := Filled();
      var tp, need := KGC_CHILD, 1;
      match c {
        case Text(s) => tp, need := KGC_STR + |s|, 5 + |s|;
        case Child(_) =>
        case Cdata(id, _) => tp, need := id, 1 + 4 * 5;
        case Table(_) => tp, need := KGC_TAB, 1 + 2 * 5;
      }
      Need(need);
      UlebShort(tp);
      UlebByte(tp);
      PutUleb128(tp);
      match c
      case Text(s) =>
        PutBlock(s);
        JoinThree(f, Uleb(tp), s);
      case Table(t) =>
        PutTable(t);
        JoinThree(f, Uleb(tp), EncTable(t));
      case Cdata(_, words) =>
        PutWords(words);
        JoinThree(f, Uleb(tp), EncWords(words));
      case Child(_) =>
    }

    /** The halves of a 64-bit integer or of the parts of a complex number. */
    method PutWords(words: seq<nat>)
      requires Valid() && n + 5 * |words| <= |buf| && forall i :: 0 <= i < |words| ==> Word(words[i])
      modifies `buf, `n
      ensures Valid() && Filled() == old(Filled()) + EncWords(words)
    {
      hide Uleb;
      ghost var f := Filled();
      var i := 0;
      assert words[0..] == words;
      while i < |words|
        invariant 0 <= i <= |words| && Valid() && Filled() + EncWords(words[i..]) == f + EncWords(words)
        invariant n + 5 * (|words| - i) <= |buf|
      {
        ghost var g := Filled();
        assert words[i..][0] == words[i] && words[i..][1..] == words[i + 1..];
        UlebShort(words[i]);
        PutUleb128(words[i]);
        assert g + Uleb(words[i]) + EncWords(words[i + 1..]) == g + EncWords(words[i..]);
        i := i + 1;
      }
      assert words[i..] == [];
    }

    /** bcwrite_knum: ten bytes for each number are enough. */
    method PutNumbers(k: seq<Number>)
      requires Valid() && forall i :: 0 <= i < |k| ==> NumberOk(k[i])
      modifies `buf, `n
      ensures Valid() && Filled() == old(Filled()) + EncNumbers(k)
    {
      hide EncNumber, NumberOk;
      ghost var f := Filled();
      Need(10 * |k|);
      var i := 0;
      assert k[0..] == k;
      while i < |k|
        invariant 0 <= i <= |k| && Valid() && Filled() + EncNumbers(k[i..]) == f + EncNumbers(k)
        invariant n + 10 * (|k| - i) <= |buf|
      {
        ghost var g := Filled();
        assert k[i..][0] == k[i] && k[i..][1..] == k[i + 1..];
        PutNumber(k[i]);
        assert g + EncNumber(k[i]) + EncNumbers(k[i + 1..]) == g + EncNumbers(k[i..]);
        i := i + 1;
      }
      assert k[i..] == [];
    }

    /** One number, doubled in 32 bits, with its last byte patched if the top bit was lost. */
    method PutNumber(x: Number)
      requires Valid() && NumberOk(x) && n + 10 <= |buf|
      modifies `buf, `n
      ensures Valid() && Filled() == old(Filled()) + EncNumber(x)
      ensures |buf| == old(|buf|) && n <= old(n) + 10
    {
      hide Uleb;
      var u := if x.IntK? then Unsigned(x.k) else x.lo;
      var isNum := if x.IntK? then 0 else 1;
      PutDoubled(u, isNum);
      if x.NumK? {
        ghost var g := Filled();
        UlebShort(x.hi);
        PutUleb128(x.hi);
        assert old(Filled()) + Uleb(2 * u + 1) + Uleb(x.hi) == old(Filled()) + EncNumber(x);
      }
    }

    method PutDoubled(u: nat, isNum: nat)
      requires Valid() && n + 5 <= |buf| && Word(u) && isNum <= 1
      modifies `buf, `n
      ensures Valid() && Filled() == old(Filled()) + Uleb(2 * u + isNum)
      ensures |buf| == old(|buf|) && n <= old(n) + 5
    {
      hide Uleb, FixedLast;
      Patched(u, isNum);
      UlebShort(Doubled(u) + isNum);
      ghost var b := Uleb(Doubled(u) + isNum);
      PutUleb128(Doubled(u) + isNum);
      if u >= TWO31 {
        assert buf[..n][n - 1] == b[|b| - 1];
        buf := buf[n - 1 := FixedLast(buf[n - 1], u)];
        assert Filled() == old(Filled()) + b[|b| - 1 := FixedLast(b[|b| - 1], u)];
      }
    }

    // ------------------------------------------------------------------- prototypes

    /** The fixed part of a prototype: four bytes and up to six numbers. */
    method PutHead(pt: Source)
      requires Valid() && ShallowOk(pt) && n + 4 + 6 * 5 <= |buf|
      modifies `buf, `n
      ensures Valid() && Filled() == old(Filled()) + EncHead(pt, strip)
      ensures |buf| == old(|buf|) && n <= old(n) + 34
    {
      hide Uleb, ShallowOk, EncLines;
      ghost var f := Filled();
      HeadShort(pt);
      PutByte(pt.flags % 8);
      PutByte(pt.numParams);
      PutByte(pt.frameSize);
      PutByte(|pt.uv| / 2);
      ghost var g := Filled();
      assert g == f + [pt.flags % 8, pt.numParams, pt.frameSize, |pt.uv| / 2];
      PutCounts(pt);
      ghost var h := Filled();
      PutLines(pt.dbg);
      HeadJoin(f, g, h, Filled(), pt, strip);
    }

    method PutCounts(pt: Source)
      requires Valid() && n + 15 <= |buf|
      requires |Uleb(|pt.kgc|)| <= 5 && |Uleb(|pt.kn|)| <= 5 && |Uleb(|pt.bc| / 4)| <= 5
      modifies `buf, `n
      ensures Valid() && Filled() == old(Filled()) + Uleb(|pt.kgc|) + Uleb(|pt.kn|) + Uleb(|pt.bc| / 4)
      ensures |buf| == old(|buf|) && n <= old(n) + 15
    {
      hide Uleb;
      PutUleb128(|pt.kgc|);
      PutUleb128(|pt.kn|);
      PutUleb128(|pt.bc| / 4);
    }

    method PutLines(d: Debug)
      requires Valid() && n + 15 <= |buf|
      requires |Uleb(|d.block|)| <= 5 && |Uleb(d.firstLine)| <= 5 && |Uleb(d.numLine)| <= 5
      modifies `buf, `n
      ensures Valid() && Filled() == old(Filled()) + EncLines(d, strip)
      ensures |buf| == old(|buf|) && n <= old(n) + 15
    {
      hide Uleb;
      ghost var f := Filled();
      if !strip {
        PutUleb128(|d.block|);
        if d.block != [] {
          PutUleb128(d.firstLine);
          PutUleb128(d.numLine);
          assert f + Uleb(|d.block|) + Uleb(d.firstLine) + Uleb(d.numLine) == f + EncLines(d, strip);
        }
      }
    }

    /** The record of a prototype, behind the room left for its length. */
    method PutData(pt: Source)
      requires Valid() && ShallowOk(pt)
      modifies `buf, `n
      ensures Valid() && n >= 5 && buf[5..n] == EncData(pt, strip)
    {
      hide ShallowOk, EncHead, EncConsts, EncNumbers, ConstOk, NumberOk;
      n := 5;
      ghost var f := Filled();
      Need(4 + 6 * 5 + |pt.bc| + |pt.uv|);
      PutHead(pt);
      PutBlock(pt.bc);
      PutBlock(pt.uv);
      ghost var g := Filled();
      ConstsOk(pt);
      PutConsts(pt.kgc);
      PutNumbers(pt.kn);
      ghost var h := Filled();
      PutDebug(pt.dbg);
      DataJoin(f, g, h, Filled(), pt, strip);
      assert Filled()[|f|..] == buf[5..n];
    }

    method PutDebug(d: Debug)
      requires Valid()
      modifies `buf, `n
      ensures Valid() && Filled() == old(Filled()) + EncDebug(d, strip)
    {
      if !strip && d.block != [] {
        Need(|d.block|);
        PutBlock(d.block);
      }
    }

    /** Handing a finished piece to the writer callback. */
    method Send(piece: Bytes)
      requires Valid() && status == 0
      modifies `handed, `status
      ensures Valid() && Sent(answer, old(handed), old(status), handed, status, [piece])
    {
      status := answer(|handed|);
      handed := handed + [piece];
    }

    /** The end of bcwrite_proto: the length is put right before the record. */
    method SendProto(pt: Source)
      requires Valid() && status == 0 && n >= 5 && buf[5..n] == EncData(pt, strip) && ProtoOk(pt, strip)
      modifies this
      ensures Valid() && Sent(answer, old(handed), old(status), handed, status, [EncProto(pt, strip)])
    {
      hide Uleb, EncData, ShallowOk, Sent, Fls;
      var len := n - 5;
      DataSome(pt, strip);
      LengthPrefix(len);
      UlebShort(len);
      var nn := (Fls(len) + 8) * 9 / 64;
      ghost var data := buf[5..n];
      n := 5 - nn;
      ghost var before := Filled();
      PutUleb128(len);
      assert n == 5;
      assert buf[5 - nn..5] == Uleb(len) by {
        assert buf[..5] == before + Uleb(len);
      }
      assert buf[5..5 + len] == data;
      assert buf[5 - nn..5 + len] == buf[5 - nn..5] + buf[5..5 + len];
      Send(buf[5 - nn..5 + len]);
    }

    /** bcwrite_proto: the children from the last constant down, then the prototype itself. */
    method PutProto(pt: Source)
      requires Valid() && AllOk(Order(pt), strip)
      modifies this
      ensures Valid() && Sent(answer, old(handed), old(status), handed, status, EncEach(Order(pt), strip))
      decreases pt, 1
    {
      hide Sent, AllOk, EncAll, EncEach, ProtoOk, Order;
      OrderSplit(pt, strip);
      if HasChild(pt.flags) {
        PutChildren(pt);
      } else {
        NoKids(pt, strip);
        SentNone(answer, handed, status);
      }
      ghost var handed1, status1 := handed, status;
      PutData(pt);
      if status == 0 {
        SendProto(pt);
      } else {
        SentFailed(answer, handed, status, [EncProto(pt, strip)]);
      }
      SentJoin(answer, old(handed), old(status), handed1, status1, handed, status, EncEach(OrderKids(pt.kgc), strip), [EncProto(pt, strip)]);
    }

    /** The loop over the children in bcwrite_proto. */
    method PutChildren(pt: Source)
      requires Valid() && AllOk(OrderKids(pt.kgc), strip)
      modifies this
      ensures Valid() && Sent(answer, old(handed), old(status), handed, status, EncEach(OrderKids(pt.kgc), strip))
      decreases pt, 0
    {
      hide Sent, AllOk, EncAll, EncEach, Order, OrderKids;
      var k := pt.kgc;
      var i := |k|;
      KidsEnd(strip);
      assert k[i..] == [];
      SentNone(answer, handed, status);
      while i > 0
        invariant 0 <= i <= |k| && Valid()
        invariant Sent(answer, old(handed), old(status), handed, status, EncEach(OrderKids(k[i..]), strip))
      {
        i := i - 1;
        KidsStep(k, i, strip);
        if k[i].Child? {
          ghost var handed1, status1 := handed, status;
          PutProto(k[i].pt);
          SentJoin(answer, old(handed), old(status), handed1, status1, handed, status, EncEach(OrderKids(k[i + 1..]), strip),
                   EncEach(Order(k[i].pt), strip));
        }
      }
      assert k[0..] == k;
    }

    /** bcwrite_header */
    method PutHeader(pt: Source, name: Bytes)
      requires Valid() && status == 0 && |name| <= MAX_MEM
      modifies this
      ensures Valid() && Sent(answer, old(handed), old(status), handed, status, [[HEAD1] + EncHeader(pt, name, strip)])
    {
      hide Uleb, Sent;
      n := 0;
      Need(5 + 5 + |name|);
      PutSignature((if strip then F_STRIP else 0) + if pt.flags / 4 % 2 == 1 then F_FFI else 0);
      ghost var f := Filled();
      assert f == [HEAD1, HEAD2, HEAD3, VERSION, EncFlags(pt, strip)];
      if !strip {
        UlebShort(|name|);
        PutUleb128(|name|);
        PutBlock(name);
      }
      assert Filled() == [HEAD1] + EncHeader(pt, name, strip);
      Send(buf[..n]);
    }

    method PutSignature(fl: nat)
      requires Valid() && n == 0 && 5 <= |buf|
      modifies `buf, `n
      ensures Valid() && Filled() == [HEAD1, HEAD2, HEAD3, VERSION, fl] && |buf| == old(|buf|)
    {
      PutByte(HEAD1);
      PutByte(HEAD2);
      PutByte(HEAD3);
      PutByte(VERSION);
      PutByte(fl);
    }

    /** cpwriter: the callback is given the parts of the dump in order, up to the first that it
        refuses, and its answer to that is the status. */
    method Write(pt: Source, name: Bytes)
      requires Valid() && status == 0 && handed == [] && |name| <= MAX_MEM && AllOk(Order(pt), strip)
      modifies this
      ensures Valid() && handed <= Pieces(pt, name, strip) && handed != []
      ensures forall i :: 0 <= i < |handed| - 1 ==> answer(i) == 0
      ensures status == answer(|handed| - 1)
      ensures status == 0 ==> handed == Pieces(pt, name, strip) && Concat(handed) == Dump(pt, name, strip)
    {
      hide Sent, AllOk, EncEach, Order, EncHeader, Dump;
      ghost var head, body := [[HEAD1] + EncHeader(pt, name, strip)], EncEach(Order(pt), strip);
      PutHeader(pt, name);
      ghost var handed1, status1 := handed, status;
      PutProto(pt);
      SentJoin(answer, [], 0, handed1, status1, handed, status, head, body);
      ghost var handed2, status2 := handed, status;
      if status == 0 {
        Send([0]);
      } else {
        SentFailed(answer, handed, status, [[0]]);
      }
      SentJoin(answer, [], 0, handed2, status2, handed, status, head + body, [[0]]);
      SentAll(answer, handed, status, Pieces(pt, name, strip));
      PiecesDump(pt, name, strip);
    }
  }

  // ----------------------------------------------------------------------- counting

  /** The length of the array part up to its last non-nil slot. */
  method CountArray(a: seq<Value>) returns (c: nat)
    ensures c == |Trimmed(a)|
  {
    var i: int := |a| - 1;
    while i >= 0 && a[i].Nil?
      invariant -1 <= i < |a| && forall j :: i < j < |a| ==> a[j].Nil?
    {
      i := i - 1;
    }
    c := i + 1;
  }

  /** The number of used hash slots. */
  method CountHash(t: Template) returns (c: nat)
    requires TemplateOk(t)
    ensures c == |Used(t.nodes)|
  {
    c := 0;
    if |t.nodes| > 1 {
      var i := 0;
      while i < |t.nodes|
        invariant 0 <= i <= |t.nodes| && c == |Used(t.nodes[..i])|
      {
        UsedStep(t.nodes, i);
        c := c + if Live(t.nodes[i]) then 1 else 0;
        i := i + 1;
      }
      assert t.nodes[..i] == t.nodes;
    } else if |t.nodes| == 1 {
      UsedStep(t.nodes, 0);
      assert t.nodes[..1] == t.nodes;
    }
  }

  lemma UsedStep(nodes: seq<Node>, k: nat)
    requires k < |nodes|
    ensures Used(nodes[..k + 1]) == if Live(nodes[k]) then [nodes[k]] + Used(nodes[..k]) else Used(nodes[..k])
  {
    var p := nodes[..k + 1];
    assert p[..|p| - 1] == nodes[..k];
  }

  lemma UsedSome(nodes: seq<Node>)
    ensures Used(nodes) != [] ==> nodes != []
  {
  }

  lemma NoPairs(ps: seq<Node>)
    ensures |ps| == 0 ==> EncPairs(ps) == []
  {
  }

  lemma PairsStep(g: Bytes, p: Node, rest: seq<Node>)
    ensures g + EncValue(p.key) + EncValue(p.val) + EncPairs(rest) == g + EncPairs([p] + rest)
  {
    hide EncValue;
    assert ([p] + rest)[0] == p && ([p] + rest)[1..] == rest;
  }

  lemma NodeOk(t: Template, k: nat)
    requires TemplateOk(t) && k < |t.nodes|
    ensures ValueOk(t.nodes[k].key) && ValueOk(t.nodes[k].val)
  {
  }

  lemma TableCounts(t: Template)
    requires TemplateOk(t)
    ensures |Uleb(|Trimmed(t.slots)|)| <= 5 && |Uleb(|Used(t.nodes)|)| <= 5
  {
    UlebShort(|Trimmed(t.slots)|);
    UlebShort(|Used(t.nodes)|);
  }

  lemma UlebByte(v: nat)
    ensures v < TWO7 ==> |Uleb(v)| == 1
  {
  }

  // ------------------------------------------------------------- the writer callback

  /** After h0 and with status st0, there were more parts for the callback: it was given them
      in order up to the first that it refused; once it has refused, it is not called again. */
  ghost predicate Sent(answer: nat -> int, h0: seq<Bytes>, st0: int, h1: seq<Bytes>, st1: int, more: seq<Bytes>) {
    if st0 != 0 then h1 == h0 && st1 == st0
    else
      && |h0| <= |h1| <= |h0| + |more| && h1 == h0 + more[..|h1| - |h0|]
      && (forall i :: |h0| <= i < |h1| - 1 ==> answer(i) == 0)
      && (h1 == h0 ==> st1 == 0) && (h1 != h0 ==> st1 == answer(|h1| - 1))
      && (st1 == 0 ==> |h1| == |h0| + |more|)
  }

  lemma SentNone(answer: nat -> int, h0: seq<Bytes>, st0: int)
    ensures Sent(answer, h0, st0, h0, st0, [])
  {
    assert h0 + [] == h0;
  }

  lemma SentFailed(answer: nat -> int, h0: seq<Bytes>, st0: int, more: seq<Bytes>)
    requires st0 != 0
    ensures Sent(answer, h0, st0, h0, st0, more)
  {
  }

  lemma SentJoin(answer: nat -> int, h0: seq<Bytes>, st0: int, h1: seq<Bytes>, st1: int, h2: seq<Bytes>, st2: int,
                 x: seq<Bytes>, y: seq<Bytes>)
    requires Sent(answer, h0, st0, h1, st1, x) && Sent(answer, h1, st1, h2, st2, y)
    ensures Sent(answer, h0, st0, h2, st2, x + y)
  {
    if st0 == 0 && st1 == 0 {
      var k := |h2| - |h1|;
      assert (x + y)[..|x| + k] == x + y[..k];
      assert h2 == h0 + (x + y[..k]);
    } else if st0 == 0 {
      assert (x + y)[..|h1| - |h0|] == x[..|h1| - |h0|];
    }
  }

  lemma SentAll(answer: nat -> int, h: seq<Bytes>, st: int, all: seq<Bytes>)
    requires Sent(answer, [], 0, h, st, all) && all != []
    ensures h <= all && h != [] && st == answer(|h| - 1) && (st == 0 ==> h == all)
    ensures forall i :: 0 <= i < |h| - 1 ==> answer(i) == 0
  {
    assert [] + all[..|h|] == all[..|h|];
    assert all[..|all|] == all;
  }

  // -------------------------------------------------------------------- small steps

  lemma JoinThree(a: Bytes, b: Bytes, c: Bytes)
    ensures a + b + c == a + (b + c)
  {
  }

  lemma CopyStep(buf: Bytes, k: nat, b: nat)
    requires k < |buf|
    ensures buf[k := b][..k + 1] == buf[..k] + [b] && buf[k := b][k + 1..] == buf[k + 1..]
  {
  }

  lemma UlebStep(done: Bytes, v: nat)
    requires v >= TWO7
    ensures (done + [v % TWO7 + TWO7]) + Uleb(v / TWO7) == done + Uleb(v)
    ensures |Uleb(v)| == 1 + |Uleb(v / TWO7)|
  {
  }

  lemma UlebLast(done: Bytes, v: nat)
    requires v < TWO7
    ensures done + [v] == done + Uleb(v)
  {
  }

  lemma HeadJoin(f: Bytes, g: Bytes, h: Bytes, r: Bytes, pt: Source, strip: bool)
    requires g == f + [pt.flags % 8, pt.numParams, pt.frameSize, |pt.uv| / 2]
    requires h == g + Uleb(|pt.kgc|) + Uleb(|pt.kn|) + Uleb(|pt.bc| / 4) && r == h + EncLines(pt.dbg, strip)
    ensures r == f + EncHead(pt, strip)
  {
    hide Uleb, EncLines;
  }

  lemma DataJoin(f: Bytes, g: Bytes, h: Bytes, r: Bytes, pt: Source, strip: bool)
    requires g == f + EncHead(pt, strip) + pt.bc + pt.uv
    requires h == g + EncConsts(pt.kgc) + EncNumbers(pt.kn) && r == h + EncDebug(pt.dbg, strip)
    ensures r == f + EncData(pt, strip) && r[|f|..] == EncData(pt, strip)
  {
    hide EncHead, EncConsts, EncNumbers, EncDebug;
  }

  lemma ConstsOk(pt: Source)
    requires ShallowOk(pt)
    ensures forall i :: 0 <= i < |pt.kgc| ==> ConstOk(pt.kgc[i])
    ensures forall i :: 0 <= i < |pt.kn| ==> NumberOk(pt.kn[i])
  {
    hide ConstOk, NumberOk;
  }

  lemma HeadShort(pt: Source)
    requires ShallowOk(pt)
    ensures |Uleb(|pt.kgc|)| <= 5 && |Uleb(|pt.kn|)| <= 5 && |Uleb(|pt.bc| / 4)| <= 5
    ensures |Uleb(|pt.dbg.block|)| <= 5 && |Uleb(pt.dbg.firstLine)| <= 5 && |Uleb(pt.dbg.numLine)| <= 5
  {
    hide Uleb, ConstOk, NumberOk;
    UlebShort(|pt.kgc|);
    UlebShort(|pt.kn|);
    UlebShort(|pt.bc| / 4);
    UlebShort(|pt.dbg.block|);
    UlebShort(pt.dbg.firstLine);
    UlebShort(pt.dbg.numLine);
  }

  lemma DataSome(pt: Source, strip: bool)
    requires ProtoOk(pt, strip)
    ensures 0 < |EncData(pt, strip)| < TWO32
  {
    hide Uleb, ShallowOk, EncConsts, EncNumbers, EncLines;
  }

  lemma AllOkSplit(a: seq<Source>, b: seq<Source>, strip: bool)
    requires AllOk(a + b, strip)
    ensures AllOk(a, strip) && AllOk(b, strip)
  {
    hide ProtoOk;
    forall i | 0 <= i < |a| ensures ProtoOk(a[i], strip) { assert (a + b)[i] == a[i]; }
    forall i | 0 <= i < |b| ensures ProtoOk(b[i], strip) { assert (a + b)[|a| + i] == b[i]; }
  }

  lemma OrderSplit(pt: Source, strip: bool)
    requires AllOk(Order(pt), strip)
    ensures AllOk(OrderKids(pt.kgc), strip) && ProtoOk(pt, strip) && ShallowOk(pt)
    ensures EncEach(Order(pt), strip) == EncEach(OrderKids(pt.kgc), strip) + [EncProto(pt, strip)]
  {
    AllOkSplit(OrderKids(pt.kgc), [pt], strip);
    EncEachJoin(OrderKids(pt.kgc), [pt], strip);
    OneProto(pt, strip);
    assert [pt][0] == pt;
    hide OrderKids, ShallowOk;
  }

  lemma OneProto(pt: Source, strip: bool)
    ensures EncEach([pt], strip) == [EncProto(pt, strip)]
  {
    hide EncProto;
    assert EncAll([pt], strip) == EncProto(pt, strip) + [];
  }

  lemma KidsEnd(strip: bool)
    ensures OrderKids([]) == [] && EncEach([], strip) == []
  {
  }

  lemma KidsStep(k: seq<Const<Template>>, i: nat, strip: bool)
    requires i < |k| && AllOk(OrderKids(k), strip)
    ensures !k[i].Child? ==> OrderKids(k[i..]) == OrderKids(k[i + 1..])
    ensures k[i].Child? ==>
              EncEach(OrderKids(k[i..]), strip) == EncEach(OrderKids(k[i + 1..]), strip) + EncEach(Order(k[i].pt), strip)
    ensures k[i].Child? ==> AllOk(Order(k[i].pt), strip)
  {
    hide AllOk, EncEach, Order;
    assert k[i..][0] == k[i] && k[i..][1..] == k[i + 1..];
    EncEachJoin(OrderKids(k[i + 1..]), OrderKid(k[i]), strip);
    KidsFrom(k, i, strip);
    AllOkSplit(OrderKids(k[i + 1..]), OrderKid(k[i]), strip);
  }

  lemma {:induction false} KidsFrom(k: seq<Const<Template>>, i: nat, strip: bool)
    requires i <= |k| && AllOk(OrderKids(k), strip)
    ensures AllOk(OrderKids(k[i..]), strip)
    decreases i
  {
    hide AllOk, OrderKid;
    if i == 0 {
      assert k[0..] == k;
    } else {
      AllOkSplit(OrderKids(k[1..]), OrderKid(k[0]), strip);
      KidsFrom(k[1..], i - 1, strip);
      assert k[1..][i - 1..] == k[i..];
    }
  }

  lemma NoKids(pt: Source, strip: bool)
    requires ShallowOk(pt) && !HasChild(pt.flags)
    ensures EncEach(OrderKids(pt.kgc), strip) == []
  {
    Childless(pt.kgc);
    hide ConstOk;
  }

  lemma {:induction false} Childless(k: seq<Const<Template>>)
    ensures (forall i :: 0 <= i < |k| ==> !k[i].Child?) ==> OrderKids(k) == []
  {
    if k != [] {
      Childless(k[1..]);
    }
  }
}
