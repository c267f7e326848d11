// The bytecode reader (luajit/src/lj_bcread.c), in dual-number mode. Its input comes in
// blocks from a reader callback; ghost parameters name what the unread input encodes.

module BcRead {
  import opened BcFormat
  import opened BcProto
  import opened BcStack

  datatype Error = BadFormat | BadCode

  datatype Result = Ok(pt: Loaded) | Err(error: Error)

  datatype Step = End | Got(pt: Loaded) | Bad

  class LexState {
    const chunks: seq<Bytes>
    const chunkArg: Bytes
    var next: nat
    var buf: Bytes
    var sbn: nat
    var own: bool
    var block: Bytes
    var p: nat
    var n: nat
    var eof: bool
    var flags: nat
    var chunkName: Bytes
    var stack: seq<Loaded>

    /** The cursor is in the own buffer, whose data it reaches the end of, or in the block that
        the callback provided last. */
    ghost predicate Valid()
      reads `next, `buf, `sbn, `own, `block, `p, `n
    {
      && next <= |chunks| && (forall i :: 0 <= i < |chunks| ==> chunks[i] != [])
      && |buf| > 0 && sbn <= |buf| && (sbn > 0 ==> own && p + n == sbn) && (sbn == 0 && n > 0 ==> !own)
      && (if own then p + n <= |buf| else p + n == |block|)
    }

    /** The bytes at the cursor. */
    ghost function Window(): (w: Bytes)
      requires Valid()
      reads `next, `buf, `sbn, `own, `block, `p, `n
      ensures |w| == n
    {
      if own then buf[p..p + n] else block[p..p + n]
    }

    /** All the input that has not been read yet. */
    ghost function Unread(): Bytes
      requires Valid()
      reads `next, `buf, `sbn, `own, `block, `p, `n
    {
      Window() + Concat(chunks[next..])
    }

    /** The block fetched last begins before the place that many bytes from the end. */
    ghost predicate Lazy(after: nat)
      requires Valid()
      reads `next, `buf, `sbn, `own, `block, `p, `n
    {
      next > 0 ==> n - |chunks[next - 1]| < |Unread()| - after
    }

    /** The lexer has fetched the first block and looked at its first byte. */
    constructor (chunks: seq<Bytes>, chunkArg: Bytes)
      requires chunks != [] && forall i :: 0 <= i < |chunks| ==> chunks[i] != []
      ensures this.chunks == chunks && this.chunkArg == chunkArg && Valid() && [chunks[0][0]] + Unread() == Concat(chunks)
      ensures stack == [] && !eof && next == 1 && n == |chunks[0]| - 1
    {
      this.chunks, this.chunkArg, this.next := chunks, chunkArg, 1;
      buf, sbn, own, block, p, n := seq(32, _ => 0), 0, false, chunks[0], 1, |chunks[0]| - 1;
      eof, flags, chunkName, stack := false, 0, [], [];
      new;
      FirstBlock(chunks, block[1..1 + n]);
      hide Concat;
    }

    // ------------------------------------------------------------------ input buffer

    /** bcread_resize */
    method Resize(len: nat)
      requires |buf| > 0
      modifies `buf
      ensures |buf| >= len && |buf| >= old(|buf|) && buf[..old(|buf|)] == old(buf)
    {
      if |buf| < len {
        var sz := |buf| * 2;
        while len > sz
          invariant sz >= |buf| * 2
          decreases len - sz
        {
          sz := sz * 2;
        }
        buf := buf + seq(sz - |buf|, _ => 0);
      }
    }

    /** The first part of a round in bcread_fill: what is left moves to the start of the own
        buffer, since the callback may overwrite its block. */
    method KeepRest(len: nat)
      requires Valid() && n < len
      modifies `buf, `p, `own, `sbn
      ensures Valid() && Window() == old(Window()) && sbn == n && (n > 0 ==> own && p == 0)
    {
      if n > 0 {
        ghost var w := Window();
        if sbn > 0 {
          assert p + n == sbn;
          if n != sbn {
            buf := buf[p..p + n] + buf[n..];
          }
        } else {
          Resize(len);
          buf := block[p..p + n] + buf[n..];
        }
        p, own := 0, true;
        assert buf[..n] == w;
      }
      sbn := n;
    }

    /** The last part of a round: a new block is appended, or taken as it is. */
    method Fetch(len: nat)
      requires Valid() && next < |chunks| && sbn == n && (n > 0 ==> own && p == 0)
      modifies `buf, `p, `n, `own, `sbn, `block, `next
      ensures Valid() && Window() == old(Window()) + chunks[old(next)] && next == old(next) + 1
      ensures n - |chunks[next - 1]| == old(n) < n
    {
      block, next := chunks[next], next + 1;
      if sbn > 0 {
        var m := sbn + |block|;
        ghost var w := Window();
        assert w == buf[..n];
        Resize(if m < len then len else m);
        assert buf[..sbn] == w;
        buf := buf[..sbn] + block + buf[m..];
        n, sbn, p, own := m, m, 0, true;
        assert buf[..m] == w + block;
      } else {
        n, p, own := |block|, 0, false;
        assert block[0..n] == block;
      }
    }

    lemma InRange()
      requires Valid()
      ensures next <= |chunks|
    {
    }

    /** bcread_fill: blocks are fetched until there are enough bytes, or no more. Nothing that
        is unread gets lost, however it is split into blocks. */
    method Fill(len: nat, need: bool) returns (ok: bool)
      requires Valid() && n < len
      modifies `buf, `p, `n, `own, `sbn, `block, `next, `eof
      ensures Valid() && Unread() == old(Unread()) && n >= old(n)
      ensures ok <==> len <= MAX_MEM && !old(eof) && (need ==> |Unread()| >= len)
      ensures ok ==> if |Unread()| >= len then n >= len && !eof else n == |Unread()|
      ensures next > old(next) ==> n - |chunks[next - 1]| < len
      ensures next >= old(next) && (next == old(next) ==> n == old(n))
    {
      hide Concat, Valid;
      if len > MAX_MEM || eof {
        return false;
      }
      InRange();
      while true
        invariant next <= |chunks| && Valid() && !eof && n < len && Unread() == old(Unread()) && n >= old(n)
        invariant next >= old(next) && (next == old(next) ==> n == old(n))
        invariant next > old(next) ==> n - |chunks[next - 1]| < len
        decreases |chunks| - next
      {
        KeepRest(len);
        if next == |chunks| {
          NoChunks(chunks, next);
          assert Unread() == Window();
          if need {
            return false;
          }
          eof := true;
          return true;
        }
        NextChunk(chunks, next, Window());
        Fetch(len);
        if n >= len {
          return true;
        }
      }
    }

    // -------------------------------------------------------------------- primitives

    /** bcread_mem */
    method Mem(len: nat) returns (r: Bytes)
      requires Valid() && len <= n
      modifies `p, `n
      ensures Valid() && r == old(Window())[..len] && Window() == old(Window())[len..]
    {
      r := if own then buf[p..p + len] else block[p..p + len];
      p, n := p + len, n - len;
    }

    /** bcread_block */
    method ReadBlock(len: nat, ghost x: Bytes, ghost tail: Bytes) returns (r: Bytes)
      requires Valid() && len == |x| && Window() == x + tail
      modifies `p, `n
      ensures Valid() && r == x && Window() == tail
    {
      hide Valid, Window;
      r := Mem(len);
    }

    /** bcread_byte */
    method ReadByte() returns (b: nat)
      requires Valid() && n > 0
      modifies `p, `n
      ensures Valid() && b == old(Window())[0] && Window() == old(Window())[1..]
    {
      b := if own then buf[p] else block[p];
      p, n := p + 1, n - 1;
    }

    /** The loop of bcread_uleb128 and bcread_uleb128_33, from a digit of the given weight on. */
    method Digits(v0: nat, weight0: nat, ghost x0: nat, ghost tail: Bytes) returns (v: nat)
      requires Valid() && Window() == Uleb(x0) + tail
      modifies `p, `n
      ensures Valid() && Window() == tail && v == v0 + weight0 * x0
    {
      hide Uleb, Valid, Window;
      var weight: nat := weight0;
      ghost var x: nat := x0;
      v := v0;
      while true
        invariant Valid() && Window() == Uleb(x) + tail && v + weight * x == v0 + weight0 * x0
        decreases x
      {
        UlebHead(x, tail);
        var b := ReadByte();
        WeightStep(v, weight, x);
        v := v + b % TWO7 * weight;
        if b < TWO7 {
          break;
        }
        weight, x := weight * TWO7, x / TWO7;
      }
    }

    /** bcread_uleb128 */
    method ReadUleb128(ghost x: nat, ghost tail: Bytes) returns (v: nat)
      requires Valid() && Window() == Uleb(x) + tail
      modifies `p, `n
      ensures Valid() && Window() == tail && v == x
    {
      hide Uleb, Valid, Window;
      UlebHead(x, tail);
      v := ReadByte();
      if v >= TWO7 {
        v := Digits(v % TWO7, TWO7, x / TWO7, tail);
      }
    }

    /** bcread_uleb128_33: the number without its lowest bit. */
    method ReadUleb128Top(ghost x: nat, ghost tail: Bytes) returns (v: nat)
      requires Valid() && Window() == Uleb(x) + tail
      modifies `p, `n
      ensures Valid() && Window() == tail && v == x / 2
    {
      hide Uleb, Valid, Window;
      UlebHead(x, tail);
      var b := ReadByte();
      v := b / 2;
      if v >= 0x40 {
        v := Digits(v % 0x40, 0x40, x / TWO7, tail);
      }
    }

    // --------------------------------------------------------------------- constants

    /** bcread_ktabk */
    method ReadValue(ghost x: Value, ghost tail: Bytes) returns (v: Value)
      requires Valid() && ValueOk(x) && Window() == EncValue(x) + tail
      modifies `p, `n
      ensures Valid() && Window() == tail && v == x
    {
      hide Uleb, Valid, Window, EncValue;
      ghost var rest := EncRest(x);
      ValueSplit(x, tail);
      var tp := ReadUleb128(Tag(x), rest + tail);
      if tp >= KTAB_STR {
        var s := Mem(tp - KTAB_STR);
        v := Str(s);
      } else if tp == KTAB_INT {
        var u := ReadUleb128(Unsigned(x.k), tail);
        v := Int(Signed(u));
      } else if tp == KTAB_NUM {
        assert rest + tail == Uleb(x.lo) + (Uleb(x.hi) + tail);
        var lo := ReadUleb128(x.lo, Uleb(x.hi) + tail);
        var hi := ReadUleb128(x.hi, tail);
        v := Num(lo, hi);
      } else {
        v := if tp == KTAB_NIL then Nil else if tp == KTAB_FALSE then False else True;
      }
    }

    /** bcread_ktab */
    method ReadTable(ghost t: Template, ghost tail: Bytes) returns (m: map<Value, Value>)
      requires Valid() && TemplateOk(t) && Window() == EncTable(t) + tail
      modifies `p, `n
      ensures Valid() && Window() == tail && m == Load(t)
    {
      hide Uleb, Valid, Window, EncArray, EncPairs, Trimmed, Used, TemplateOk, PutArray, PutPairs;
      ghost var a, ps := Trimmed(t.slots), Used(t.nodes);
      TableSplit(t, tail);
      var nArray := ReadUleb128(|a|, Uleb(|ps|) + (EncArray(a) + (EncPairs(ps) + tail)));
      var nHash := ReadUleb128(|ps|, EncArray(a) + (EncPairs(ps) + tail));
      m := map[];
      TableValues(t);
      m := ReadArray(nArray, a, EncPairs(ps) + tail);
      m := ReadPairs(m, nHash, ps, tail);
    }

    method ReadArray(nArray: nat, ghost a: seq<Value>, ghost tail: Bytes) returns (m: map<Value, Value>)
      requires Valid() && nArray == |a| && (forall i :: 0 <= i < |a| ==> ValueOk(a[i])) && Window() == EncArray(a) + tail
      modifies `p, `n
      ensures Valid() && Window() == tail && m == PutArray(map[], a, 0)
    {
      hide Valid, Window, EncValue, ValueOk, Put;
      m := map[];
      var i := 0;
      assert a[0..] == a;
      while i < nArray
        invariant 0 <= i <= nArray && Valid() && Window() == EncArray(a[i..]) + tail
        invariant PutArray(m, a[i..], i) == PutArray(map[], a, 0)
      {
        assert a[i..][0] == a[i] && a[i..][1..] == a[i + 1..];
        assert EncArray(a[i..]) + tail == EncValue(a[i]) + (EncArray(a[i + 1..]) + tail);
        var v := ReadValue(a[i], EncArray(a[i + 1..]) + tail);
        m := Put(m, Int(i), v);
        i := i + 1;
      }
      assert a[i..] == [];
      assert Window() == [] + tail;
    }

    method ReadPairs(m0: map<Value, Value>, nHash: nat, ghost ps: seq<Node>, ghost tail: Bytes) returns (m: map<Value, Value>)
      requires Valid() && nHash == |ps| && (forall i :: 0 <= i < |ps| ==> ValueOk(ps[i].key) && ValueOk(ps[i].val))
      requires Window() == EncPairs(ps) + tail
      modifies `p, `n
      ensures Valid() && Window() == tail && m == PutPairs(m0, ps)
    {
      hide Valid, Window, EncValue, ValueOk, Put;
      m := m0;
      var i := 0;
      assert ps[0..] == ps;
      while i < nHash
        invariant 0 <= i <= nHash && Valid() && Window() == EncPairs(ps[i..]) + tail
        invariant PutPairs(m, ps[i..]) == PutPairs(m0, ps)
      {
        assert ps[i..][0] == ps[i] && ps[i..][1..] == ps[i + 1..];
        ghost var rest := EncPairs(ps[i + 1..]) + tail;
        assert EncPairs(ps[i..]) + tail == EncValue(ps[i].key) + (EncValue(ps[i].val) + rest);
        var key := ReadValue(ps[i].key, EncValue(ps[i].val) + rest);
        var val := ReadValue(ps[i].val, rest);
        m := Put(m, Canon(key), val);
        i := i + 1;
      }
      assert ps[i..] == [];
      assert Window() == [] + tail;
    }

    /** bcread_kgc: it fails when a child is missing on the stack. */
    method ReadConsts(sizeKgc: nat, ghost strip: bool, ghost k: seq<Const<Template>>, ghost tail: Bytes)
      returns (ok: bool, r: seq<Const<map<Value, Value>>>)
      requires Valid() && sizeKgc == |k| && (forall i :: 0 <= i < |k| ==> ConstOk(k[i])) && Window() == EncConsts(k) + tail
      modifies `p, `n, `stack
      ensures Valid() && (ok <==> Kids(k) <= old(|stack|))
      ensures ok ==> Window() == tail && r == Taken(k, old(stack), strip) && stack == old(stack)[..old(|stack|) - Kids(k)]
    {
      hide Valid, Window, EncConst, ConstOk, LoadConst, Popped, Taken, Kids;
      r := [];
      var i := 0;
      PopBegin(k, stack, strip);
      assert k[0..] == k;
      while i < sizeKgc
        invariant 0 <= i <= sizeKgc && Valid() && Window() == EncConsts(k[i..]) + tail
        invariant Popped(k, i, old(stack), stack, r, strip)
      {
        PopStep(k, i, old(stack), stack, r, strip);
        assert k[i..][0] == k[i] && k[i..][1..] == k[i + 1..];
        assert EncConsts(k[i..]) + tail == EncConst(k[i]) + (EncConsts(k[i + 1..]) + tail);
        var c;
        ok, c := ReadConst(strip, k[i], EncConsts(k[i + 1..]) + tail);
        if !ok {
          return;
        }
        r := r + [c];
        i := i + 1;
      }
      PopEnd(k, old(stack), stack, r, strip);
      assert k[i..] == [];
      assert Window() == [] + tail;
      ok := true;
    }

    /** One round of bcread_kgc. */
    method ReadConst(ghost strip: bool, ghost k: Const<Template>, ghost tail: Bytes)
      returns (ok: bool, c: Const<map<Value, Value>>)
      requires Valid() && ConstOk(k) && Window() == EncConst(k) + tail
      modifies `p, `n, `stack
      ensures Valid() && (ok <==> k.Child? ==> old(stack) != [])
      ensures ok ==> Window() == tail
      ensures ok && k.Child? ==> c == Child(old(stack)[old(|stack|) - 1]) && stack == old(stack)[..old(|stack|) - 1]
      ensures !k.Child? ==> c == LoadConst(k, strip) && stack == old(stack)
    {
      hide Uleb, Valid, Window, EncConst, EncTable, TemplateOk, Load, EncWords, Loads;
      ok := true;
      ConstSplit(k, tail);
      var tp := ReadUleb128(ConstTag(k), ConstRest(k) + tail);
      if tp >= KGC_STR {
        var s := Mem(tp - KGC_STR);
        c := Text(s);
      } else if tp == KGC_TAB {
        var m := ReadTable(k.t, tail);
        c := Table(m);
      } else if tp != KGC_CHILD {
        var words := ReadWords(CdataWords(tp), k.words, tail);
        c := Cdata(tp, words);
      } else {
        if stack == [] {
          c := Text([]);
          return false, c;
        }
        c := Child(stack[|stack| - 1]);
        stack := stack[..|stack| - 1];
      }
    }

    method ReadWords(count: nat, ghost ws: seq<nat>, ghost tail: Bytes) returns (r: seq<nat>)
      requires Valid() && count == |ws| && Window() == EncWords(ws) + tail
      modifies `p, `n
      ensures Valid() && Window() == tail && r == ws
    {
      hide Uleb, Valid, Window;
      r := [];
      assert ws[0..] == ws;
      while |r| < count
        invariant |r| <= count && r == ws[..|r|] && Valid() && Window() == EncWords(ws[|r|..]) + tail
        decreases count - |r|
      {
        ghost var i := |r|;
        assert ws[i..][0] == ws[i] && ws[i..][1..] == ws[i + 1..];
        assert EncWords(ws[i..]) + tail == Uleb(ws[i]) + (EncWords(ws[i + 1..]) + tail);
        var w := ReadUleb128(ws[i], EncWords(ws[i + 1..]) + tail);
        r := r + [w];
      }
      assert ws[|r|..] == [];
      assert Window() == [] + tail;
    }

    /** bcread_knum: the lowest bit tells a number from an integer. */
    method ReadNumbers(sizeKn: nat, ghost k: seq<Number>, ghost tail: Bytes) returns (r: seq<Number>)
      requires Valid() && sizeKn == |k| && (forall i :: 0 <= i < |k| ==> NumberOk(k[i])) && Window() == EncNumbers(k) + tail
      modifies `p, `n
      ensures Valid() && Window() == tail && r == k
    {
      hide Valid, Window, NumberOk, EncNumber;
      r := [];
      assert k[0..] == k;
      while |r| < sizeKn
        invariant |r| <= sizeKn && r == k[..|r|] && Valid() && Window() == EncNumbers(k[|r|..]) + tail
        decreases sizeKn - |r|
      {
        ghost var i := |r|;
        assert k[i..][0] == k[i] && k[i..][1..] == k[i + 1..];
        assert EncNumbers(k[i..]) + tail == EncNumber(k[i]) + (EncNumbers(k[i + 1..]) + tail);
        var x := ReadNumber(k[i], EncNumbers(k[i + 1..]) + tail);
        r := r + [x];
      }
      assert k[|r|..] == [];
      assert Window() == [] + tail;
    }

    method Peek() returns (b: nat)
      requires Valid() && n > 0
      ensures b == Window()[0]
    {
      b := if own then buf[p] else block[p];
    }

    method ReadNumber(ghost k: Number, ghost tail: Bytes) returns (x: Number)
      requires Valid() && NumberOk(k) && Window() == EncNumber(k) + tail
      modifies `p, `n
      ensures Valid() && Window() == tail && x == k
    {
      hide Uleb, Valid, Window, EncNumber;
      NumberSplit(k, tail);
      ghost var w, rest := Twice(k), NumberRest(k) + tail;
      UlebHead(w, rest);
      var first := Peek();
      var isNum := first % 2 == 1;
      var lo := ReadUleb128Top(w, rest);
      if isNum {
        var hi := ReadUleb128(k.hi, tail);
        x := NumK(lo, hi);
      } else {
        x := IntK(Signed(lo));
      }
    }

    // ------------------------------------------------------------------- prototypes

    ghost predicate Strip()
      reads `flags
    {
      flags / F_STRIP % 2 == 1
    }

    /** The head of a prototype in bcread_proto. */
    method ReadHead(ghost pt: Source, ghost tail: Bytes)
      returns (pflags: nat, numParams: nat, frameSize: nat, sizeUv: nat, sizeKgc: nat, sizeKn: nat, sizeBc: nat)
      requires Valid() && Window() == EncHead(pt, Strip()) + tail
      modifies `p, `n
      ensures Valid() && Window() == EncLines(pt.dbg, Strip()) + tail
      ensures pflags == pt.flags % 8 && numParams == pt.numParams && frameSize == pt.frameSize && sizeUv == |pt.uv| / 2
      ensures sizeKgc == |pt.kgc| && sizeKn == |pt.kn| && sizeBc == |pt.bc| / 4 + 1
    {
      hide Uleb, Valid, Window, EncLines, Strip;
      ghost var lines := EncLines(pt.dbg, Strip()) + tail;
      ghost var counts := Uleb(|pt.kgc|) + (Uleb(|pt.kn|) + (Uleb(|pt.bc| / 4) + lines));
      HeadSplit(pt, Strip(), tail);
      pflags := ReadByte();
      numParams := ReadByte();
      frameSize := ReadByte();
      sizeUv := ReadByte();
      assert Window() == counts;
      sizeKgc := ReadUleb128(|pt.kgc|, Uleb(|pt.kn|) + (Uleb(|pt.bc| / 4) + lines));
      sizeKn := ReadUleb128(|pt.kn|, Uleb(|pt.bc| / 4) + lines);
      sizeBc := ReadUleb128(|pt.bc| / 4, lines);
      sizeBc := sizeBc + 1;
    }

    /** The size of the debug block and the line range in bcread_proto. */
    method ReadLines(ghost d: Debug, ghost tail: Bytes) returns (sizeDbg: nat, firstLine: nat, numLine: nat)
      requires Valid() && Window() == EncLines(d, Strip()) + tail
      modifies `p, `n
      ensures Valid() && Window() == tail
      ensures var l := LoadDebug(d, Strip()); sizeDbg == |l.block| && firstLine == l.firstLine && numLine == l.numLine
    {
      hide Uleb, Valid, Window;
      sizeDbg, firstLine, numLine := 0, 0, 0;
      LinesSplit(d, tail);
      if flags / F_STRIP % 2 != 1 {
        ghost var more := if d.block == [] then tail else Uleb(d.firstLine) + (Uleb(d.numLine) + tail);
        sizeDbg := ReadUleb128(|d.block|, more);
        if sizeDbg != 0 {
          firstLine := ReadUleb128(d.firstLine, Uleb(d.numLine) + tail);
          numLine := ReadUleb128(d.numLine, tail);
        }
      }
    }

    /** The record of a prototype, all of which is at the cursor. */
    method ReadData(ghost pt: Source, ghost tail: Bytes) returns (ok: bool, r: Loaded)
      requires Valid() && ShallowOk(pt) && Window() == EncData(pt, Strip()) + tail
      modifies `p, `n, `stack
      ensures Valid() && (ok <==> Kids(pt.kgc) <= old(|stack|))
      ensures ok ==> Window() == tail && r == Assembled(pt, old(stack), Strip())
                     && stack == old(stack)[..old(|stack|) - Kids(pt.kgc)]
    {
      hide Valid, Window, EncHead, EncLines, EncConsts, EncNumbers, ConstOk, NumberOk, Taken, Kids, LoadDebug, Strip, BytesOk;
      ghost var strip := Strip();
      ghost var d := LoadDebug(pt.dbg, strip);
      ghost var rest := EncConsts(pt.kgc) + (EncNumbers(pt.kn) + (d.block + tail));
      DataSplit(pt, strip, tail);
      var pflags, numParams, frameSize, sizeUv, sizeKgc, sizeKn, sizeBc := ReadHead(pt, pt.bc + (pt.uv + rest));
      var sizeDbg, firstLine, numLine := ReadLines(pt.dbg, pt.bc + (pt.uv + rest));
      var bc := ReadBlock((sizeBc - 1) * 4, pt.bc, pt.uv + rest);
      var uv := ReadBlock(sizeUv * 2, pt.uv, rest);
      ShallowConsts(pt);
      var kgc;
      ok, kgc := ReadConsts(sizeKgc, strip, pt.kgc, EncNumbers(pt.kn) + (d.block + tail));
      if !ok {
        r := Proto(0, 0, 0, [], [], [], [], Debug(0, 0, []));
        return;
      }
      var kn := ReadNumbers(sizeKn, pt.kn, d.block + tail);
      var dbg := ReadBlock(sizeDbg, d.block, tail);
      r := Proto(pflags, numParams, frameSize, bc, uv, kgc, kn, Debug(firstLine, numLine, dbg));
    }

    /** bcread_need: that many bytes are at the cursor, and nothing is fetched that is not asked for. */
    method Need(len: nat, ghost after: nat) returns (ok: bool)
      requires Valid() && Lazy(after) && len + after <= |Unread()| && next > 0
      modifies `buf, `p, `n, `own, `sbn, `block, `next, `eof
      ensures Valid() && Unread() == old(Unread()) && Lazy(after) && next > 0
      ensures ok <==> old(n) >= len || (len <= MAX_MEM && !old(eof))
      ensures ok ==> n >= len && eof == old(eof)
    {
      hide Concat, Unread, Valid, Window;
      ok := true;
      if n < len {
        ok := Fill(len, true);
      }
    }

    /** The length of a prototype, behind bcread_want, in bcread_proto. */
    method ReadLength(ghost x: nat, ghost tail: Bytes, ghost after: nat) returns (ok: bool, len: nat)
      requires Valid() && !eof && next > 0 && x < TWO32 && Unread() == Uleb(x) + tail && (x == 0 || |Unread()| >= 5)
      modifies `buf, `p, `n, `own, `sbn, `block, `next, `eof
      ensures Valid() && ok && len == x && Unread() == tail && next > 0
      ensures old(|Unread()|) >= 5 ==> !eof
      ensures old(Lazy(after)) && 5 + after <= old(|Unread()|) ==> Lazy(after)
      ensures x == 0 && old(n) == 0 ==> (n == 0 <==> tail == [])
    {
      hide Concat, Valid, Window, Uleb;
      ok := true;
      if n < 5 {
        ok := Fill(5, false);
      }
      UlebShort(x);
      ZeroShort(x);
      Ahead(Uleb(x), tail);
      ghost var left := Window()[|Uleb(x)|..];
      len := ReadUleb128(x, left);
    }

    /** What is at the cursor begins with x if it is long enough and the unread input does. */
    lemma Ahead(x: Bytes, tail: Bytes)
      requires Valid() && Unread() == x + tail && |x| <= n
      ensures Window() == x + Window()[|x|..] && Window()[|x|..] + Concat(chunks[next..]) == tail
    {
      Apart(Window(), Concat(chunks[next..]), x, tail);
    }

    /** bcread_proto: the next prototype, or the end. */
    method ReadProto(ghost ps: seq<Source>, ghost junk: Bytes) returns (r: Step)
      requires Valid() && !eof && next > 0 && Lazy(|junk| + 1) && AllOk(ps, Strip())
      requires Unread() == EncAll(ps, Strip()) + [0] + junk
      modifies `buf, `p, `n, `own, `sbn, `block, `next, `eof, `stack
      ensures Valid()
      ensures ps == [] ==> r.End? && Unread() == junk && stack == old(stack) && (n == 0 <==> junk == [] || old(n) == 1)
      ensures ps != [] && Kids(ps[0].kgc) > old(|stack|) ==> r.Bad?
      ensures ps != [] && Kids(ps[0].kgc) <= old(|stack|) ==>
                && r == Got(Assembled(ps[0], old(stack), Strip())) && stack == old(stack)[..old(|stack|) - Kids(ps[0].kgc)]
                && !eof && next > 0 && Lazy(|junk| + 1) && Unread() == EncAll(ps[1..], Strip()) + [0] + junk
    {
      hide Concat, Valid, Window, Uleb, EncAll, EncData, ShallowOk, Kids, Assembled, Strip;
      ghost var strip := Strip();
      ghost var more, x, after := Rest(ps, strip, junk), Size(ps, strip), |junk| + 1;
      Records(ps, strip, junk);
      if n > 0 {
        Begins();
        var first := Peek();
        if first == 0 {
          first := ReadByte();
          return End;
        }
      }
      var ok, len := ReadLength(x, more, after);
      if !ok {
        return Bad;
      }
      if len == 0 {
        return End;
      }
      ok := Need(len, after);
      if !ok {
        return Bad;
      }
      var start := n;
      ghost var later := EncAll(ps[1..], strip) + [0] + junk;
      Ahead(EncData(ps[0], strip), later);
      ghost var left := Window()[|EncData(ps[0], strip)|..];
      var pt;
      ok, pt := ReadData(ps[0], left);
      if !ok || len != start - n {
        return Bad;
      }
      r := Got(pt);
    }

    lemma Begins()
      requires Valid() && n > 0
      ensures Unread() != [] && Unread()[0] == Window()[0] && Unread()[1..] == Window()[1..] + Concat(chunks[next..])
    {
    }

    // ------------------------------------------------------------------------- dumps

    /** bcread_header, behind the first byte: whether the header is one that is understood. */
    method ReadHeader(ghost h: Header, ghost tail: Bytes, ghost after: nat) returns (fmt: bool, bad: bool)
      requires Valid() && !eof && next > 0 && Lazy(after) && 13 + after <= |Unread()| && after <= |tail|
      requires Unread() == EncHead5(h) + tail && Word(h.flags) && |h.name| <= MAX_MEM
      modifies `buf, `p, `n, `own, `sbn, `block, `next, `eof, `flags, `chunkName
      ensures Valid() && !bad && (fmt <==> Understood(h))
      ensures fmt ==> flags == h.flags && Unread() == tail && !eof && next > 0 && Lazy(after)
                      && chunkName == if h.flags / F_STRIP % 2 == 1 then chunkArg else h.name
    {
      hide Concat, Valid, Window, Uleb;
      bad := false;
      if n < 13 {
        var ok := Fill(13, false);
        if !ok {
          return false, true;
        }
      }
      ghost var named := EncName(h);
      UlebShort(h.flags);
      HeaderAhead(h, tail);
      Ahead([h.a, h.b, h.c] + Uleb(h.flags), named + tail);
      ghost var left := Window()[|[h.a, h.b, h.c] + Uleb(h.flags)|..];
      fmt := ReadSignature(h, left);
      if !fmt {
        return;
      }
      if flags / F_STRIP % 2 == 1 {
        chunkName := chunkArg;
      } else {
        bad := ReadName(h.name, tail, after);
      }
    }

    /** Signature, version and flags in bcread_header. */
    method ReadSignature(ghost h: Header, ghost left: Bytes) returns (fmt: bool)
      requires Valid() && Window() == ([h.a, h.b, h.c] + Uleb(h.flags)) + left
      modifies `p, `n, `flags
      ensures Valid() && (fmt <==> Understood(h)) && (fmt ==> flags == h.flags && Window() == left)
    {
      hide Valid, Window, Uleb;
      HeaderBytes(h, left);
      var a := ReadByte();
      if a != HEAD2 {
        return false;
      }
      var b := ReadByte();
      if b != HEAD3 {
        return false;
      }
      var c := ReadByte();
      if c != VERSION {
        return false;
      }
      flags := ReadUleb128(h.flags, left);
      fmt := flags < 8;
    }

    /** The name in bcread_header. */
    method ReadName(ghost name: Bytes, ghost tail: Bytes, ghost after: nat) returns (bad: bool)
      requires Valid() && !eof && next > 0 && Lazy(after) && after <= |tail| && |name| <= MAX_MEM
      requires Unread() == Uleb(|name|) + (name + tail) && |Uleb(|name|)| <= n
      modifies `buf, `p, `n, `own, `sbn, `block, `next, `eof, `chunkName
      ensures Valid() && !bad && chunkName == name && Unread() == tail && !eof && next > 0 && Lazy(after)
    {
      hide Concat, Valid, Window, Uleb;
      Ahead(Uleb(|name|), name + tail);
      var len := ReadUleb128(|name|, Window()[|Uleb(|name|)|..]);
      var ok := Need(len, after);
      if !ok {
        return true;
      }
      Ahead(name, tail);
      ghost var w := Window();
      chunkName := Mem(len);
      assert w[..len] == name;
      bad := false;
    }

    /** The loop of lj_bcread over the prototypes of a dump. */
    method ReadProtos(ghost all: seq<Source>, ghost root: Loaded, ghost junk: Bytes) returns (bad: bool)
      requires Valid() && !eof && next > 0 && Lazy(|junk| + 1) && AllOk(all, Strip()) && stack == []
      requires Unread() == EncAll(all, Strip()) + [0] + junk && Rebuilds([], all, [root], Strip())
      modifies `buf, `p, `n, `own, `sbn, `block, `next, `eof, `stack
      ensures Valid() && !bad && stack == [root] && Unread() == junk
      ensures n == 0 <==> junk == [] || (Boundary(chunks, |Concat(chunks)| - |junk|) && !Boundary(chunks, |Concat(chunks)| - |junk| - 1))
    {
      hide Concat, Valid, Window, EncAll, Lazy, Unread, Boundary, AllOk, Assembled, Strip, Kids;
      ghost var ps := all;
      bad := false;
      while true
        invariant Valid() && !eof && next > 0 && Lazy(|junk| + 1) && AllOk(ps, Strip())
        invariant Unread() == EncAll(ps, Strip()) + [0] + junk && Rebuilds(stack, ps, [root], Strip())
        decreases |ps|
      {
        if ps == [] {
          FooterAt(junk, Strip());
        } else {
          NextOk(ps, Strip());
        }
        var r := ReadProto(ps, junk);
        if r.End? {
          break;
        }
        if r.Bad? {
          return true;
        }
        stack := stack + [r.pt];
        ps := ps[1..];
      }
    }

    /** Before the last zero: the window ends with it just if a block ends there and none before it. */
    lemma FooterAt(junk: Bytes, strip: bool)
      requires Valid() && next > 0 && Lazy(|junk| + 1) && Unread() == EncAll([], strip) + [0] + junk
      ensures |Concat(chunks)| > |junk|
      ensures junk == [] || n == 1
         <==> junk == [] || (Boundary(chunks, |Concat(chunks)| - |junk|) && !Boundary(chunks, |Concat(chunks)| - |junk| - 1))
    {
      ConcatSplit(chunks, next);
      ConcatSplit(chunks, next - 1);
      ConcatNext(chunks, next - 1);
      hide Concat, Window;
      LastBlock(chunks, next, |Concat(chunks)| - |junk| - 1, n);
    }

    /** lj_bcread, for a dump that other bytes may follow. It is accepted unless such bytes have
        been fetched along with the end of the dump; what is loaded is the tree that was dumped,
        however the input is split. */
    method Read(ghost pt: Source, ghost name: Bytes, ghost strip: bool, ghost junk: Bytes) returns (r: Result)
      requires Valid() && !eof && next == 1 && stack == [] && chunks != [] && n == |chunks[0]| - 1
      requires [HEAD1] + Unread() == Dump(pt, name, strip) + junk == Concat(chunks)
      requires AllOk(Order(pt), strip) && |name| <= MAX_MEM
      modifies this
      ensures var end := |Dump(pt, name, strip)|;
              r == if junk == [] || (Boundary(chunks, end) && !Boundary(chunks, end - 1)) then Ok(Loads(pt, strip)) else Err(BadCode)
      ensures r.Ok? ==> chunkName == if strip then chunkArg else name
    {
      hide Concat, Valid, Window, EncAll, AllOk, Order, Loads, Boundary, Rebuilds;
      ghost var body := EncAll(Order(pt), strip) + [0] + junk;
      ghost var h := Header(HEAD2, HEAD3, VERSION, EncFlags(pt, strip), name);
      StartsAt(pt, name, strip, junk, Unread());
      OrderRebuilds(pt, [], strip);
      var fmt, bad := ReadHeader(h, body, |junk| + 1);
      if bad {
        return Err(BadCode);
      }
      if !fmt {
        return Err(BadFormat);
      }
      assert [] + [Loads(pt, strip)] == [Loads(pt, strip)];
      bad := ReadProtos(Order(pt), Loads(pt, strip), junk);
      if bad || n > 0 || |stack| != 1 {
        return Err(BadCode);
      }
      r := Ok(stack[0]);
      stack := [];
    }
  }

  // ------------------------------------------------------------------------ headers

  datatype Header = Header(a: nat, b: nat, c: nat, flags: nat, name: Bytes)

  function EncName(h: Header): Bytes { if h.flags / F_STRIP % 2 == 1 then [] else Uleb(|h.name|) + h.name }

  /** A header behind its first byte, whatever it says. */
  function EncHead5(h: Header): Bytes { [h.a, h.b, h.c] + Uleb(h.flags) + EncName(h) }

  /** The right signature and version, and no unknown flags. */
  predicate Understood(h: Header) { h.a == HEAD2 && h.b == HEAD3 && h.c == VERSION && h.flags < 8 }

  lemma HeaderAhead(h: Header, tail: Bytes)
    ensures EncHead5(h) + tail == ([h.a, h.b, h.c] + Uleb(h.flags)) + (EncName(h) + tail)
    ensures |Uleb(|h.name|)| <= 5 || |h.name| > MAX_MEM
    ensures h.flags / F_STRIP % 2 == 1 ==> EncName(h) + tail == tail
    ensures h.flags / F_STRIP % 2 != 1 ==> EncName(h) + tail == Uleb(|h.name|) + (h.name + tail)
  {
    if |h.name| <= MAX_MEM {
      UlebShort(|h.name|);
    }
    hide Uleb;
  }

  lemma HeaderBytes(h: Header, left: Bytes)
    ensures ([h.a, h.b, h.c] + Uleb(h.flags)) + left == [h.a] + ([h.b] + ([h.c] + (Uleb(h.flags) + left)))
  {
    hide Uleb;
  }

  lemma StartsAt(pt: Source, name: Bytes, strip: bool, junk: Bytes, unread: Bytes)
    requires [HEAD1] + unread == Dump(pt, name, strip) + junk && AllOk(Order(pt), strip)
    ensures var body := EncAll(Order(pt), strip) + [0] + junk;
            var h := Header(HEAD2, HEAD3, VERSION, EncFlags(pt, strip), name);
            && unread == EncHead5(h) + body && Understood(h) && Word(h.flags) && (h.flags / F_STRIP % 2 == 1 <==> strip)
            && 13 + |junk| + 1 <= |unread| && |junk| + 1 <= |body|
  {
    OrderSome(pt);
    Records(Order(pt), strip, junk);
    FlagsByte(pt, strip);
    DumpSplit(pt, name, strip, junk);
    hide Uleb, EncAll, AllOk, Order, EncFlags, Dump, Size, Rest, ShallowOk;
    assert ([HEAD1] + unread)[1..] == unread;
  }

  lemma DumpSplit(pt: Source, name: Bytes, strip: bool, junk: Bytes)
    ensures var body := EncAll(Order(pt), strip) + [0] + junk;
            var h := Header(HEAD2, HEAD3, VERSION, EncFlags(pt, strip), name);
            (Dump(pt, name, strip) + junk)[1..] == EncHead5(h) + body && |EncHead5(h)| >= 4
  {
    FlagsByte(pt, strip);
    HeaderIs(pt, name, strip);
    hide Uleb, EncAll, Order, EncFlags, EncHeader, EncHead5;
    Regroup(HEAD1, EncHeader(pt, name, strip), EncAll(Order(pt), strip), junk);
  }

  lemma Regroup(first: nat, x: Bytes, y: Bytes, junk: Bytes)
    ensures ([first] + x + y + [0] + junk)[1..] == x + (y + [0] + junk)
  {
    assert [first] + x + y + [0] + junk == [first] + (x + (y + [0] + junk));
  }

  lemma HeaderIs(pt: Source, name: Bytes, strip: bool)
    ensures var h := Header(HEAD2, HEAD3, VERSION, EncFlags(pt, strip), name);
            EncHead5(h) == EncHeader(pt, name, strip) && |EncHead5(h)| >= 4
  {
    FlagsByte(pt, strip);
    hide Uleb, EncFlags;
  }

  lemma OrderSome(pt: Source)
    ensures Order(pt) != []
  {
  }

  lemma FlagsByte(pt: Source, strip: bool)
    ensures EncFlags(pt, strip) < 8 && (EncFlags(pt, strip) / F_STRIP % 2 == 1 <==> strip)
    ensures Uleb(EncFlags(pt, strip)) == [EncFlags(pt, strip)]
  {
  }

  lemma NextOk(ps: seq<Source>, strip: bool)
    requires ps != [] && AllOk(ps, strip)
    ensures AllOk(ps[1..], strip)
  {
    hide ProtoOk;
  }

  // ---------------------------------------------------------- children on the stack

  /** With the first i constants read, the rest of them find their children on the stack that
      is left, or do not. */
  ghost predicate Popped(k: seq<Const<Template>>, i: nat, st0: seq<Loaded>, st: seq<Loaded>,
                         r: seq<Const<map<Value, Value>>>, strip: bool)
    requires i <= |k|
  {
    && |st| <= |st0| && st == st0[..|st|] && |st| - Kids(k[i..]) == |st0| - Kids(k)
    && (Kids(k[i..]) <= |st| ==> r + Taken(k[i..], st, strip) == Taken(k, st0, strip))
  }

  lemma PopBegin(k: seq<Const<Template>>, st: seq<Loaded>, strip: bool)
    ensures Popped(k, 0, st, st, [], strip)
  {
    hide Kids, Taken;
    assert k[0..] == k && st[..|st|] == st;
    if Kids(k) <= |st| {
      assert [] + Taken(k, st, strip) == Taken(k, st, strip);
    }
  }

  lemma PopStep(k: seq<Const<Template>>, i: nat, st0: seq<Loaded>, st: seq<Loaded>,
                r: seq<Const<map<Value, Value>>>, strip: bool)
    requires i < |k| && Popped(k, i, st0, st, r, strip)
    ensures k[i].Child? && st == [] ==> Kids(k) > |st0|
    ensures k[i].Child? && st != [] ==> Popped(k, i + 1, st0, st[..|st| - 1], r + [Child(st[|st| - 1])], strip)
    ensures !k[i].Child? ==> Popped(k, i + 1, st0, st, r + [LoadConst(k[i], strip)], strip)
  {
    hide LoadConst;
    var rest := k[i..];
    assert rest[0] == k[i] && rest[1..] == k[i + 1..];
    if k[i].Child? {
      if st != [] {
        PopChild(k, i, st, r, strip);
      }
    } else {
      PopOther(k, i, st, r, strip);
    }
    hide Taken;
  }

  lemma PopChild(k: seq<Const<Template>>, i: nat, st: seq<Loaded>, r: seq<Const<map<Value, Value>>>, strip: bool)
    requires i < |k| && k[i].Child? && st != []
    ensures Kids(k[i..]) == Kids(k[i + 1..]) + 1
    ensures Kids(k[i..]) <= |st| ==>
              r + Taken(k[i..], st, strip) == (r + [Child(st[|st| - 1])]) + Taken(k[i + 1..], st[..|st| - 1], strip)
  {
    hide LoadConst;
    var rest := k[i..];
    assert rest[0] == k[i] && rest[1..] == k[i + 1..];
  }

  lemma PopOther(k: seq<Const<Template>>, i: nat, st: seq<Loaded>, r: seq<Const<map<Value, Value>>>, strip: bool)
    requires i < |k| && !k[i].Child?
    ensures Kids(k[i..]) == Kids(k[i + 1..])
    ensures Kids(k[i..]) <= |st| ==>
              r + Taken(k[i..], st, strip) == (r + [LoadConst(k[i], strip)]) + Taken(k[i + 1..], st, strip)
  {
    hide LoadConst;
    var rest := k[i..];
    assert rest[0] == k[i] && rest[1..] == k[i + 1..];
  }

  lemma PopEnd(k: seq<Const<Template>>, st0: seq<Loaded>, st: seq<Loaded>, r: seq<Const<map<Value, Value>>>, strip: bool)
    requires Popped(k, |k|, st0, st, r, strip)
    ensures Kids(k) <= |st0| && st == st0[..|st0| - Kids(k)] && r == Taken(k, st0, strip)
  {
    assert k[|k|..] == [];
    assert r + [] == r;
  }

  // --------------------------------------------------------------------- boundaries

  /** A block ends behind that many bytes of the input. */
  ghost predicate Boundary(chunks: seq<Bytes>, pos: int) {
    exists k :: 0 <= k <= |chunks| && |Concat(chunks[..k])| == pos
  }

  lemma {:induction false} ConcatSplit(chunks: seq<Bytes>, k: nat)
    requires k <= |chunks|
    ensures Concat(chunks) == Concat(chunks[..k]) + Concat(chunks[k..])
  {
    if k == 0 {
      assert chunks[0..] == chunks;
    } else {
      ConcatSplit(chunks[1..], k - 1);
      assert chunks[..k][1..] == chunks[1..][..k - 1];
      assert chunks[1..][k - 1..] == chunks[k..];
    }
  }

  lemma FirstBlock(chunks: seq<Bytes>, w: Bytes)
    requires chunks != [] && chunks[0] != [] && w == chunks[0][1..]
    ensures [chunks[0][0]] + (w + Concat(chunks[1..])) == Concat(chunks)
  {
    assert [chunks[0][0]] + w == chunks[0];
    assert [chunks[0][0]] + (w + Concat(chunks[1..])) == ([chunks[0][0]] + w) + Concat(chunks[1..]);
  }

  lemma ConcatNext(chunks: seq<Bytes>, k: nat)
    requires k < |chunks|
    ensures |Concat(chunks[k..])| == |chunks[k]| + |Concat(chunks[k + 1..])|
  {
    assert chunks[k..][1..] == chunks[k + 1..];
  }

  lemma {:induction false} Later(chunks: seq<Bytes>, j: nat, k: nat)
    requires j <= k <= |chunks|
    ensures |Concat(chunks[..j])| <= |Concat(chunks[..k])|
  {
    if j == 0 {
      assert chunks[..0] == [];
    } else {
      Later(chunks[1..], j - 1, k - 1);
      assert chunks[..j][1..] == chunks[1..][..j - 1];
      assert chunks[..k][1..] == chunks[1..][..k - 1];
    }
  }

  /** The block fetched last begins before e and ends m bytes behind it. */
  lemma LastBlock(chunks: seq<Bytes>, next: nat, e: nat, m: nat)
    requires 0 < next <= |chunks| && |Concat(chunks[..next])| == e + m && |Concat(chunks[..next - 1])| < e
    ensures m == 1 <==> Boundary(chunks, e + 1) && !Boundary(chunks, e)
  {
    hide Concat;
    forall k | 0 <= k <= |chunks|
      ensures k < next ==> |Concat(chunks[..k])| < e
      ensures k >= next ==> |Concat(chunks[..k])| >= e + m
    {
      if k < next {
        Later(chunks, k, next - 1);
      } else {
        Later(chunks, next, k);
      }
    }
    if m == 1 || m == 0 {
      assert |Concat(chunks[..next])| == e + m;
    }
  }

  // ------------------------------------------------------------------- decoding steps

  /** The first digit of a number, and what follows. */
  lemma UlebHead(x: nat, tail: Bytes)
    ensures var w := Uleb(x) + tail;
            if x < TWO7 then w[0] == x && w[1..] == tail
            else w[0] == x % TWO7 + TWO7 && w[1..] == Uleb(x / TWO7) + tail
    ensures (Uleb(x) + tail)[0] % 2 == x % 2 && |Uleb(x) + tail| > 0
    ensures x >= TWO7 ==> (Uleb(x) + tail)[0] / 2 % 0x40 + 0x40 * (x / TWO7) == x / 2
    ensures (Uleb(x) + tail)[0] < 0x100
  {
    var w := Uleb(x) + tail;
    if x >= TWO7 {
      assert w == [x % TWO7 + TWO7] + (Uleb(x / TWO7) + tail);
    }
  }

  lemma WeightStep(v: nat, weight: nat, x: nat)
    ensures v + x % TWO7 * weight + weight * TWO7 * (x / TWO7) == v + weight * x
    ensures x >= TWO7 ==> (x % TWO7 + TWO7) % TWO7 == x % TWO7
  {
    var q, r := x / TWO7, x % TWO7;
    assert x == q * TWO7 + r;
    assert weight * x == weight * (q * TWO7) + weight * r;
    assert weight * (q * TWO7) == weight * TWO7 * q;
  }

  function Tag(v: Value): nat {
    match v
    case Nil => KTAB_NIL
    case False => KTAB_FALSE
    case True => KTAB_TRUE
    case Int(_) => KTAB_INT
    case Num(_, _) => KTAB_NUM
    case Str(s) => KTAB_STR + |s|
  }

  function EncRest(v: Value): Bytes {
    match v
    case Int(k) => if Int32(k) then Uleb(Unsigned(k)) else []
    case Num(lo, hi) => Uleb(lo) + Uleb(hi)
    case Str(s) => s
    case _ => []
  }

  lemma ValueSplit(v: Value, tail: Bytes)
    ensures EncValue(v) + tail == Uleb(Tag(v)) + (EncRest(v) + tail)
    ensures v.Str? ==> (EncRest(v) + tail)[..|v.s|] == v.s && (EncRest(v) + tail)[|v.s|..] == tail
    ensures v.Int? && ValueOk(v) ==> EncRest(v) + tail == Uleb(Unsigned(v.k)) + tail && Signed(Unsigned(v.k)) == v.k
                                     && Unsigned(v.k) >= 0
    ensures v.Nil? || v.False? || v.True? ==> EncRest(v) + tail == tail
  {
    SmallTag(Tag(v));
    hide Uleb;
  }

  lemma SmallTag(t: nat)
    ensures t < TWO7 ==> Uleb(t) == [t]
  {
  }

  lemma TableSplit(t: Template, tail: Bytes)
    ensures var a, ps := Trimmed(t.slots), Used(t.nodes);
            EncTable(t) + tail == Uleb(|a|) + (Uleb(|ps|) + (EncArray(a) + (EncPairs(ps) + tail)))
  {
    hide Uleb, EncArray, EncPairs, Trimmed, Used;
  }

  lemma TableValues(t: Template)
    requires TemplateOk(t)
    ensures forall i :: 0 <= i < |Trimmed(t.slots)| ==> ValueOk(Trimmed(t.slots)[i])
    ensures forall i :: 0 <= i < |Used(t.nodes)| ==> ValueOk(Used(t.nodes)[i].key) && ValueOk(Used(t.nodes)[i].val)
  {
    NodesOk(t);
    UsedValues(t.nodes);
    hide ValueOk, Used, Trimmed;
  }

  predicate PairsOk(ps: seq<Node>) { forall i :: 0 <= i < |ps| ==> ValueOk(ps[i].key) && ValueOk(ps[i].val) }

  lemma NodesOk(t: Template)
    requires TemplateOk(t)
    ensures PairsOk(t.nodes)
  {
    hide ValueOk;
  }

  lemma {:induction false} UsedValues(nodes: seq<Node>)
    requires PairsOk(nodes)
    ensures PairsOk(Used(nodes))
  {
    hide ValueOk;
    if nodes != [] {
      UsedValues(nodes[..|nodes| - 1]);
    }
  }

  function ConstTag(c: Const<Template>): nat {
    match c
    case Child(_) => KGC_CHILD
    case Table(_) => KGC_TAB
    case Text(s) => KGC_STR + |s|
    case Cdata(tp, _) => tp
  }

  function ConstRest(c: Const<Template>): Bytes {
    match c
    case Child(_) => []
    case Table(t) => EncTable(t)
    case Text(s) => s
    case Cdata(_, words) => EncWords(words)
  }

  lemma ConstSplit(c: Const<Template>, tail: Bytes)
    ensures EncConst(c) + tail == Uleb(ConstTag(c)) + (ConstRest(c) + tail)
    ensures c.Text? ==> (ConstRest(c) + tail)[..|c.s|] == c.s && (ConstRest(c) + tail)[|c.s|..] == tail
    ensures c.Child? ==> ConstRest(c) + tail == tail
  {
    hide Uleb, EncTable, EncWords;
  }

  /** A number as it is written, in 33 bits. */
  function Twice(x: Number): nat {
    if x.IntK? then (if Int32(x.k) then 2 * Unsigned(x.k) else 0) else 2 * x.lo + 1
  }

  function NumberRest(x: Number): Bytes { if x.IntK? then [] else Uleb(x.hi) }

  lemma NumberSplit(x: Number, tail: Bytes)
    requires NumberOk(x)
    ensures EncNumber(x) + tail == Uleb(Twice(x)) + (NumberRest(x) + tail)
    ensures x.IntK? ==> NumberRest(x) + tail == tail && Signed(Twice(x) / 2) == x.k
  {
    hide Uleb;
  }

  lemma HeadSplit(pt: Source, strip: bool, tail: Bytes)
    ensures EncHead(pt, strip) + tail
         == [pt.flags % 8] + ([pt.numParams] + ([pt.frameSize] + ([|pt.uv| / 2]
            + (Uleb(|pt.kgc|) + (Uleb(|pt.kn|) + (Uleb(|pt.bc| / 4) + (EncLines(pt.dbg, strip) + tail)))))))
  {
    hide Uleb, EncLines;
  }

  lemma LinesSplit(d: Debug, tail: Bytes)
    ensures EncLines(d, true) + tail == tail
    ensures EncLines(d, false) + tail
         == Uleb(|d.block|) + if d.block == [] then tail else Uleb(d.firstLine) + (Uleb(d.numLine) + tail)
  {
    hide Uleb;
  }

  lemma DataSplit(pt: Source, strip: bool, tail: Bytes)
    ensures EncData(pt, strip) + tail
         == EncHead(pt, strip) + (pt.bc + (pt.uv + (EncConsts(pt.kgc) + (EncNumbers(pt.kn) + (LoadDebug(pt.dbg, strip).block + tail)))))
  {
    hide EncHead, EncConsts, EncNumbers;
  }

  lemma ShallowConsts(pt: Source)
    requires ShallowOk(pt)
    ensures forall i :: 0 <= i < |pt.kgc| ==> ConstOk(pt.kgc[i])
    ensures forall i :: 0 <= i < |pt.kn| ==> NumberOk(pt.kn[i])
  {
    hide ConstOk, NumberOk;
  }

  lemma Apart(w: Bytes, rest: Bytes, x: Bytes, tail: Bytes)
    requires w + rest == x + tail && |x| <= |w|
    ensures w == x + w[|x|..] && w[|x|..] + rest == tail
  {
    var all := w + rest;
    assert all[..|x|] == x && all[..|x|] == w[..|x|];
    assert all[|x|..] == tail && all[|x|..] == w[|x|..] + rest;
  }

  lemma ZeroShort(x: nat)
    ensures x == 0 ==> |Uleb(x)| == 1
  {
  }

  /** The number that comes next: the length of a record, or the zero at the end. */
  ghost function Size(ps: seq<Source>, strip: bool): nat { if ps == [] then 0 else |EncData(ps[0], strip)| }

  /** The input behind that number. */
  ghost function Rest(ps: seq<Source>, strip: bool, junk: Bytes): Bytes {
    if ps == [] then junk else EncData(ps[0], strip) + (EncAll(ps[1..], strip) + [0] + junk)
  }

  lemma Records(ps: seq<Source>, strip: bool, junk: Bytes)
    requires AllOk(ps, strip)
    ensures var all := EncAll(ps, strip) + [0] + junk;
            && all == Uleb(Size(ps, strip)) + Rest(ps, strip, junk) && Size(ps, strip) <= MAX_MEM
            && all != [] && (all[0] == 0 <==> ps == [])
            && (ps == [] ==> all[1..] == junk)
            && (ps != [] ==> Size(ps, strip) >= 11 && |all| >= 13 + |junk| && ShallowOk(ps[0]) && AllOk(ps[1..], strip))
  {
    UlebFirst(Size(ps, strip));
    hide EncData, ShallowOk, Uleb;
    if ps == [] {
      assert EncAll(ps, strip) + [0] + junk == [0] + junk;
    } else {
      SomeRecord(ps, strip, junk);
    }
  }

  lemma SomeRecord(ps: seq<Source>, strip: bool, junk: Bytes)
    requires ps != [] && AllOk(ps, strip)
    ensures var data := EncData(ps[0], strip);
            var all := EncAll(ps, strip) + [0] + junk;
            && all == Uleb(|data|) + (data + (EncAll(ps[1..], strip) + [0] + junk)) && all[0] != 0
            && 11 <= |data| <= MAX_MEM && |all| >= 13 + |junk| && ShallowOk(ps[0]) && AllOk(ps[1..], strip)
  {
    assert ProtoOk(ps[0], strip);
    DataSize(ps[0], strip);
    NextOk(ps, strip);
    var data := EncData(ps[0], strip);
    UlebFirst(|data|);
    AllFirst(ps, strip);
    hide Uleb, ShallowOk, EncData, AllOk, EncAll;
    Nested(Uleb(|data|), data, EncAll(ps[1..], strip), junk);
  }

  lemma AllFirst(ps: seq<Source>, strip: bool)
    requires ps != []
    ensures EncAll(ps, strip) == Uleb(|EncData(ps[0], strip)|) + EncData(ps[0], strip) + EncAll(ps[1..], strip)
  {
    hide Uleb, EncData;
  }

  lemma Nested(a: Bytes, b: Bytes, c: Bytes, junk: Bytes)
    requires a != []
    ensures (a + b + c) + [0] + junk == a + (b + (c + [0] + junk))
    ensures ((a + b + c) + [0] + junk)[0] == a[0]
  {
  }

  lemma UlebFirst(x: nat)
    ensures (Uleb(x)[0] == 0 <==> x == 0) && |Uleb(x)| >= 1 && (x == 0 ==> Uleb(x) == [0])
  {
  }

  lemma DataSize(pt: Source, strip: bool)
    requires ShallowOk(pt)
    ensures |EncData(pt, strip)| >= 11
  {
    hide Uleb, ConstOk, NumberOk, EncConsts, EncNumbers, EncLines, BytesOk;
  }

  lemma NoChunks(chunks: seq<Bytes>, next: nat)
    requires next == |chunks|
    ensures Concat(chunks[next..]) == []
  {
  }

  lemma NextChunk(chunks: seq<Bytes>, next: nat, w: Bytes)
    requires next < |chunks|
    ensures w + Concat(chunks[next..]) == (w + chunks[next]) + Concat(chunks[next + 1..])
  {
    assert chunks[next..][1..] == chunks[next + 1..];
  }
}
