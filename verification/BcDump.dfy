// Writing a dump and reading it again (luajit/src/lj_bcwrite.c, luajit/src/lj_bcread.c).

module BcDump {
  import opened BcFormat
  import opened BcProto
  import opened BcStack
  import opened BcWrite
  import opened BcRead

  /** A loaded prototype says the same as the one that was dumped: the same instructions,
      upvalues, numbers and strings, tables that hold the same for every key, the same
      children in the same slots, and the debug block unless it was stripped. */
  ghost predicate Same(pt: Source, l: Loaded, strip: bool)
    decreases pt, 1
  {
    && l.flags == pt.flags % 8 && l.numParams == pt.numParams && l.frameSize == pt.frameSize
    && l.bc == pt.bc && l.uv == pt.uv && l.kn == pt.kn
    && l.dbg.block == (if strip then [] else pt.dbg.block) && (l.dbg.block != [] ==> l.dbg == pt.dbg)
    && SameConsts(pt.kgc, l.kgc, strip)
  }

  ghost predicate SameConsts(k: seq<Const<Template>>, l: seq<Const<map<Value, Value>>>, strip: bool)
    decreases k, 0
  {
    |l| == |k| && (k != [] ==> SameConst(k[0], l[0], strip) && SameConsts(k[1..], l[1..], strip))
  }

  ghost predicate SameConst(c: Const<Template>, l: Const<map<Value, Value>>, strip: bool)
    decreases c, 0
  {
    match c
    case Child(pt) => l.Child? && Same(pt, l.pt, strip)
    case Table(t) => l.Table? && forall key :: Get(l.t, Canon(key)) == Holds(t, key)
    case Text(s) => l == Text(s)
    case Cdata(tp, words) => l == Cdata(tp, words)
  }

  lemma {:induction false} LoadsSame(pt: Source, strip: bool)
    requires AllOk(Order(pt), strip)
    ensures Same(pt, Loads(pt, strip), strip)
    decreases pt, 1
  {
    OrderSplit(pt, strip);
    ShallowConsts(pt);
    hide SameConsts, AllOk, ShallowOk, EncAll, ConstOk, Order, OrderKids, LoadConsts;
    ConstsSame(pt, pt.kgc, strip);
  }

  lemma {:induction false} ConstsSame(pt: Source, k: seq<Const<Template>>, strip: bool)
    requires AllOk(OrderKids(k), strip) && forall i :: 0 <= i < |k| ==> ConstOk(k[i])
    ensures SameConsts(k, LoadConsts(k, strip), strip)
    decreases k, 0
  {
    hide AllOk, ConstOk, SameConst, LoadConst, OrderKid;
    if k != [] {
      AllOkSplit(OrderKids(k[1..]), OrderKid(k[0]), strip);
      ConstSame(k[0], strip);
      ConstsSame(pt, k[1..], strip);
      assert LoadConsts(k, strip)[1..] == LoadConsts(k[1..], strip);
    }
  }

  lemma {:induction false} ConstSame(c: Const<Template>, strip: bool)
    requires AllOk(OrderKid(c), strip) && ConstOk(c)
    ensures SameConst(c, LoadConst(c, strip), strip)
    decreases c, 0
  {
    hide AllOk, TemplateOk, Same, Loads, Load, Holds, Get, Canon;
    if c.Child? {
      LoadsSame(c.pt, strip);
    } else if c.Table? {
      forall key ensures Get(Load(c.t), Canon(key)) == Holds(c.t, key) {
        LoadKeeps(c.t, key);
      }
    }
  }

  /** The input in blocks of the given sizes, and one more if they do not suffice. */
  function Cut(b: Bytes, sizes: seq<nat>): seq<Bytes>
    decreases sizes
  {
    if b == [] then []
    else if sizes == [] || sizes[0] == 0 || sizes[0] >= |b| then [b]
    else [b[..sizes[0]]] + Cut(b[sizes[0]..], sizes[1..])
  }

  lemma {:induction false} CutWhole(b: Bytes, sizes: seq<nat>)
    ensures Concat(Cut(b, sizes)) == b && forall i :: 0 <= i < |Cut(b, sizes)| ==> Cut(b, sizes)[i] != []
    ensures b != [] ==> Cut(b, sizes) != []
    decreases sizes
  {
    hide Concat;
    NoBlocks();
    if b == [] {
    } else if sizes == [] || sizes[0] == 0 || sizes[0] >= |b| {
      OneBlock(b);
    } else {
      var s := sizes[0];
      CutWhole(b[s..], sizes[1..]);
      OneMore(b[..s], Cut(b[s..], sizes[1..]));
      assert b == b[..s] + b[s..];
    }
  }

  lemma NoBlocks()
    ensures Concat([]) == []
  {
  }

  lemma OneBlock(b: Bytes)
    ensures Concat([b]) == b
  {
    assert [b][1..] == [];
    assert Concat([b]) == b + [];
  }

  lemma OneMore(b: Bytes, rest: seq<Bytes>)
    ensures Concat([b] + rest) == b + Concat(rest)
  {
    assert ([b] + rest)[1..] == rest;
  }

  /** string.dump, and loading what it gave in blocks of any sizes: unless the writer callback
      has refused a part of the dump, the tree comes back. */
  method DumpAndLoad(pt: Source, name: Bytes, strip: bool, answer: nat -> int, sizes: seq<nat>, chunkArg: Bytes)
    returns (status: int, r: Result, loadedName: Bytes)
    requires AllOk(Order(pt), strip) && |name| <= MAX_MEM
    ensures status == 0 <==> forall i :: 0 <= i < |Order(pt)| + 2 ==> answer(i) == 0
    ensures status == 0 ==> r == Ok(Loads(pt, strip)) && Same(pt, r.pt, strip)
    ensures status == 0 ==> loadedName == if strip then chunkArg else name
  {
    hide AllOk, Order, Loads, Same, Boundary, EncAll, EncHeader, Cut, Concat, EncEach, Pieces, Dump;
    var ctx := new BCWriteCtx(strip, answer);
    ctx.Write(pt, name);
    PiecesCount(pt, name, strip);
    status, r, loadedName := ctx.status, Err(BadCode), [];
    if status == 0 {
      r, loadedName := LoadBlocks(Concat(ctx.handed), sizes, chunkArg, pt, name, strip);
      LoadsSame(pt, strip);
    }
  }

  /** Loading a dump that comes in blocks. */
  method LoadBlocks(dump: Bytes, sizes: seq<nat>, chunkArg: Bytes, ghost pt: Source, ghost name: Bytes, ghost strip: bool)
    returns (r: Result, loadedName: Bytes)
    requires AllOk(Order(pt), strip) && |name| <= MAX_MEM && dump == Dump(pt, name, strip)
    ensures r == Ok(Loads(pt, strip)) && loadedName == if strip then chunkArg else name
  {
    hide AllOk, Order, Loads, Boundary, Cut, Concat, Dump;
    CutWhole(dump, sizes);
    DumpSome(pt, name, strip);
    var blocks := Cut(dump, sizes);
    var ls := new LexState(blocks, chunkArg);
    FirstByte(ls.Unread(), blocks[0][0], dump);
    assert dump + [] == dump;
    r := ls.Read(pt, name, strip, []);
    loadedName := ls.chunkName;
  }

  lemma PiecesCount(pt: Source, name: Bytes, strip: bool)
    ensures |Pieces(pt, name, strip)| == |Order(pt)| + 2
  {
    hide EncHeader, Order, EncProto;
  }

  lemma DumpSome(pt: Source, name: Bytes, strip: bool)
    ensures Dump(pt, name, strip) != [] && Dump(pt, name, strip)[0] == HEAD1
  {
    hide EncHeader, Order, EncAll;
  }

  lemma FirstByte(unread: Bytes, b: nat, dump: Bytes)
    requires [b] + unread == dump && dump != []
    ensures dump == [dump[0]] + unread && b == dump[0]
  {
    assert ([b] + unread)[0] == b;
  }

  /** Bytes behind a dump are no error if they come in a block of their own, but they are if
      they come along with its end. */
  lemma JunkAlone(dump: Bytes, junk: Bytes)
    requires |dump| >= 2 && junk != []
    ensures Boundary([dump, junk], |dump|) && !Boundary([dump, junk], |dump| - 1)
    ensures !Boundary([dump + junk], |dump|)
  {
    var c := [dump, junk];
    assert c[..0] == [] && c[..1] == [dump] && c[..2] == c && c[1..] == [junk];
    assert [dump][1..] == [] && [junk][1..] == [];
    assert Concat([dump]) == dump;
    assert Concat(c) == dump + junk by {
      assert Concat([junk]) == junk;
    }
    var d := [dump + junk];
    assert d[..0] == [] && d[..1] == d && d[1..] == [];
    assert Concat(d) == dump + junk;
    assert |Concat(c[..1])| == |dump|;
    hide Concat;
  }

  /** The least there is to dump: a function that returns, inside another one. */
  lemma NestedExample(strip: bool)
    ensures var leaf := Proto(0, 0, 2, [75, 0, 1, 0], [], [], [], Debug(0, 0, []));
            var root := Proto(1, 0, 2, [75, 0, 1, 0], [], [Child(leaf)], [], Debug(0, 0, []));
            Order(root) == [leaf, root] && AllOk(Order(root), strip)
  {
    var leaf: Source := Proto(0, 0, 2, [75, 0, 1, 0], [], [], [], Debug(0, 0, []));
    var root: Source := Proto(1, 0, 2, [75, 0, 1, 0], [], [Child(leaf)], [], Debug(0, 0, []));
    assert OrderKids([]) == [];
    assert Order(leaf) == [leaf];
    assert [Child(leaf)][1..] == [];
    assert OrderKids([Child(leaf)]) == [leaf];
    assert EncConsts([Child(leaf)]) == EncConst(Child(leaf)) + EncConsts([Child(leaf)][1..]);
  }
}
