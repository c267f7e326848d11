// How a reader rebuilds the tree: it keeps loaded prototypes on a stack, and each new one
// takes its children from there (luajit/src/lj_bcread.c).

module BcStack {
  import opened BcFormat
  import opened BcProto

  /** How many constants are children. */
  function Kids(k: seq<Const<Template>>): nat { if k == [] then 0 else (if k[0].Child? then 1 else 0) + Kids(k[1..]) }

  /** The constants, with each child taken from the top of the stack in turn. */
  function Taken(k: seq<Const<Template>>, st: seq<Loaded>, strip: bool): (r: seq<Const<map<Value, Value>>>)
    requires Kids(k) <= |st|
    ensures |r| == |k|
    decreases k
  {
    if k == [] then []
    else if k[0].Child? then [Child(st[|st| - 1])] + Taken(k[1..], st[..|st| - 1], strip)
    else [LoadConst(k[0], strip)] + Taken(k[1..], st, strip)
  }

  /** A prototype put together from its own record and the stack. */
  function Assembled(pt: Source, st: seq<Loaded>, strip: bool): Loaded
    requires Kids(pt.kgc) <= |st|
  {
    Proto(pt.flags % 8, pt.numParams, pt.frameSize, pt.bc, pt.uv, Taken(pt.kgc, st, strip), pt.kn, LoadDebug(pt.dbg, strip))
  }

  /** The stack once the prototype has replaced its children. */
  function After(pt: Source, st: seq<Loaded>, strip: bool): seq<Loaded>
    requires Kids(pt.kgc) <= |st|
  {
    st[..|st| - Kids(pt.kgc)] + [Assembled(pt, st, strip)]
  }

  /** Reading the records one by one turns the stack st into st'. */
  predicate Rebuilds(st: seq<Loaded>, ps: seq<Source>, st': seq<Loaded>, strip: bool)
    decreases ps
  {
    if ps == [] then st' == st else Kids(ps[0].kgc) <= |st| && Rebuilds(After(ps[0], st, strip), ps[1..], st', strip)
  }

  lemma {:induction false} RebuildsJoin(a: seq<Loaded>, ps: seq<Source>, b: seq<Loaded>, qs: seq<Source>, c: seq<Loaded>, strip: bool)
    requires Rebuilds(a, ps, b, strip) && Rebuilds(b, qs, c, strip)
    ensures Rebuilds(a, ps + qs, c, strip)
    decreases ps
  {
    hide After;
    if ps == [] {
      assert ps + qs == qs;
    } else {
      assert (ps + qs)[1..] == ps[1..] + qs;
      RebuildsJoin(After(ps[0], a, strip), ps[1..], b, qs, c, strip);
    }
  }

  /** The children on the stack, the first one on top. */
  function Stacked(k: seq<Const<Template>>, strip: bool): (r: seq<Loaded>)
    ensures |r| == Kids(k)
  {
    if k == [] then [] else Stacked(k[1..], strip) + if k[0].Child? then [Loads(k[0].pt, strip)] else []
  }

  /** Popped from the first constant on, every child lands in its own slot. */
  lemma {:induction false} TakenBack(k: seq<Const<Template>>, st: seq<Loaded>, strip: bool)
    ensures Taken(k, st + Stacked(k, strip), strip) == LoadConsts(k, strip)
    decreases k
  {
    hide Loads, LoadConst;
    if k == [] {
    } else {
      var s := st + Stacked(k, strip);
      if k[0].Child? {
        assert s[|s| - 1] == Loads(k[0].pt, strip) && s[..|s| - 1] == st + Stacked(k[1..], strip);
        ChildLoads(k[0], strip);
      } else {
        assert s == st + Stacked(k[1..], strip);
      }
      TakenBack(k[1..], st, strip);
    }
  }

  lemma ChildLoads(c: Const<Template>, strip: bool)
    requires c.Child?
    ensures LoadConst(c, strip) == Child(Loads(c.pt, strip))
  {
  }

  /** At every depth: the records of a tree, in their order in the dump, leave the whole
      loaded tree on the stack, and nothing else. */
  lemma {:induction false} OrderRebuilds(pt: Source, st: seq<Loaded>, strip: bool)
    ensures Rebuilds(st, Order(pt), st + [Loads(pt, strip)], strip)
    decreases pt, 1
  {
    KidsRebuild(pt.kgc, st, strip);
    LastRebuilds(pt, st, strip);
    hide Rebuilds, Loads;
    RebuildsJoin(st, OrderKids(pt.kgc), st + Stacked(pt.kgc, strip), [pt], st + [Loads(pt, strip)], strip);
  }

  lemma LastRebuilds(pt: Source, st: seq<Loaded>, strip: bool)
    ensures Rebuilds(st + Stacked(pt.kgc, strip), [pt], st + [Loads(pt, strip)], strip)
  {
    TakenBack(pt.kgc, st, strip);
    var s := st + Stacked(pt.kgc, strip);
    assert s[..|s| - Kids(pt.kgc)] == st;
    assert After(pt, s, strip) == st + [Loads(pt, strip)];
    hide After, Loads;
    assert [pt][1..] == [];
  }

  lemma {:induction false} KidsRebuild(k: seq<Const<Template>>, st: seq<Loaded>, strip: bool)
    ensures Rebuilds(st, OrderKids(k), st + Stacked(k, strip), strip)
    decreases k, 0
  {
    hide Rebuilds, Loads;
    if k == [] {
      NoneRebuilds(st, strip);
      assert st + Stacked(k, strip) == st;
    } else {
      KidsRebuild(k[1..], st, strip);
      var mid := st + Stacked(k[1..], strip);
      KidRebuilds(k[0], mid, strip);
      assert st + Stacked(k, strip) == mid + if k[0].Child? then [Loads(k[0].pt, strip)] else [];
      RebuildsJoin(st, OrderKids(k[1..]), mid, OrderKid(k[0]), st + Stacked(k, strip), strip);
    }
  }

  lemma NoneRebuilds(st: seq<Loaded>, strip: bool)
    ensures Rebuilds(st, [], st, strip)
  {
  }

  lemma {:induction false} KidRebuilds(c: Const<Template>, st: seq<Loaded>, strip: bool)
    ensures Rebuilds(st, OrderKid(c), st + if c.Child? then [Loads(c.pt, strip)] else [], strip)
    decreases c, 0
  {
    hide Rebuilds, Loads;
    if c.Child? {
      OrderRebuilds(c.pt, st, strip);
    } else {
      NoneRebuilds(st, strip);
      assert st + [] == st;
    }
  }
}
