// References into a table, and the list of free ones that is kept inside it
// (luajit/src/lib_aux.c).

module RefTable {

  const FREELIST_REF := 0
  const REFNIL := -1

  datatype Value = Nil | Integer(k: int) | Object(id: nat)

  type Slots = map<int, Value>

  /** lua_rawgeti and lua_rawseti: a nil value and no value are the same. */
  function Get(t: Slots, i: int): Value { if i in t then t[i] else Nil }

  function Set(t: Slots, i: int, v: Value): Slots { if v.Nil? then t - {i} else t[i := v] }

  /** lua_tointeger */
  function ToInteger(v: Value): int { if v.Integer? then v.k else 0 }

  /** lua_objlen may return any border of a table. */
  predicate Border(t: Slots, n: nat) {
    (n == 0 || !Get(t, n).Nil?) && Get(t, n + 1).Nil?
  }

  // ------------------------------------------------------ the two calls on values

  /** lua_objlen is asked only when there is no free reference. */
  predicate LengthOk(t: Slots, objlen: nat) { ToInteger(Get(t, FREELIST_REF)) == 0 ==> Border(t, objlen) }

  /** The reference that luaL_ref gives out for a non-nil value. */
  function NextRef(t: Slots, objlen: nat): int {
    var ref := ToInteger(Get(t, FREELIST_REF));
    if ref != 0 then ref else objlen + 1
  }

  function AfterRef(t: Slots, v: Value, objlen: nat): Slots {
    var ref := ToInteger(Get(t, FREELIST_REF));
    Set(if ref != 0 then Set(t, FREELIST_REF, Get(t, ref)) else t, NextRef(t, objlen), v)
  }

  function AfterUnref(t: Slots, ref: int): Slots {
    if ref >= 0 then Set(Set(t, ref, Get(t, FREELIST_REF)), FREELIST_REF, Integer(ref)) else t
  }

  // ------------------------------------------------------------------- invariants

  /** The list of free references, from the slot that points to it. Its last slot holds no
      reference. */
  predicate Chain(t: Slots, from: int, free: seq<int>)
    decreases free
  {
    if free == [] then ToInteger(Get(t, from)) == 0
    else free[0] > 0 && Get(t, from) == Integer(free[0]) && Chain(t, free[0], free[1..])
  }

  predicate NoRepeats(s: seq<int>) { forall i, j :: 0 <= i < j < |s| ==> s[i] != s[j] }

  ghost predicate LiveOk(t: Slots, live: map<int, Value>, free: seq<int>) {
    forall i :: i in live ==> i > 0 && i !in free && !live[i].Nil? && Get(t, i) == live[i]
  }

  /** Live references hold their values, and the list of free ones stays clear of them. */
  ghost predicate RefsOk(t: Slots, live: map<int, Value>, free: seq<int>) {
    Chain(t, FREELIST_REF, free) && NoRepeats(free) && LiveOk(t, live, free)
  }

  /** The references from 1 to n have been given out: each is live or in the list. */
  ghost predicate Dense(t: Slots, live: map<int, Value>, free: seq<int>, n: nat) {
    (forall i :: 1 <= i <= n <==> i in live || i in free) && NothingBehind(t, n)
  }

  ghost predicate NothingBehind(t: Slots, n: nat) { forall i :: i > n ==> Get(t, i).Nil? }

  lemma BehindKept(t: Slots, n: nat, i: int, v: Value)
    requires NothingBehind(t, n) && i <= n
    ensures NothingBehind(Set(t, i, v), n)
  {
    forall j | j > n ensures Get(Set(t, i, v), j).Nil? {
      assert Get(t, j).Nil?;
    }
  }

  lemma BehindGrown(t: Slots, n: nat, m: nat, v: Value)
    requires NothingBehind(t, n) && m == n + 1
    ensures NothingBehind(Set(t, m, v), m)
  {
    forall j | j > m ensures Get(Set(t, m, v), j).Nil? {
      assert Get(t, j).Nil?;
    }
  }

  lemma LiveKept(t: Slots, live: map<int, Value>, free: seq<int>, i: int, v: Value)
    requires LiveOk(t, live, free) && i !in live
    ensures LiveOk(Set(t, i, v), live, free)
  {
  }

  lemma LiveAdded(t: Slots, live: map<int, Value>, free: seq<int>, i: int, v: Value)
    requires LiveOk(t, live, free) && i !in free && i > 0 && !v.Nil?
    ensures LiveOk(Set(t, i, v), live[i := v], free)
  {
  }

  lemma LiveFewer(t: Slots, live: map<int, Value>, free: seq<int>, i: int, free': seq<int>)
    requires LiveOk(t, live, free) && forall j :: j in free' ==> j in free || j == i
    ensures LiveOk(t, live - {i}, free')
  {
  }

  /** A chain does not depend on slots that are not in it. */
  lemma {:induction false} ChainOther(t: Slots, from: int, free: seq<int>, i: int, v: Value)
    requires Chain(t, from, free) && i != from && i !in free
    ensures Chain(Set(t, i, v), from, free)
    decreases free
  {
    if free != [] {
      assert free[0] in free;
      ChainOther(t, free[0], free[1..], i, v);
    }
  }

  lemma ChainPositive(t: Slots, from: int, free: seq<int>)
    requires Chain(t, from, free)
    ensures forall i <- free :: i > 0
    decreases free
  {
    if free != [] {
      ChainPositive(t, free[0], free[1..]);
      assert free == [free[0]] + free[1..];
    }
  }

  lemma Head(t: Slots, live: map<int, Value>, free: seq<int>)
    requires RefsOk(t, live, free)
    ensures ToInteger(Get(t, FREELIST_REF)) == if free == [] then 0 else free[0]
    ensures free != [] ==> free[0] > 0
  {
  }

  lemma RestOfFree(free: seq<int>)
    requires NoRepeats(free) && free != []
    ensures NoRepeats(free[1..]) && free[0] !in free[1..] && forall i <- free[1..] :: i in free
  {
    var rest := free[1..];
    forall i <- rest ensures i in free && i != free[0] {
      var j :| 0 <= j < |rest| && rest[j] == i;
      assert free[j + 1] == i;
    }
  }

  // ------------------------------------------------------------------- transitions

  /** The first free reference is taken from the list. */
  lemma TakeFree(t: Slots, live: map<int, Value>, free: seq<int>, v: Value, objlen: nat)
    requires RefsOk(t, live, free) && free != [] && !v.Nil?
    ensures NextRef(t, objlen) == free[0] > 0 && free[0] !in live
    ensures RefsOk(AfterRef(t, v, objlen), live[free[0] := v], free[1..])
  {
    var r, rest := free[0], free[1..];
    var t1 := Set(t, FREELIST_REF, Get(t, r));
    assert r in free;
    ChainPositive(t, FREELIST_REF, free);
    RestOfFree(free);
    ChainHead(t, r, rest);
    ChainOther(t1, FREELIST_REF, rest, r, v);
    LiveFewer(t, live, free, 0, rest);
    assert live - {0} == live;
    LiveKept(t, live, rest, FREELIST_REF, Get(t, r));
    LiveAdded(t1, live, rest, r, v);
    hide LiveOk, Chain, Set;
  }

  lemma ChainHead(t: Slots, r: int, rest: seq<int>)
    requires Chain(t, r, rest) && FREELIST_REF !in rest && r != 0
    ensures Chain(Set(t, FREELIST_REF, Get(t, r)), FREELIST_REF, rest)
  {
    if rest != [] {
      ChainOther(t, rest[0], rest[1..], FREELIST_REF, Get(t, r));
    }
  }

  /** Without free references, a slot behind a border is given out: it is not live, since live
      references hold values. */
  lemma TakeNew(t: Slots, live: map<int, Value>, v: Value, objlen: nat)
    requires RefsOk(t, live, []) && Border(t, objlen) && !v.Nil?
    ensures NextRef(t, objlen) == objlen + 1 && objlen + 1 !in live
    ensures RefsOk(AfterRef(t, v, objlen), live[objlen + 1 := v], [])
  {
    LiveAdded(t, live, [], objlen + 1, v);
    ChainOther(t, FREELIST_REF, [], objlen + 1, v);
  }

  /** With all references from 1 to n given out and none of them free, there is one border, and
      the next reference goes behind it. */
  lemma BorderIs(t: Slots, live: map<int, Value>, n: nat, border: nat)
    requires RefsOk(t, live, []) && Dense(t, live, [], n) && Border(t, border)
    ensures border == n && n + 1 !in live
  {
    assert border + 1 <= n ==> border + 1 in live;
  }

  /** The list of free references once ref has been given back. */
  function FreeAfter(free: seq<int>, ref: int): seq<int> {
    if ref < 0 then free else if ref == 0 then [] else [ref] + free
  }

  /** Any reference that is not in the list may be given back. One that is not positive loses
      the list, or does nothing. */
  lemma GiveBack(t: Slots, live: map<int, Value>, free: seq<int>, r: int)
    requires RefsOk(t, live, free) && r !in free
    ensures RefsOk(AfterUnref(t, r), live - {r}, FreeAfter(free, r))
  {
    ChainPositive(t, FREELIST_REF, free);
    if r <= 0 {
      LiveFewer(t, live, free, r, FreeAfter(free, r));
      assert live - {r} == live;
      if r == 0 {
        var t1 := Set(t, 0, Get(t, FREELIST_REF));
        LiveKept(t, live, [], 0, Get(t, FREELIST_REF));
        LiveKept(t1, live, [], FREELIST_REF, Integer(0));
      }
    } else {
      GiveBackPositive(t, live, free, r);
    }
  }

  lemma GiveBackPositive(t: Slots, live: map<int, Value>, free: seq<int>, r: int)
    requires RefsOk(t, live, free) && r !in free && r > 0 && forall i <- free :: i > 0
    ensures RefsOk(AfterUnref(t, r), live - {r}, [r] + free)
  {
    var t1 := Set(t, r, Get(t, FREELIST_REF));
    if free != [] {
      assert free[0] in free;
      ChainOther(t, free[0], free[1..], r, Get(t, FREELIST_REF));
    }
    assert Chain(t1, r, free);
    ChainOther(t1, r, free, FREELIST_REF, Integer(r));
    assert ([r] + free)[1..] == free;
    LiveFewer(t, live, free, r, [r] + free);
    LiveKept(t, live - {r}, [r] + free, r, Get(t, FREELIST_REF));
    LiveKept(t1, live - {r}, [r] + free, FREELIST_REF, Integer(r));
    hide LiveOk, Set;
  }

  lemma DenseTaken(t: Slots, live: map<int, Value>, free: seq<int>, n: nat, v: Value, objlen: nat)
    requires RefsOk(t, live, free) && Dense(t, live, free, n) && free != [] && !v.Nil?
    ensures Dense(AfterRef(t, v, objlen), live[free[0] := v], free[1..], n)
  {
    Head(t, live, free);
    RestOfFree(free);
    var r := free[0];
    assert r in free && free == [r] + free[1..];
    BehindKept(t, n, FREELIST_REF, Get(t, r));
    BehindKept(Set(t, FREELIST_REF, Get(t, r)), n, r, v);
    hide NothingBehind, Set, Chain, LiveOk;
  }

  lemma DenseNew(t: Slots, live: map<int, Value>, n: nat, v: Value)
    requires RefsOk(t, live, []) && Dense(t, live, [], n) && !v.Nil?
    ensures Dense(AfterRef(t, v, n), live[n + 1 := v], [], n + 1)
  {
    BehindGrown(t, n, n + 1, v);
    hide NothingBehind;
  }

  lemma DenseGiven(t: Slots, live: map<int, Value>, free: seq<int>, n: nat, r: int)
    requires RefsOk(t, live, free) && Dense(t, live, free, n) && (r < 0 || r in live)
    ensures Dense(AfterUnref(t, r), live - {r}, FreeAfter(free, r), n)
  {
    if r in live {
      BehindKept(t, n, r, Get(t, FREELIST_REF));
      BehindKept(Set(t, r, Get(t, FREELIST_REF)), n, FREELIST_REF, Integer(r));
    } else {
      assert live - {r} == live;
    }
    hide NothingBehind, Set, LiveOk;
  }

  class Registry {
    var slots: Slots
    ghost var live: map<int, Value>
    ghost var free: seq<int>
    ghost var issued: nat

    ghost predicate Valid()
      reads this
    {
      RefsOk(slots, live, free)
    }

    /** Only live references have been given back. */
    ghost predicate Orderly()
      reads this
    {
      Dense(slots, live, free, issued)
    }

    constructor ()
      ensures Valid() && Orderly() && live == map[] && slots == map[]
    {
      slots, live, free, issued := map[], map[], [], 0;
    }

    /** luaL_ref, with what lua_objlen happens to return if it is asked: the reference is not
        live, and the live ones keep their values. */
    method Ref(v: Value, objlen: nat) returns (ref: int)
      requires Valid() && LengthOk(slots, objlen)
      modifies this
      ensures Valid() && (old(Orderly()) ==> Orderly())
      ensures v.Nil? ==> ref == REFNIL && live == old(live) && slots == old(slots)
      ensures !v.Nil? ==> ref > 0 && ref !in old(live) && live == old(live)[ref := v]
      ensures !v.Nil? ==> ref == NextRef(old(slots), objlen) && slots == AfterRef(old(slots), v, objlen)
    {
      hide RefsOk, Set, Get, Border, Dense;
      if v.Nil? {
        return REFNIL;
      }
      Head(slots, live, free);
      ref := ToInteger(Get(slots, FREELIST_REF));
      if ref != 0 {
        TakeFree(slots, live, free, v, objlen);
        if Orderly() {
          DenseTaken(slots, live, free, issued, v, objlen);
        }
        slots := Set(slots, FREELIST_REF, Get(slots, ref));
        free := free[1..];
      } else {
        TakeNew(slots, live, v, objlen);
        if Orderly() {
          BorderIs(slots, live, issued, objlen);
          DenseNew(slots, live, issued, v);
        }
        ref := objlen + 1;
        issued := issued + 1;
      }
      slots := Set(slots, ref, v);
      live := live[ref := v];
    }

    /** luaL_unref of anything. */
    method Unref(ref: int)
      requires Valid()
      modifies this
      ensures slots == AfterUnref(old(slots), ref) && live == old(live) - {ref}
      ensures ref !in old(free) ==> Valid() && free == FreeAfter(old(free), ref)
      ensures old(Orderly()) && (ref < 0 || ref in old(live)) ==> Orderly()
    {
      hide RefsOk, Set, Get, Dense, LiveOk;
      if ref !in free {
        GiveBack(slots, live, free, ref);
      }
      if Orderly() && (ref < 0 || ref in live) {
        DenseGiven(slots, live, free, issued, ref);
      }
      if ref >= 0 {
        slots := Set(slots, ref, Get(slots, FREELIST_REF));
        slots := Set(slots, FREELIST_REF, Integer(ref));
      }
      live, free := live - {ref}, FreeAfter(free, ref);
    }

    /** lua_rawgeti with a live reference. */
    method Fetch(ref: int) returns (v: Value)
      requires Valid() && ref in live
      ensures v == live[ref]
    {
      v := Get(slots, ref);
    }
  }

  // ------------------------------------------------------------------ all later runs

  datatype Step = Take(v: Value, objlen: nat) | Give(ref: int)

  ghost predicate LiveHold(t: Slots, live: map<int, Value>) { forall i :: i in live ==> Get(t, i) == live[i] }

  /** In a run that gives back live references only, no live reference is given out, and live
      references hold their values all the time. */
  ghost predicate Fresh(t: Slots, live: map<int, Value>, steps: seq<Step>)
    decreases |steps|
  {
    && LiveHold(t, live)
    && (steps == [] || match steps[0]
        case Give(ref) => ref in live ==> Fresh(AfterUnref(t, ref), live - {ref}, steps[1..])
        case Take(v, objlen) =>
          if v.Nil? then Fresh(t, live, steps[1..])
          else LengthOk(t, objlen) ==>
                 NextRef(t, objlen) !in live
                 && Fresh(AfterRef(t, v, objlen), live[NextRef(t, objlen) := v], steps[1..]))
  }

  lemma {:induction false} StaysFresh(t: Slots, live: map<int, Value>, free: seq<int>, steps: seq<Step>)
    requires RefsOk(t, live, free)
    ensures Fresh(t, live, steps)
    decreases |steps|
  {
    hide Chain, NoRepeats, Set, Border, AfterRef, NextRef, AfterUnref;
    if steps != [] {
      match steps[0] {
        case Give(ref) =>
          if ref in live {
            GiveBack(t, live, free, ref);
            StaysFresh(AfterUnref(t, ref), live - {ref}, FreeAfter(free, ref), steps[1..]);
          }
        case Take(v, objlen) =>
          if v.Nil? {
            StaysFresh(t, live, free, steps[1..]);
          } else if LengthOk(t, objlen) {
            Head(t, live, free);
            if free != [] {
              TakeFree(t, live, free, v, objlen);
              StaysFresh(AfterRef(t, v, objlen), live[free[0] := v], free[1..], steps[1..]);
            } else {
              TakeNew(t, live, v, objlen);
              StaysFresh(AfterRef(t, v, objlen), live[objlen + 1 := v], [], steps[1..]);
            }
          }
      }
    }
  }

  /** The slots s, in this order, lead from one slot to the reference r. */
  predicate Leads(t: Slots, from: int, s: seq<int>, r: int)
    decreases s
  {
    if s == [] then Get(t, from) == Integer(r)
    else s[0] > 0 && Get(t, from) == Integer(s[0]) && Leads(t, s[0], s[1..], r)
  }

  lemma {:induction false} LeadsOther(t: Slots, from: int, s: seq<int>, r: int, i: int, v: Value)
    requires Leads(t, from, s, r) && i != from && i !in s
    ensures Leads(Set(t, i, v), from, s, r)
    decreases s
  {
    if s != [] {
      assert s[0] in s;
      LeadsOther(t, s[0], s[1..], r, i, v);
    }
  }

  /** The start of the list leads to any reference in it. */
  lemma {:induction false} ChainLeads(t: Slots, from: int, free: seq<int>, k: nat)
    requires Chain(t, from, free) && k < |free|
    ensures Leads(t, from, free[..k], free[k])
    decreases k
  {
    if k > 0 {
      ChainLeads(t, free[0], free[1..], k - 1);
      assert free[..k][1..] == free[1..][..k - 1];
    }
  }

  function Takes(n: nat): seq<Step> { seq(n, _ => Take(Object(0), 0)) }

  /** The slots on the way are given out, and then the live reference they lead to. */
  lemma {:induction false} Repeated(t: Slots, live: map<int, Value>, s: seq<int>, r: int)
    requires Leads(t, FREELIST_REF, s, r) && r in live && r > 0 && NoRepeats(s) && FREELIST_REF !in s
    ensures !Fresh(t, live, Takes(|s| + 1))
    decreases s
  {
    var steps := Takes(|s| + 1);
    assert steps[0] == Take(Object(0), 0) && steps[1..] == Takes(|s|);
    if s != [] && s[0] !in live {
      RestOfFree(s);
      var t1 := Set(t, FREELIST_REF, Get(t, s[0]));
      LeadsHead(t, s[0], s[1..], r);
      LeadsOther(t1, FREELIST_REF, s[1..], r, s[0], Object(0));
      Repeated(AfterRef(t, Object(0), 0), live[s[0] := Object(0)], s[1..], r);
    }
    hide Set, NoRepeats, LiveHold;
  }

  lemma LeadsHead(t: Slots, from: int, s: seq<int>, r: int)
    requires Leads(t, from, s, r) && FREELIST_REF !in s && from != 0
    ensures Leads(Set(t, FREELIST_REF, Get(t, from)), FREELIST_REF, s, r)
  {
    if s != [] {
      LeadsOther(t, s[0], s[1..], r, FREELIST_REF, Get(t, from));
    }
  }

  lemma BeforeInFree(free: seq<int>, k: nat)
    requires NoRepeats(free) && k < |free|
    ensures NoRepeats(free[..k]) && free[k] in free && free[k] !in free[..k] && forall i <- free[..k] :: i in free
  {
    forall i <- free[..k] ensures i in free && i != free[k] {
      var j :| 0 <= j < k && free[..k][j] == i;
      assert free[j] == i;
    }
  }

  /** A free reference that is given back once more: it is given out, then those that were
      before it in the list, and then it is given out again, although it is live. */
  lemma FreeGivenBack(t: Slots, live: map<int, Value>, free: seq<int>, k: nat)
    requires RefsOk(t, live, free) && k < |free|
    ensures !Fresh(AfterUnref(t, free[k]), live, Takes(k + 2))
  {
    var r, s, v := free[k], free[..k], Object(0);
    ChainPositive(t, FREELIST_REF, free);
    BeforeInFree(free, k);
    ChainLeads(t, FREELIST_REF, free, k);
    var t1 := AfterUnref(t, r);
    var t2 := AfterRef(t1, v, 0);
    assert Get(t1, r) == Get(t, FREELIST_REF) && Get(t1, FREELIST_REF) == Integer(r);
    if s != [] {
      assert s[0] in s && s == [s[0]] + s[1..];
      LeadsOther(t, s[0], s[1..], r, r, Get(t, FREELIST_REF));
      LeadsOther(Set(t, r, Get(t, FREELIST_REF)), s[0], s[1..], r, FREELIST_REF, Integer(r));
    }
    assert Leads(t1, r, s, r);
    LeadsHead(t1, r, s, r);
    LeadsOther(Set(t1, FREELIST_REF, Get(t1, r)), FREELIST_REF, s, r, r, v);
    Repeated(t2, live[r := v], s, r);
    assert Takes(k + 2)[0] == Take(v, 0) && Takes(k + 2)[1..] == Takes(k + 1);
    hide Set, Chain, NoRepeats, LiveHold, LiveOk;
  }

  /** luaL_unref keeps all later references fresh exactly if its argument is not in the list of
      free references: given back once already, and not given out since. */
  lemma UnrefFresh(t: Slots, live: map<int, Value>, free: seq<int>, ref: int)
    requires RefsOk(t, live, free)
    ensures (forall steps :: Fresh(AfterUnref(t, ref), live - {ref}, steps)) <==> ref !in free
  {
    if ref !in free {
      GiveBack(t, live, free, ref);
      forall steps ensures Fresh(AfterUnref(t, ref), live - {ref}, steps) {
        StaysFresh(AfterUnref(t, ref), live - {ref}, FreeAfter(free, ref), steps);
      }
    } else {
      var k :| 0 <= k < |free| && free[k] == ref;
      FreeGivenBack(t, live, free, k);
      assert live - {ref} == live;
    }
    hide Chain, NoRepeats, Fresh, AfterUnref;
  }

  /** Freeing a live reference twice: the next two values get that same reference, and the
      second replaces the first. After that the list starts with whatever integer the first
      value is: with none, for an object. */
  lemma FreedTwice(t: Slots, live: map<int, Value>, free: seq<int>, r: int, v: Value, w: Value, objlen: nat)
    requires RefsOk(t, live, free) && r in live && !v.Nil? && !w.Nil?
    ensures var twice := AfterUnref(AfterUnref(t, r), r);
            var one := AfterRef(twice, v, objlen);
            var two := AfterRef(one, w, objlen);
            && NextRef(twice, objlen) == r && NextRef(one, objlen) == r
            && Get(one, r) == v && Get(two, r) == w
            && NextRef(two, objlen) == if ToInteger(v) != 0 then ToInteger(v) else objlen + 1
  {
  }

  /** The shortest such run: two different values share reference 1. */
  lemma FreedTwiceExample()
    ensures var once := AfterUnref(AfterRef(map[], Object(7), 0), 1);
            var twice := AfterUnref(once, 1);
            && NextRef(map[], 0) == 1 && RefsOk(once, map[], [1])
            && NextRef(twice, 0) == 1 && NextRef(AfterRef(twice, Object(8), 0), 0) == 1
            && NextRef(AfterRef(AfterRef(twice, Object(8), 0), Object(9), 0), 1) == 2
            && !Fresh(twice, map[], [Take(Object(8), 0), Take(Object(9), 0)])
  {
    var t := AfterRef(map[], Object(7), 0);
    assert t == map[1 := Object(7)];
    var once := AfterUnref(t, 1);
    assert once == map[0 := Integer(1)];
    assert Chain(once, 1, []) && [1][1..] == [];
    assert Chain(once, 0, [1]);
    var twice := AfterUnref(once, 1);
    assert twice == map[0 := Integer(1), 1 := Integer(1)];
    var one := AfterRef(twice, Object(8), 0);
    assert one == map[0 := Integer(1), 1 := Object(8)];
    var steps := [Take(Object(8), 0), Take(Object(9), 0)];
    assert steps[1..] == [Take(Object(9), 0)];
    assert !Fresh(one, map[1 := Object(8)], steps[1..]);
    assert map[][1 := Object(8)] == map[1 := Object(8)];
  }
}
