// Labels: every reference ends up with the position of the definition it means,
// by way of chains threaded through the section buffers (luajit/dynasm/dasm_x86.h).

module DasmLabels {
  import opened DasmOps

  /** A buffer or label word; memory starts out zeroed. */
  function Rd(m: map<int, int>, a: int): int { if a in m then m[a] else 0 }

  /** What happens to a label slot, in the order of the puts. */
  datatype Event = Ref(slot: int, pos: nat, fwd: bool) | Def(slot: int, pos: nat) | Reset(slot: int)

  predicate DefOf(e: Event, slot: int) { e.Def? && e.slot == slot }

  predicate Hides(e: Event, slot: int) { !e.Ref? && e.slot == slot }

  /** Event j is the latest definition of the slot before event i. */
  ghost predicate PrevDef(log: seq<Event>, i: nat, slot: int, j: int) {
    && 0 <= j < i <= |log| && DefOf(log[j], slot)
    && forall m :: j < m < i ==> !Hides(log[m], slot)
  }

  /** Event j is the first definition of the slot after event i. */
  ghost predicate NextDef(log: seq<Event>, i: nat, slot: int, j: int) {
    && i < j < |log| && DefOf(log[j], slot)
    && forall m :: i < m < j ==> !DefOf(log[m], slot)
  }

  ghost predicate HasPrev(log: seq<Event>, i: nat, slot: int) { exists j :: PrevDef(log, i, slot, j) }

  ghost predicate HasNext(log: seq<Event>, i: nat, slot: int) { exists j :: NextDef(log, i, slot, j) }

  /** Reference i looks back: it is no forward reference and there is a definition. */
  ghost predicate LooksBack(log: seq<Event>, i: nat)
    requires i < |log|
  {
    log[i].Ref? && !log[i].fwd && HasPrev(log, i, log[i].slot)
  }

  /** Reference i means the label at position q: the latest definition if it looks back,
      and otherwise the next one. */
  ghost predicate Means(log: seq<Event>, i: nat, q: int)
    requires i < |log|
  {
    && log[i].Ref?
    && if LooksBack(log, i) then exists j :: PrevDef(log, i, log[i].slot, j) && log[j].pos == q
       else exists j :: NextDef(log, i, log[i].slot, j) && log[j].pos == q
  }

  /** Reference i is still waiting for its definition. */
  ghost predicate Waiting(log: seq<Event>, i: nat)
    requires i < |log|
  {
    log[i].Ref? && !LooksBack(log, i) && !HasNext(log, i, log[i].slot)
  }

  /** What a reference means is unique. */
  lemma MeansUnique(log: seq<Event>, i: nat, q: int, r: int)
    requires i < |log| && Means(log, i, q) && Means(log, i, r)
    ensures q == r && !Waiting(log, i)
  {
    if LooksBack(log, i) {
      var j :| PrevDef(log, i, log[i].slot, j) && log[j].pos == q;
      var k :| PrevDef(log, i, log[i].slot, k) && log[k].pos == r;
      assert j == k;
    } else {
      var j :| NextDef(log, i, log[i].slot, j) && log[j].pos == q;
      var k :| NextDef(log, i, log[i].slot, k) && log[k].pos == r;
      assert j == k;
    }
  }

  // -------------------------------------------------------------------- chains

  type Chains = map<int, seq<int>>

  function ChainOf(ch: Chains, slot: int): seq<int> { if slot in ch then ch[slot] else [] }

  /** The chain of references c hangs off n, each linking to the next, up to 0. */
  ghost predicate Thread(b: map<int, int>, n: int, c: seq<int>)
    decreases |c|
  {
    if c == [] then n == 0 else n == c[0] && n > 0 && Thread(b, Rd(b, n), c[1..])
  }

  ghost predicate SlotOk(b: map<int, int>, labels: map<int, int>, ch: Chains, slot: int) {
    if Rd(labels, slot) < 0 then ChainOf(ch, slot) == [] else Thread(b, Rd(labels, slot), ChainOf(ch, slot))
  }

  ghost predicate InChain(ch: Chains, slot: int, pos: int) { pos in ChainOf(ch, slot) }

  ghost predicate RefHolds(b: map<int, int>, log: seq<Event>, ch: Chains, i: nat)
    requires i < |log|
  {
    log[i].Ref? ==>
      && log[i].pos > 0
      && if Waiting(log, i) then InChain(ch, log[i].slot, log[i].pos) else Means(log, i, Rd(b, log[i].pos))
  }

  /** The chain element at pos is a waiting reference. */
  ghost predicate WaitsAt(log: seq<Event>, slot: int, pos: int) {
    exists i :: 0 <= i < |log| && log[i].Ref? && log[i].slot == slot && log[i].pos == pos && Waiting(log, i)
  }

  ghost predicate ChainWaits(log: seq<Event>, ch: Chains, slot: int) {
    forall p :: InChain(ch, slot, p) ==> WaitsAt(log, slot, p)
  }

  ghost predicate SlotKnows(log: seq<Event>, labels: map<int, int>, slot: int) {
    var n := Rd(labels, slot);
    && (n < 0 ==> exists j :: PrevDef(log, |log|, slot, j) && log[j].pos == -n)
    && (n >= 0 && !Local(slot) ==> !HasPrev(log, |log|, slot))
  }

  ghost predicate RefsDistinct(log: seq<Event>) {
    forall i, j :: 0 <= i < j < |log| && log[i].Ref? && log[j].Ref? ==> log[i].pos != log[j].pos
  }

  /** All references resolved so far hold their label, all others hang on their chains. */
  ghost predicate LabelsOk(b: map<int, int>, labels: map<int, int>, log: seq<Event>, ch: Chains) {
    && (forall slot :: SlotOk(b, labels, ch, slot))
    && (forall slot :: SlotKnows(log, labels, slot))
    && (forall slot :: ChainWaits(log, ch, slot))
    && (forall i :: 0 <= i < |log| ==> RefHolds(b, log, ch, i))
    && RefsDistinct(log)
  }

  // ------------------------------------------------------------------- threads

  lemma {:induction false} ThreadFrame(b: map<int, int>, n: int, c: seq<int>, b': map<int, int>)
    requires Thread(b, n, c) && forall p <- c :: Rd(b', p) == Rd(b, p)
    ensures Thread(b', n, c)
    decreases |c|
  {
    if c != [] {
      ThreadFrame(b, Rd(b, n), c[1..], b');
    }
  }

  // --------------------------------------------------- how events change the log

  lemma PrevKept(log: seq<Event>, e: Event, i: nat, slot: int, j: int)
    requires i <= |log|
    ensures PrevDef(log + [e], i, slot, j) <==> PrevDef(log, i, slot, j)
  {
    var log' := log + [e];
    assert forall m :: 0 <= m < |log| ==> log'[m] == log[m];
  }

  lemma HasPrevKept(log: seq<Event>, e: Event, i: nat, slot: int)
    requires i <= |log|
    ensures HasPrev(log + [e], i, slot) <==> HasPrev(log, i, slot)
  {
    forall j
      ensures PrevDef(log + [e], i, slot, j) <==> PrevDef(log, i, slot, j)
    {
      PrevKept(log, e, i, slot, j);
    }
    hide PrevDef;
  }

  lemma NextKept(log: seq<Event>, e: Event, i: nat, slot: int, j: int)
    requires NextDef(log, i, slot, j)
    ensures NextDef(log + [e], i, slot, j)
  {
    var log' := log + [e];
    assert forall m :: 0 <= m < |log| ==> log'[m] == log[m];
  }

  lemma MeansKept(log: seq<Event>, e: Event, i: nat, q: int)
    requires i < |log| && Means(log, i, q)
    ensures Means(log + [e], i, q)
  {
    var slot := log[i].slot;
    HasPrevKept(log, e, i, slot);
    if LooksBack(log, i) {
      var j :| PrevDef(log, i, slot, j) && log[j].pos == q;
      PrevKept(log, e, i, slot, j);
    } else {
      var j :| NextDef(log, i, slot, j) && log[j].pos == q;
      NextKept(log, e, i, slot, j);
    }
    hide PrevDef, NextDef;
  }

  lemma NoNextAfter(log: seq<Event>, e: Event, i: nat, slot: int)
    requires i < |log| && !HasNext(log, i, slot) && !DefOf(e, slot)
    ensures !HasNext(log + [e], i, slot)
  {
    var log' := log + [e];
    NoDefs(log, i, slot);
    assert forall m :: 0 <= m < |log| ==> log'[m] == log[m];
  }

  /** A definition answers exactly the waiting references of its slot. */
  lemma WaitingAfter(log: seq<Event>, e: Event, i: nat)
    requires i < |log|
    ensures Waiting(log + [e], i) <==> Waiting(log, i) && !DefOf(e, log[i].slot)
    ensures Waiting(log, i) && DefOf(e, log[i].slot) ==> Means(log + [e], i, e.pos)
  {
    var log', slot := log + [e], log[i].slot;
    HasPrevKept(log, e, i, slot);
    if HasNext(log, i, slot) {
      var j :| NextDef(log, i, slot, j);
      NextKept(log, e, i, slot, j);
      assert HasNext(log', i, slot);
    } else if DefOf(e, slot) {
      NoDefs(log, i, slot);
      assert NextDef(log', i, slot, |log|);
    } else {
      NoNextAfter(log, e, i, slot);
    }
    hide PrevDef, NextDef, HasNext, HasPrev;
  }

  /** Without a next definition there is none at all. */
  lemma NoDefs(log: seq<Event>, i: nat, slot: int)
    requires i < |log| && !HasNext(log, i, slot)
    ensures forall m :: i < m < |log| ==> !DefOf(log[m], slot)
  {
    forall m | i < m < |log|
      ensures !DefOf(log[m], slot)
    {
      NoDefUpTo(log, i, slot, m);
    }
  }

  lemma {:induction false} NoDefUpTo(log: seq<Event>, i: nat, slot: int, m: nat)
    requires i < m < |log| && !HasNext(log, i, slot)
    ensures forall k :: i < k <= m ==> !DefOf(log[k], slot)
    decreases m
  {
    if i + 1 < m {
      NoDefUpTo(log, i, slot, m - 1);
    }
    assert !NextDef(log, i, slot, m);
  }

  lemma PrevAfter(log: seq<Event>, e: Event, log': seq<Event>, slot: int, j: int)
    requires log' == log + [e]
    ensures !Hides(e, slot) ==> (PrevDef(log', |log'|, slot, j) <==> PrevDef(log, |log|, slot, j))
    ensures DefOf(e, slot) ==> PrevDef(log', |log'|, slot, |log|)
  {
    assert forall m :: 0 <= m < |log| ==> log'[m] == log[m];
  }

  lemma KnowsAfter(log: seq<Event>, labels: map<int, int>, e: Event, slot: int)
    requires SlotKnows(log, labels, slot) && !Hides(e, slot)
    ensures SlotKnows(log + [e], labels, slot)
  {
    var log' := log + [e];
    forall j
      ensures PrevDef(log', |log'|, slot, j) <==> PrevDef(log, |log|, slot, j)
    {
      PrevAfter(log, e, log', slot, j);
    }
    if Rd(labels, slot) < 0 {
      var j :| PrevDef(log, |log|, slot, j) && log[j].pos == -Rd(labels, slot);
      assert log'[j] == log[j] && PrevDef(log', |log'|, slot, j);
    }
    hide PrevDef;
  }

  // ------------------------------------------------------ what the passes do

  /** A chain after its references were replaced by v. */
  function Collapsed(b: map<int, int>, c: seq<int>, v: int): map<int, int> {
    map p | p in b.Keys + (set x | x in c) :: if p in c then v else b[p]
  }

  lemma CollapsedRead(b: map<int, int>, c: seq<int>, v: int, p: int)
    ensures Rd(Collapsed(b, c, v), p) == if p in c then v else Rd(b, p)
  {
  }

  /** Every position of a reference is below the frontier of its section. */
  ghost predicate RefsBelow(log: seq<Event>, pos: nat) {
    forall i :: 0 <= i < |log| && log[i].Ref? ==> log[i].pos != pos
  }

  lemma ChainPos(b: map<int, int>, labels: map<int, int>, log: seq<Event>, ch: Chains, slot: int, p: int)
    requires LabelsOk(b, labels, log, ch) && InChain(ch, slot, p)
    ensures exists i :: 0 <= i < |log| && log[i].Ref? && log[i].slot == slot && log[i].pos == p && Waiting(log, i)
  {
    assert ChainWaits(log, ch, slot);
    hide Waiting;
  }

  /** Writes where no reference is do not concern the labels. */
  lemma OtherWrite(b: map<int, int>, labels: map<int, int>, log: seq<Event>, ch: Chains, pos: nat, v: int)
    requires LabelsOk(b, labels, log, ch) && RefsBelow(log, pos)
    ensures LabelsOk(b[pos := v], labels, log, ch)
  {
    hide Means, Waiting, SlotKnows, ChainWaits, InChain;
    var b' := b[pos := v];
    forall slot
      ensures SlotOk(b', labels, ch, slot)
    {
      assert SlotOk(b, labels, ch, slot);
      forall p <- ChainOf(ch, slot)
        ensures Rd(b', p) == Rd(b, p)
      {
        assert InChain(ch, slot, p) by { ChainIn(ch, slot, p); }
        ChainPos(b, labels, log, ch, slot, p);
      }
      if Rd(labels, slot) >= 0 {
        ThreadFrame(b, Rd(labels, slot), ChainOf(ch, slot), b');
      }
    }
    forall i | 0 <= i < |log|
      ensures RefHolds(b', log, ch, i)
    {
      assert RefHolds(b, log, ch, i);
    }
  }

  lemma ChainIn(ch: Chains, slot: int, p: int)
    requires p in ChainOf(ch, slot)
    ensures InChain(ch, slot, p)
  {
  }

  /** A new event that is a reference leaves what earlier references mean alone. */
  lemma OldRefs(b: map<int, int>, log: seq<Event>, ch: Chains, e: Event, b': map<int, int>, ch': Chains, i: nat)
    requires i < |log| && RefHolds(b, log, ch, i) && log[i].Ref?
    requires !DefOf(e, log[i].slot) && Rd(b', log[i].pos) == Rd(b, log[i].pos)
    requires InChain(ch, log[i].slot, log[i].pos) ==> InChain(ch', log[i].slot, log[i].pos)
    ensures RefHolds(b', log + [e], ch', i)
  {
    hide Means, Waiting, InChain, DefOf;
    var log' := log + [e];
    assert log'[i] == log[i];
    WaitingAfter(log, e, i);
    if !Waiting(log, i) {
      MeansKept(log, e, i, Rd(b, log[i].pos));
    }
  }

  lemma OldWaits(log: seq<Event>, e: Event, slot: int, p: int)
    requires WaitsAt(log, slot, p) && !DefOf(e, slot)
    ensures WaitsAt(log + [e], slot, p)
  {
    hide Waiting;
    var i :| 0 <= i < |log| && log[i].Ref? && log[i].slot == slot && log[i].pos == p && Waiting(log, i);
    WaitingAfter(log, e, i);
    assert (log + [e])[i] == log[i];
  }

  lemma OldThread(b: map<int, int>, labels: map<int, int>, log: seq<Event>, ch: Chains, b': map<int, int>, slot: int)
    requires LabelsOk(b, labels, log, ch)
    requires forall p :: InChain(ch, slot, p) ==> Rd(b', p) == Rd(b, p)
    ensures SlotOk(b', labels, ch, slot)
    ensures Rd(labels, slot) >= 0 ==> Thread(b', Rd(labels, slot), ChainOf(ch, slot))
  {
    hide Means, Waiting;
    assert SlotOk(b, labels, ch, slot);
    forall p <- ChainOf(ch, slot)
      ensures Rd(b', p) == Rd(b, p)
    {
      assert InChain(ch, slot, p);
    }
    if Rd(labels, slot) >= 0 {
      ThreadFrame(b, Rd(labels, slot), ChainOf(ch, slot), b');
    }
  }

  /** No chain holds a position where no reference is. */
  lemma NotInChain(b: map<int, int>, labels: map<int, int>, log: seq<Event>, ch: Chains, pos: nat, slot: int, p: int)
    requires LabelsOk(b, labels, log, ch) && RefsBelow(log, pos) && InChain(ch, slot, p)
    ensures p != pos
  {
    ChainPos(b, labels, log, ch, slot, p);
    hide Means, Waiting;
  }

  lemma DistinctAfter(log: seq<Event>, e: Event)
    requires RefsDistinct(log) && (e.Ref? ==> RefsBelow(log, e.pos))
    ensures RefsDistinct(log + [e])
  {
  }

  /** A reference to a label that exists holds its position. */
  lemma RefKnown(b: map<int, int>, labels: map<int, int>, log: seq<Event>, ch: Chains, slot: int, pos: nat)
    requires LabelsOk(b, labels, log, ch) && RefsBelow(log, pos) && pos > 0 && Rd(labels, slot) < 0
    ensures LabelsOk(b[pos := -Rd(labels, slot)], labels, log + [Ref(slot, pos, false)], ch)
  {
    hide Means, Waiting, SlotOk, SlotKnows, WaitsAt, InChain, DefOf, Hides;
    var e := Ref(slot, pos, false);
    var b', log' := b[pos := -Rd(labels, slot)], log + [e];
    forall t
      ensures SlotOk(b', labels, ch, t) && SlotKnows(log', labels, t) && ChainWaits(log', ch, t)
    {
      forall p | InChain(ch, t, p)
        ensures Rd(b', p) == Rd(b, p) && WaitsAt(log', t, p)
      {
        NotInChain(b, labels, log, ch, pos, t, p);
        assert ChainWaits(log, ch, t);
        NoDefNoHide(e, t);
        OldWaits(log, e, t, p);
      }
      OldThread(b, labels, log, ch, b', t);
      NoDefNoHide(e, t);
      KnowsAfter(log, labels, e, t);
    }
    forall i | 0 <= i < |log'|
      ensures RefHolds(b', log', ch, i)
    {
      if i < |log| {
        assert RefHolds(b, log, ch, i);
        if log[i].Ref? {
          NoDefNoHide(e, log[i].slot);
          OldRefs(b, log, ch, e, b', ch, i);
        }
      } else {
        KnownMeans(log, labels, slot, pos);
      }
    }
    DistinctAfter(log, e);
  }

  lemma NoDefNoHide(e: Event, t: int)
    ensures e.Ref? ==> !DefOf(e, t) && !Hides(e, t)
    ensures t != e.slot ==> !DefOf(e, t) && !Hides(e, t)
    ensures e.Reset? ==> !DefOf(e, t)
  {
  }

  lemma KnownMeans(log: seq<Event>, labels: map<int, int>, slot: int, pos: nat)
    requires SlotKnows(log, labels, slot) && Rd(labels, slot) < 0
    ensures var log' := log + [Ref(slot, pos, false)]; !Waiting(log', |log|) && Means(log', |log|, -Rd(labels, slot))
  {
    var e := Ref(slot, pos, false);
    var j :| PrevDef(log, |log|, slot, j) && log[j].pos == -Rd(labels, slot);
    PrevKept(log, e, |log|, slot, j);
    assert HasPrev(log + [e], |log|, slot);
  }

  /** A reference without a label yet is hung on the chain of its slot. */
  lemma RefLinked(b: map<int, int>, labels: map<int, int>, log: seq<Event>, ch: Chains, slot: int, pos: nat, fwd: bool, n: int)
    requires LabelsOk(b, labels, log, ch) && RefsBelow(log, pos) && pos > 0
    requires n == if Rd(labels, slot) < 0 then 0 else Rd(labels, slot)
    requires if fwd then Local(slot) else !Local(slot) && Rd(labels, slot) >= 0
    ensures LabelsOk(b[pos := n], labels[slot := pos], log + [Ref(slot, pos, fwd)], ch[slot := [pos] + ChainOf(ch, slot)])
  {
    hide Means, Waiting, SlotOk, SlotKnows, WaitsAt, DefOf, Hides, Local;
    var e := Ref(slot, pos, fwd);
    var b', labels', log', ch' := b[pos := n], labels[slot := pos], log + [e], ch[slot := [pos] + ChainOf(ch, slot)];
    LinkedWaits(b, labels, log, ch, slot, pos, fwd);
    forall t
      ensures SlotOk(b', labels', ch', t) && SlotKnows(log', labels', t) && ChainWaits(log', ch', t)
    {
      assert SlotOk(b, labels, ch, t) && SlotKnows(log, labels, t);
      forall p | InChain(ch, t, p)
        ensures Rd(b', p) == Rd(b, p) && WaitsAt(log', t, p)
      {
        NotInChain(b, labels, log, ch, pos, t, p);
        assert ChainWaits(log, ch, t);
        NoDefNoHide(e, t);
        OldWaits(log, e, t, p);
      }
      OldThread(b, labels, log, ch, b', t);
      NoDefNoHide(e, t);
      KnowsAfter(log, labels, e, t);
      if t != slot {
        SlotElse(b', labels, ch, labels', ch', t);
        KnowsElse(log', labels, labels', t);
      } else {
        SlotHere(b', labels, ch, slot, pos, n);
        KnowsLinked(log', labels, slot, pos);
      }
    }
    forall i | 0 <= i < |log'|
      ensures RefHolds(b', log', ch', i)
    {
      if i < |log| {
        assert RefHolds(b, log, ch, i);
        if log[i].Ref? {
          NoDefNoHide(e, log[i].slot);
          OldRefs(b, log, ch, e, b', ch', i);
        }
      }
    }
    DistinctAfter(log, e);
  }

  lemma SlotElse(b: map<int, int>, labels: map<int, int>, ch: Chains, labels': map<int, int>, ch': Chains, t: int)
    requires SlotOk(b, labels, ch, t) && Rd(labels', t) == Rd(labels, t) && ChainOf(ch', t) == ChainOf(ch, t)
    ensures SlotOk(b, labels', ch', t)
  {
  }

  lemma KnowsElse(log: seq<Event>, labels: map<int, int>, labels': map<int, int>, t: int)
    requires SlotKnows(log, labels, t) && Rd(labels', t) == Rd(labels, t)
    ensures SlotKnows(log, labels', t)
  {
  }

  lemma KnowsLinked(log: seq<Event>, labels: map<int, int>, slot: int, pos: nat)
    requires SlotKnows(log, labels, slot) && (Local(slot) || Rd(labels, slot) >= 0) && pos > 0
    ensures SlotKnows(log, labels[slot := pos], slot)
  {
  }

  lemma SlotHere(b: map<int, int>, labels: map<int, int>, ch: Chains, slot: int, pos: nat, n: int)
    requires SlotOk(b, labels, ch, slot) && Rd(b, pos) == n && pos > 0
    requires n == if Rd(labels, slot) < 0 then 0 else Rd(labels, slot)
    ensures SlotOk(b, labels[slot := pos], ch[slot := [pos] + ChainOf(ch, slot)], slot)
  {
    var c := [pos] + ChainOf(ch, slot);
    assert c[1..] == ChainOf(ch, slot);
  }

  lemma LinkedWaits(b: map<int, int>, labels: map<int, int>, log: seq<Event>, ch: Chains, slot: int, pos: nat, fwd: bool)
    requires LabelsOk(b, labels, log, ch) && (fwd || (!Local(slot) && Rd(labels, slot) >= 0))
    ensures var log' := log + [Ref(slot, pos, fwd)]; Waiting(log', |log|) && WaitsAt(log', slot, pos)
  {
    var e := Ref(slot, pos, fwd);
    assert SlotKnows(log, labels, slot);
    HasPrevKept(log, e, |log|, slot);
    var log' := log + [e];
    assert log'[|log|] == e && !HasNext(log', |log|, slot);
    assert Waiting(log', |log|);
  }

  /** A definition gives its position to every reference on the chain. */
  lemma DefOk(b: map<int, int>, labels: map<int, int>, log: seq<Event>, ch: Chains, slot: int, pos: nat)
    requires LabelsOk(b, labels, log, ch) && pos > 0
    ensures LabelsOk(Collapsed(b, ChainOf(ch, slot), pos), labels[slot := 0 - pos], log + [Def(slot, pos)], ch[slot := []])
  {
    hide Means, Waiting, SlotOk, SlotKnows, WaitsAt, DefOf, Hides, Collapsed, InChain;
    var e := Def(slot, pos);
    var c := ChainOf(ch, slot);
    var b', labels', log', ch' := Collapsed(b, c, pos), labels[slot := 0 - pos], log + [e], ch[slot := []];
    forall t
      ensures SlotOk(b', labels', ch', t) && SlotKnows(log', labels', t) && ChainWaits(log', ch', t)
    {
      assert SlotKnows(log, labels, t);
      if t != slot {
        NoDefNoHide(e, t);
        forall p | InChain(ch, t, p)
          ensures Rd(b', p) == Rd(b, p) && WaitsAt(log', t, p)
        {
          OneChain(b, labels, log, ch, slot, t, p);
          CollapsedRead(b, c, pos, p);
          assert ChainWaits(log, ch, t);
          OldWaits(log, e, t, p);
        }
        OldThread(b, labels, log, ch, b', t);
        KnowsAfter(log, labels, e, t);
        SlotElse(b', labels, ch, labels', ch', t);
        KnowsElse(log', labels, labels', t);
        SameChain(ch, ch', t);
      } else {
        DefinedSlot(b', log, labels, ch, slot, pos);
      }
    }
    forall i | 0 <= i < |log'|
      ensures RefHolds(b', log', ch', i)
    {
      if i < |log| {
        assert RefHolds(b, log, ch, i);
        if log[i].Ref? {
          DefRef(b, labels, log, ch, slot, pos, i);
        }
      }
    }
    DistinctAfter(log, e);
  }

  lemma SameChain(ch: Chains, ch': Chains, t: int)
    requires ChainOf(ch', t) == ChainOf(ch, t)
    ensures forall p :: InChain(ch', t, p) <==> InChain(ch, t, p)
  {
  }

  lemma DefinedSlot(b: map<int, int>, log: seq<Event>, labels: map<int, int>, ch: Chains, slot: int, pos: nat)
    requires pos > 0
    ensures SlotOk(b, labels[slot := 0 - pos], ch[slot := []], slot)
    ensures SlotKnows(log + [Def(slot, pos)], labels[slot := 0 - pos], slot)
    ensures ChainWaits(log + [Def(slot, pos)], ch[slot := []], slot)
  {
    var e := Def(slot, pos);
    PrevAfter(log, e, log + [e], slot, |log|);
  }

  /** A position hangs on one chain at most. */
  lemma OneChain(b: map<int, int>, labels: map<int, int>, log: seq<Event>, ch: Chains, slot: int, t: int, p: int)
    requires LabelsOk(b, labels, log, ch) && InChain(ch, t, p) && t != slot
    ensures p !in ChainOf(ch, slot)
  {
    hide Means, Waiting;
    ChainPos(b, labels, log, ch, t, p);
    if p in ChainOf(ch, slot) {
      ChainIn(ch, slot, p);
      ChainPos(b, labels, log, ch, slot, p);
    }
  }

  /** What a definition does to reference i. */
  lemma DefRef(b: map<int, int>, labels: map<int, int>, log: seq<Event>, ch: Chains, slot: int, pos: nat, i: nat)
    requires LabelsOk(b, labels, log, ch) && i < |log| && log[i].Ref?
    ensures RefHolds(Collapsed(b, ChainOf(ch, slot), pos), log + [Def(slot, pos)], ch[slot := []], i)
  {
    hide Means, Waiting, SlotOk, SlotKnows, Collapsed;
    var e := Def(slot, pos);
    var q := log[i].pos;
    assert RefHolds(b, log, ch, i);
    CollapsedRead(b, ChainOf(ch, slot), pos, q);
    WaitingAfter(log, e, i);
    if Waiting(log, i) {
      assert InChain(ch, log[i].slot, q);
      if log[i].slot != slot {
        OneChain(b, labels, log, ch, slot, log[i].slot, q);
      }
    } else {
      MeansKept(log, e, i, Rd(b, q));
      SettledFree(b, labels, log, ch, i, slot);
    }
    assert (log + [e])[i] == log[i];
  }

  lemma SettledFree(b: map<int, int>, labels: map<int, int>, log: seq<Event>, ch: Chains, i: nat, slot: int)
    requires LabelsOk(b, labels, log, ch) && i < |log| && log[i].Ref? && !Waiting(log, i)
    ensures log[i].pos !in ChainOf(ch, slot)
  {
    if log[i].pos in ChainOf(ch, slot) {
      ChainIn(ch, slot, log[i].pos);
      ChainPos(b, labels, log, ch, slot, log[i].pos);
      hide Means, Waiting;
      var k :| 0 <= k < |log| && log[k].Ref? && log[k].slot == slot && log[k].pos == log[i].pos && Waiting(log, k);
    }
  }

  /** A local label without pending references is forgotten. */
  lemma ResetOk(b: map<int, int>, labels: map<int, int>, log: seq<Event>, ch: Chains, slot: int)
    requires LabelsOk(b, labels, log, ch) && Local(slot) && Rd(labels, slot) <= 0
    ensures LabelsOk(b, labels[slot := 0], log + [Reset(slot)], ch)
  {
    hide Means, Waiting, SlotOk, SlotKnows, WaitsAt, DefOf, Hides, InChain;
    var e := Reset(slot);
    var labels', log' := labels[slot := 0], log + [e];
    forall t
      ensures SlotOk(b, labels', ch, t) && SlotKnows(log', labels', t) && ChainWaits(log', ch, t)
    {
      assert SlotKnows(log, labels, t) && SlotOk(b, labels, ch, t);
      NoDefNoHide(e, t);
      forall p | InChain(ch, t, p)
        ensures WaitsAt(log', t, p)
      {
        assert ChainWaits(log, ch, t);
        OldWaits(log, e, t, p);
      }
      if t != slot {
        KnowsAfter(log, labels, e, t);
        SlotElse(b, labels, ch, labels', ch, t);
        KnowsElse(log', labels, labels', t);
      } else {
        ResetSlot(b, log', labels, ch, slot);
      }
    }
    forall i | 0 <= i < |log'|
      ensures RefHolds(b, log', ch, i)
    {
      if i < |log| {
        assert RefHolds(b, log, ch, i);
        if log[i].Ref? {
          NoDefNoHide(e, log[i].slot);
          OldRefs(b, log, ch, e, b, ch, i);
        }
      }
    }
    DistinctAfter(log, e);
  }

  lemma ResetSlot(b: map<int, int>, log: seq<Event>, labels: map<int, int>, ch: Chains, slot: int)
    requires SlotOk(b, labels, ch, slot) && Rd(labels, slot) <= 0 && Local(slot)
    ensures SlotOk(b, labels[slot := 0], ch, slot) && SlotKnows(log, labels[slot := 0], slot)
  {
  }

  // ------------------------------------------------------------ walking a chain

  lemma {:induction false} ThreadUnique(b: map<int, int>, n: int, c: seq<int>, d: seq<int>)
    requires Thread(b, n, c) && Thread(b, n, d)
    ensures c == d
    decreases |c|
  {
    if c != [] {
      ThreadUnique(b, Rd(b, n), c[1..], d[1..]);
      assert c == [c[0]] + c[1..] && d == [d[0]] + d[1..];
    }
  }

  lemma {:induction false} ThreadAt(b: map<int, int>, n: int, c: seq<int>, i: nat)
    requires Thread(b, n, c) && i < |c|
    ensures Thread(b, c[i], c[i..]) && c[i] > 0
    decreases i
  {
    if i > 0 {
      ThreadAt(b, Rd(b, n), c[1..], i - 1);
      assert c[1..][i - 1..] == c[i..];
    }
  }

  /** A chain visits no position twice, so walking it ends. */
  lemma ThreadDistinct(b: map<int, int>, n: int, c: seq<int>, i: nat, j: nat)
    requires Thread(b, n, c) && i < j < |c|
    ensures c[i] != c[j]
  {
    ThreadAt(b, n, c, i);
    ThreadAt(b, n, c, j);
    if c[i] == c[j] {
      ThreadUnique(b, c[i], c[i..], c[j..]);
    }
  }

  /** One step of the collapse loop: the first reference is replaced, the rest still hangs on. */
  lemma CollapseStep(b: map<int, int>, n: int, c: seq<int>, v: int)
    requires Thread(b, n, c) && n > 0
    ensures c != [] && c[0] == n && Thread(b[n := v], Rd(b, n), c[1..])
    ensures Collapsed(b[n := v], c[1..], v) == Collapsed(b, c, v)
  {
    forall p <- c[1..]
      ensures Rd(b[n := v], p) == Rd(b, p)
    {
      var j :| 1 <= j < |c| && c[j] == p;
      ThreadDistinct(b, n, c, 0, j);
    }
    ThreadFrame(b, Rd(b, n), c[1..], b[n := v]);
    hide Thread;
    assert c == [n] + c[1..];
  }

  lemma CollapsedNone(b: map<int, int>, v: int)
    ensures Collapsed(b, [], v) == b
  {
  }
}
