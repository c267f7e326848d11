// What pass 1 leaves in the section buffers: words that are set once (rec), and
// reference words that labels fill in later (luajit/dynasm/dasm_x86.h).

module DasmRecord {
  import opened DasmOps
  import opened DasmLabels

  predicate Below(x: nat, top: seq<nat>) { SecOf(x) < |top| && x < top[SecOf(x)] }

  /** Everything recorded lies below the frontier of its section. */
  ghost predicate AllBelow(rec: map<nat, int>, log: seq<Event>, top: seq<nat>) {
    && (forall x <- rec :: Below(x, top))
    && (forall i :: 0 <= i < |log| && !log[i].Reset? ==> Below(log[i].pos, top))
  }

  /** The words set once stand in the buffer, apart from all references. */
  ghost predicate RecOk(b: map<int, int>, rec: map<nat, int>, log: seq<Event>) {
    && (forall x <- rec :: Rd(b, x) == rec[x])
    && (forall i :: 0 <= i < |log| && log[i].Ref? ==> log[i].pos !in rec)
  }

  ghost predicate MidOk(b: map<int, int>, labels: map<int, int>, rec: map<nat, int>, log: seq<Event>, ch: Chains, top: seq<nat>) {
    LabelsOk(b, labels, log, ch) && RecOk(b, rec, log) && AllBelow(rec, log, top)
  }

  /** The words of a step that are set once. */
  ghost predicate RecIn(rec: map<nat, int>, t: Step) {
    && ((t.op.Begin? || HasArg(t.op)) ==> t.pos in rec && rec[t.pos] == t.n)
    && (IsLabel(t.op) ==> t.pos in rec && rec[t.pos] == t.est)
    && (t.op.Align? ==> t.pos in rec && rec[t.pos] == t.est + t.op.mask)
    && (IsRel(t.op) ==> t.pos + 1 in rec && rec[t.pos + 1] == t.est + 4)
  }

  /** The event of a step, if it has one. */
  function EventOf(t: Step): seq<Event> {
    if IsRef(t.op) then [Ref(SlotOf(t.op, t.n), t.pos, Forward(t.op))]
    else if IsLabel(t.op) then [Def(SlotOf(t.op, t.n), t.pos)]
    else []
  }

  function EventsOf(ts: seq<Step>): seq<Event> {
    if ts == [] then [] else EventsOf(ts[..|ts| - 1]) + EventOf(ts[|ts| - 1])
  }

  lemma FreshAt(rec: map<nat, int>, log: seq<Event>, top: seq<nat>, pos: nat)
    requires AllBelow(rec, log, top) && SecOf(pos) < |top| && pos >= top[SecOf(pos)]
    ensures pos !in rec && RefsBelow(log, pos)
  {
  }

  /** The frontier moves up. */
  lemma Raise(rec: map<nat, int>, log: seq<Event>, top: seq<nat>, s: nat, pos: nat)
    requires AllBelow(rec, log, top) && s < |top| && top[s] <= pos
    ensures AllBelow(rec, log, top[s := pos])
  {
  }

  /** A word that is set once. */
  lemma WordOk(b: map<int, int>, labels: map<int, int>, rec: map<nat, int>, log: seq<Event>, ch: Chains, top: seq<nat>,
               pos: nat, v: int, pos': nat)
    requires MidOk(b, labels, rec, log, ch, top) && SecOf(pos) < |top| && top[SecOf(pos)] <= pos < pos'
    ensures MidOk(b[pos := v], labels, rec[pos := v], log, ch, top[SecOf(pos) := pos'])
    ensures pos !in rec
  {
    hide LabelsOk;
    FreshAt(rec, log, top, pos);
    OtherWrite(b, labels, log, ch, pos, v);
    Raise(rec, log, top, SecOf(pos), pos');
  }

  /** A reference to a label that exists. */
  lemma KnownOk(b: map<int, int>, labels: map<int, int>, rec: map<nat, int>, log: seq<Event>, ch: Chains, top: seq<nat>,
                slot: int, pos: nat)
    requires MidOk(b, labels, rec, log, ch, top) && SecOf(pos) < |top| && top[SecOf(pos)] == pos > 0 && Rd(labels, slot) < 0
    ensures MidOk(b[pos := -Rd(labels, slot)], labels, rec, log + [Ref(slot, pos, false)], ch, top[SecOf(pos) := pos + 1])
  {
    hide LabelsOk;
    FreshAt(rec, log, top, pos);
    RefKnown(b, labels, log, ch, slot, pos);
    Raise(rec, log, top, SecOf(pos), pos + 1);
    BelowAfter(rec, log, top[SecOf(pos) := pos + 1], Ref(slot, pos, false));
  }

  lemma BelowAfter(rec: map<nat, int>, log: seq<Event>, top: seq<nat>, e: Event)
    requires AllBelow(rec, log, top) && (!e.Reset? ==> Below(e.pos, top))
    ensures AllBelow(rec, log + [e], top)
  {
  }

  /** A reference that is hung on a chain. */
  lemma LinkedOk(b: map<int, int>, labels: map<int, int>, rec: map<nat, int>, log: seq<Event>, ch: Chains, top: seq<nat>,
                 slot: int, pos: nat, fwd: bool, n: int)
    requires MidOk(b, labels, rec, log, ch, top) && SecOf(pos) < |top| && top[SecOf(pos)] == pos > 0
    requires n == if Rd(labels, slot) < 0 then 0 else Rd(labels, slot)
    requires if fwd then Local(slot) else !Local(slot) && Rd(labels, slot) >= 0
    ensures MidOk(b[pos := n], labels[slot := pos], rec, log + [Ref(slot, pos, fwd)], ch[slot := [pos] + ChainOf(ch, slot)],
                  top[SecOf(pos) := pos + 1])
  {
    hide LabelsOk;
    FreshAt(rec, log, top, pos);
    RefLinked(b, labels, log, ch, slot, pos, fwd, n);
    Raise(rec, log, top, SecOf(pos), pos + 1);
    BelowAfter(rec, log, top[SecOf(pos) := pos + 1], Ref(slot, pos, fwd));
  }

  /** Chains only run through references. */
  lemma ChainApart(b: map<int, int>, labels: map<int, int>, rec: map<nat, int>, log: seq<Event>, ch: Chains, slot: int, x: nat)
    requires LabelsOk(b, labels, log, ch) && RecOk(b, rec, log) && x in rec
    ensures x !in ChainOf(ch, slot)
  {
    if x in ChainOf(ch, slot) {
      ChainIn(ch, slot, x);
      ChainPos(b, labels, log, ch, slot, x);
      hide Waiting, LabelsOk;
    }
  }

  /** A definition: its references are filled in, its own word is set. */
  lemma DefinedOk(b: map<int, int>, labels: map<int, int>, rec: map<nat, int>, log: seq<Event>, ch: Chains, top: seq<nat>,
                  slot: int, pos: nat, v: int)
    requires MidOk(b, labels, rec, log, ch, top) && SecOf(pos) < |top| && top[SecOf(pos)] == pos > 0
    ensures MidOk(Collapsed(b, ChainOf(ch, slot), pos)[pos := v], labels[slot := 0 - pos], rec[pos := v],
                  log + [Def(slot, pos)], ch[slot := []], top[SecOf(pos) := pos + 1])
    ensures pos !in rec
  {
    hide LabelsOk, Collapsed;
    var c := ChainOf(ch, slot);
    FreshAt(rec, log, top, pos);
    DefOk(b, labels, log, ch, slot, pos);
    forall x <- rec
      ensures Rd(Collapsed(b, c, pos), x) == rec[x]
    {
      ChainApart(b, labels, rec, log, ch, slot, x);
      CollapsedRead(b, c, pos, x);
    }
    var log' := log + [Def(slot, pos)];
    assert RecOk(Collapsed(b, c, pos), rec, log');
    OtherWrite(Collapsed(b, c, pos), labels[slot := 0 - pos], log', ch[slot := []], pos, v);
    Raise(rec, log, top, SecOf(pos), pos + 1);
    BelowAfter(rec[pos := v], log, top[SecOf(pos) := pos + 1], Def(slot, pos));
  }

  lemma ForgottenOk(b: map<int, int>, labels: map<int, int>, rec: map<nat, int>, log: seq<Event>, ch: Chains, top: seq<nat>, slot: int)
    requires MidOk(b, labels, rec, log, ch, top) && Local(slot) && Rd(labels, slot) <= 0
    ensures MidOk(b, labels[slot := 0], rec, log + [Reset(slot)], ch, top)
  {
    hide LabelsOk;
    ResetOk(b, labels, log, ch, slot);
    BelowAfter(rec, log, top, Reset(slot));
  }

  // --------------------------------------------------------- steps and events

  ghost predicate Kept(rec: map<nat, int>, rec': map<nat, int>) { forall x <- rec :: x in rec' && rec'[x] == rec[x] }

  lemma RecKept(rec: map<nat, int>, rec': map<nat, int>, t: Step)
    requires RecIn(rec, t) && Kept(rec, rec')
    ensures RecIn(rec', t)
  {
  }

  /** The log tells of exactly the references and labels of the sections. */
  ghost predicate Logged(log: seq<Event>, tr: seq<seq<Step>>) {
    && (forall s, i :: 0 <= s < |tr| && 0 <= i < |tr[s]| ==> forall e <- EventOf(tr[s][i]) :: e in log)
    && (forall e <- log :: !e.Reset? ==> EventAt(tr, e))
  }

  /** Some step makes event e. */
  ghost predicate EventAt(tr: seq<seq<Step>>, e: Event) {
    exists s, i :: 0 <= s < |tr| && 0 <= i < |tr[s]| && EventOf(tr[s][i]) == [e]
  }

  ghost predicate LabelIn(tr: seq<seq<Step>>, pos: nat) {
    exists s, i :: 0 <= s < |tr| && 0 <= i < |tr[s]| && IsLabel(tr[s][i].op) && tr[s][i].pos == pos
  }

  lemma {:induction false} EventFrom(ts: seq<Step>, e: Event) returns (i: nat)
    requires e in EventsOf(ts)
    ensures i < |ts| && e in EventOf(ts[i])
  {
    var n := |ts| - 1;
    if e in EventOf(ts[n]) {
      i := n;
    } else {
      i := EventFrom(ts[..n], e);
    }
  }

  lemma {:induction false} EventIn(ts: seq<Step>, i: nat, e: Event)
    requires i < |ts| && e in EventOf(ts[i])
    ensures e in EventsOf(ts)
  {
    var n := |ts| - 1;
    if i < n {
      EventIn(ts[..n], i, e);
    }
  }

  lemma LoggedAfter(log: seq<Event>, tr: seq<seq<Step>>, s: nat, ts: seq<Step>)
    requires Logged(log, tr) && s < |tr|
    ensures Logged(log + EventsOf(ts), tr[s := tr[s] + ts])
  {
    var tr', log' := tr[s := tr[s] + ts], log + EventsOf(ts);
    forall r, i | 0 <= r < |tr'| && 0 <= i < |tr'[r]|
      ensures forall e <- EventOf(tr'[r][i]) :: e in log'
    {
      if r == s && i >= |tr[s]| {
        forall e <- EventOf(tr'[r][i])
          ensures e in EventsOf(ts)
        {
          EventIn(ts, i - |tr[s]|, e);
        }
      } else {
        assert tr'[r][i] == tr[r][i];
      }
    }
    forall e <- log' | !e.Reset?
      ensures EventAt(tr', e)
    {
      if e in log {
        EventKept(tr, s, ts, e);
      } else {
        var i := EventFrom(ts, e);
        assert tr'[s][|tr[s]| + i] == ts[i];
      }
    }
  }

  lemma EventKept(tr: seq<seq<Step>>, s: nat, ts: seq<Step>, e: Event)
    requires EventAt(tr, e) && s < |tr|
    ensures EventAt(tr[s := tr[s] + ts], e)
  {
    var r, i :| 0 <= r < |tr| && 0 <= i < |tr[r]| && EventOf(tr[r][i]) == [e];
    assert tr[s := tr[s] + ts][r][i] == tr[r][i];
  }

  lemma LabelOf(tr: seq<seq<Step>>, e: Event)
    requires EventAt(tr, e) && e.Def?
    ensures LabelIn(tr, e.pos)
  {
    var r, i :| 0 <= r < |tr| && 0 <= i < |tr[r]| && EventOf(tr[r][i]) == [e];
    assert IsLabel(tr[r][i].op);
  }

  // -------------------------------------------------------------- before linking

  /** A waiting reference shows as a positive label word. */
  lemma WaitingShows(b: map<int, int>, labels: map<int, int>, log: seq<Event>, ch: Chains, i: nat)
    requires LabelsOk(b, labels, log, ch) && i < |log| && log[i].Ref? && Waiting(log, i)
    ensures Rd(labels, log[i].slot) > 0 && InChain(ch, log[i].slot, log[i].pos)
  {
    hide Waiting, Means;
    assert RefHolds(b, log, ch, i) && SlotOk(b, labels, ch, log[i].slot);
  }

  /** References are resolved: they hold the position of the label they mean, or stand
      for a global label defined elsewhere. */
  ghost predicate Resolved(b: map<int, int>, log: seq<Event>) {
    forall i :: 0 <= i < |log| && log[i].Ref? ==> ResolvedAt(b, log, i)
  }

  ghost predicate ResolvedAt(b: map<int, int>, log: seq<Event>, i: nat)
    requires i < |log| && log[i].Ref?
  {
    if Waiting(log, i) then log[i].slot >= 10 && Rd(b, log[i].pos) == -log[i].slot else Means(log, i, Rd(b, log[i].pos))
  }

  /** What a resolved reference holds: a label's position, or minus a global's number. */
  lemma ResolvedTo(b: map<int, int>, log: seq<Event>, tr: seq<seq<Step>>, s: nat, i: nat)
    requires Resolved(b, log) && Logged(log, tr) && s < |tr| && i < |tr[s]| && IsRef(tr[s][i].op)
    ensures Rd(b, tr[s][i].pos) <= -10 || (Rd(b, tr[s][i].pos) >= 0 && LabelIn(tr, Rd(b, tr[s][i].pos)))
  {
    var t := tr[s][i];
    assert EventOf(t)[0] in log;
    var k :| 0 <= k < |log| && log[k] == EventOf(t)[0];
    assert ResolvedAt(b, log, k);
    if !Waiting(log, k) {
      MeansDef(log, k, Rd(b, t.pos));
      var e :| e in log && e.Def? && e.pos == Rd(b, t.pos);
      LabelOf(tr, e);
    }
    hide Waiting, Means;
  }

  lemma MeansDef(log: seq<Event>, i: nat, q: int)
    requires i < |log| && Means(log, i, q)
    ensures exists e <- log :: e.Def? && e.pos == q
  {
    if LooksBack(log, i) {
      var j :| PrevDef(log, i, log[i].slot, j) && log[j].pos == q;
      assert log[j] in log;
    } else {
      var j :| NextDef(log, i, log[i].slot, j) && log[j].pos == q;
      assert log[j] in log;
    }
  }
}
