// When dasm_put accepts an action, and which error it reports otherwise, with
// DASM_CHECKS (luajit/dynasm/dasm_x86.h).

module DasmCheck {
  import opened DasmOps
  import opened DasmLabels
  import opened DasmRecord

  datatype Status =
    | Fine
    | RangeI(p: nat) | RangeLG(p: nat) | RangePC(p: nat) | RangeSec(p: nat)
    | UndefL(n: nat) | UndefPC(n: nat) | MatchSec(n: nat)
    | Phase

  // -------------------------------------------------- the label a local reference finds

  /** Event j defines the slot, and only backward references to it came after. */
  ghost predicate StandsAt(log: seq<Event>, slot: int, j: int) {
    && 0 <= j < |log| && DefOf(log[j], slot)
    && forall m :: j < m < |log| ==> log[m].slot != slot || Backward(log[m])
  }

  predicate Backward(e: Event) { e.Ref? && !e.fwd }

  /** Apart from backward references, the last event of the slot is a definition. */
  ghost predicate Standing(log: seq<Event>, slot: int) { exists j :: StandsAt(log, slot, j) }

  lemma StandingAfter(log: seq<Event>, e: Event, slot: int)
    ensures Standing(log + [e], slot) <==> if e.slot != slot || Backward(e) then Standing(log, slot) else e.Def?
  {
    var log' := log + [e];
    assert forall m :: 0 <= m < |log| ==> log'[m] == log[m];
    assert log'[|log|] == e;
    if e.slot != slot || Backward(e) {
      if Standing(log, slot) {
        var j :| StandsAt(log, slot, j);
        assert StandsAt(log', slot, j);
      }
      if Standing(log', slot) {
        var j :| StandsAt(log', slot, j);
        assert StandsAt(log, slot, j);
      }
    } else if e.Def? {
      assert StandsAt(log', slot, |log|);
    }
  }

  /** The label words tell which definitions stand. */
  ghost predicate Tells(labels: map<int, int>, log: seq<Event>) {
    forall slot :: Rd(labels, slot) < 0 <==> Standing(log, slot)
  }

  lemma TellsAfter(labels: map<int, int>, log: seq<Event>, e: Event, labels': map<int, int>)
    requires Tells(labels, log) && forall slot :: slot != e.slot ==> Rd(labels', slot) == Rd(labels, slot)
    requires Rd(labels', e.slot) < 0 <==> if Backward(e) then Rd(labels, e.slot) < 0 else e.Def?
    ensures Tells(labels', log + [e])
  {
    hide Standing;
    forall slot ensures Rd(labels', slot) < 0 <==> Standing(log + [e], slot) {
      StandingAfter(log, e, slot);
      assert Rd(labels, slot) < 0 <==> Standing(log, slot);
    }
  }

  // --------------------------------------------------------------------- the checks

  /** The range checks on immediate operands. */
  predicate InRange(op: Op, n: int) {
    match op
    case ImmS => Small(n)
    case ImmB => 0 <= n < 256
    case ImmW => 0 <= n < 65536
    case ImmWB => Small(n) || 0 <= n < 65536
    case _ => true
  }

  /** An action is accepted, after the events in the log: its operand is in range, there is
      such a label, and a backward reference to a local label finds one. */
  ghost predicate Passes(op: Op, n: int, log: seq<Event>, lgmax: nat, pcmax: nat, maxsection: nat) {
    match op
    case RelLG(k) => k > 246 || (k < lgmax && (k < 10 ==> Standing(log, k)))
    case ImmLG(k) => k > 246 || (k < lgmax && (k < 10 ==> Standing(log, k)))
    case LabelLG(k) => k < lgmax
    case RelPC => 0 <= n < pcmax
    case ImmPC => 0 <= n < pcmax
    case LabelPC => 0 <= n < pcmax
    case Section(k) => k < maxsection
    case _ => InRange(op, n)
  }

  /** The error for action p, by the kind of its operand. */
  function Complaint(op: Op, p: nat): Status {
    if op.RelLG? || op.ImmLG? || op.LabelLG? then RangeLG(p)
    else if op.RelPC? || op.ImmPC? || op.LabelPC? then RangePC(p)
    else if op.Section? then RangeSec(p)
    else RangeI(p)
  }

  /** Every action of a put is accepted, each after the events of those before it. */
  ghost predicate AllPass(r: seq<Step>, log: seq<Event>, lgmax: nat, pcmax: nat, maxsection: nat) {
    forall k :: 0 <= k < |r| ==> Passes(r[k].op, r[k].n, log + EventsOf(r[..k]), lgmax, pcmax, maxsection)
  }

  /** Action k of a put is the first that is not accepted. */
  ghost predicate FirstFault(r: seq<Step>, log: seq<Event>, lgmax: nat, pcmax: nat, maxsection: nat, k: int) {
    && 0 <= k < |r| && r[k].p >= 0
    && AllPass(r[..k], log, lgmax, pcmax, maxsection)
    && !Passes(r[k].op, r[k].n, log + EventsOf(r[..k]), lgmax, pcmax, maxsection)
  }

  /** The error is that of the first action that is not accepted. */
  ghost predicate Faulty(r: seq<Step>, log: seq<Event>, lgmax: nat, pcmax: nat, maxsection: nat, st: Status) {
    exists k :: FirstFault(r, log, lgmax, pcmax, maxsection, k) && st == Complaint(r[k].op, r[k].p)
  }

  lemma PassStep(done: seq<Step>, t: Step, log: seq<Event>, lgmax: nat, pcmax: nat, maxsection: nat)
    requires AllPass(done, log, lgmax, pcmax, maxsection)
    requires Passes(t.op, t.n, log + EventsOf(done), lgmax, pcmax, maxsection)
    ensures AllPass(done + [t], log, lgmax, pcmax, maxsection)
  {
    hide Passes, EventsOf;
    var r := done + [t];
    forall k | 0 <= k < |r|
      ensures Passes(r[k].op, r[k].n, log + EventsOf(r[..k]), lgmax, pcmax, maxsection)
    {
      if k < |done| {
        assert r[..k] == done[..k] && r[k] == done[k];
      } else {
        assert r[..k] == done;
      }
    }
  }

  lemma FaultAt(done: seq<Step>, t: Step, rest: seq<Step>, log: seq<Event>, lgmax: nat, pcmax: nat, maxsection: nat)
    requires AllPass(done, log, lgmax, pcmax, maxsection) && t.p >= 0
    requires !Passes(t.op, t.n, log + EventsOf(done), lgmax, pcmax, maxsection)
    ensures Faulty(done + [t] + rest, log, lgmax, pcmax, maxsection, Complaint(t.op, t.p))
    ensures !AllPass(done + [t] + rest, log, lgmax, pcmax, maxsection)
  {
    hide Passes, EventsOf, Complaint;
    var r := done + [t] + rest;
    assert r[..|done|] == done && r[|done|] == t;
    assert FirstFault(r, log, lgmax, pcmax, maxsection, |done|);
  }

  /** The start index of a put is not checked. */
  lemma FirstPasses(t: Step, log: seq<Event>, lgmax: nat, pcmax: nat, maxsection: nat)
    requires t.op.Begin?
    ensures AllPass([t], log, lgmax, pcmax, maxsection)
  {
  }

  // ------------------------------------------------------------------- what does not hold

  /** Which backward references to local labels are refused although the label was defined:
      those where a forward reference or the end of a step came after the definition. */
  lemma LocalRefused(log: seq<Event>, k: nat, j: nat)
    requires k < 10 && j < |log| && DefOf(log[j], k)
    ensures !Standing(log, k) <==>
              exists m :: j < m < |log| && log[m].slot == k && !Backward(log[m]) && !log[m].Def?
                          && forall i :: m < i < |log| ==> !DefOf(log[i], k)
  {
    if Standing(log, k) {
      var i :| StandsAt(log, k, i);
      assert DefOf(log[i], k);
    } else {
      var i := LastOpen(log, k, j);
      assert log[i].slot == k && !Backward(log[i]) && !log[i].Def?;
    }
  }

  /** The last event of the slot that is no backward reference, if it is no definition. */
  lemma {:induction false} LastOpen(log: seq<Event>, k: int, j: nat) returns (i: nat)
    requires j < |log| && DefOf(log[j], k) && !Standing(log, k)
    ensures j < i < |log| && log[i].slot == k && !Backward(log[i]) && !log[i].Def?
    ensures forall m :: i < m < |log| ==> !DefOf(log[m], k)
    decreases |log|
  {
    var n := |log| - 1;
    var e := log[n];
    assert log == log[..n] + [e];
    StandingAfter(log[..n], e, k);
    if e.slot == k && !Backward(e) {
      i := n;
    } else {
      i := LastOpen(log[..n], k, j);
    }
  }

  /** A label, a forward reference to the label of the same number that comes next, and a
      backward reference to the first one. */
  function Crossing(): seq<Op> { [LabelLG(1), ImmLG(247), ImmLG(1), Stop] }

  /** The put of these three actions fails at the last of them, in any state of the labels,
      while each of the references alone is accepted behind the label. */
  lemma CrossingFails(log: seq<Event>, pos: nat, est: nat, lgmax: nat, pcmax: nat, maxsection: nat)
    requires lgmax >= 10
    ensures Terminated(Crossing(), 0)
    ensures Faulty(PutSteps(Crossing(), 0, [], pos, est), log, lgmax, pcmax, maxsection, RangeLG(2))
    ensures Passes(ImmLG(1), 0, log + [Def(1, pos)], lgmax, pcmax, maxsection)
    ensures Passes(ImmLG(247), 0, log + [Def(1, pos)], lgmax, pcmax, maxsection)
  {
    hide Steps, Crossing, Standing, AllPass, Faulty, EventsOf, Terminated;
    CrossingSteps(pos, est);
    var t0, t1 := Step(Begin, -1, 0, pos, est), Step(LabelLG(1), 0, 0, pos + 1, est);
    var t2, t3 := Step(ImmLG(247), 1, 0, pos + 2, est), Step(ImmLG(1), 2, 0, pos + 3, est + 4);
    var t4 := Step(Stop, 3, 0, pos + 4, est + 8);
    CrossingEvents(log, t0, t1, t2, lgmax, pcmax, maxsection);
    FaultAt([t0, t1, t2], t3, [t4], log, lgmax, pcmax, maxsection);
    assert [t0, t1, t2] + [t3] + [t4] == [t0] + [t1, t2, t3, t4];
    StandingAfter(log, Def(1, pos), 1);
  }

  lemma CrossingSteps(pos: nat, est: nat)
    ensures Terminated(Crossing(), 0)
    ensures Steps(Crossing(), 0, [], pos + 1, est)
         == [Step(LabelLG(1), 0, 0, pos + 1, est), Step(ImmLG(247), 1, 0, pos + 2, est), Step(ImmLG(1), 2, 0, pos + 3, est + 4),
             Step(Stop, 3, 0, pos + 4, est + 8)]
  {
    var list := Crossing();
    assert Terminated(list, 3);
    assert Terminated(list, 2);
    var t3 := Step(ImmLG(1), 2, 0, pos + 3, est + 4);
    var t4 := Step(Stop, 3, 0, pos + 4, est + 8);
    assert Steps(list, 3, [], pos + 4, est + 8) == [t4];
    assert Steps(list, 2, [], pos + 3, est + 4) == [t3] + [t4];
    CrossingStart(pos, est, [t3] + [t4]);
  }

  lemma CrossingStart(pos: nat, est: nat, r: seq<Step>)
    requires Terminated(Crossing(), 2) && r == Steps(Crossing(), 2, [], pos + 3, est + 4)
    ensures Terminated(Crossing(), 0)
    ensures Steps(Crossing(), 0, [], pos + 1, est)
         == [Step(LabelLG(1), 0, 0, pos + 1, est), Step(ImmLG(247), 1, 0, pos + 2, est)] + r
  {
    var list := Crossing();
    assert Terminated(list, 1);
    var t1, t2 := Step(LabelLG(1), 0, 0, pos + 1, est), Step(ImmLG(247), 1, 0, pos + 2, est);
    assert Steps(list, 1, [], pos + 2, est) == [t2] + r;
    assert Steps(list, 0, [], pos + 1, est) == [t1] + ([t2] + r);
  }

  lemma CrossingEvents(log: seq<Event>, t0: Step, t1: Step, t2: Step, lgmax: nat, pcmax: nat, maxsection: nat)
    requires lgmax >= 10 && t0.op == Begin && t1.op == LabelLG(1) && t2.op == ImmLG(247)
    ensures AllPass([t0, t1, t2], log, lgmax, pcmax, maxsection)
    ensures !Standing(log + EventsOf([t0, t1, t2]), 1)
  {
    FirstPasses(t0, log, lgmax, pcmax, maxsection);
    PassStep([t0], t1, log, lgmax, pcmax, maxsection);
    assert [t0] + [t1] == [t0, t1];
    PassStep([t0, t1], t2, log, lgmax, pcmax, maxsection);
    assert [t0, t1] + [t2] == [t0, t1, t2];
    var d := log + EventsOf([t0, t1]);
    assert [t0, t1, t2][..2] == [t0, t1];
    assert EventOf(t2) == [Ref(1, t2.pos, true)];
    assert log + EventsOf([t0, t1, t2]) == d + [Ref(1, t2.pos, true)];
    StandingAfter(d, Ref(1, t2.pos, true), 1);
  }
}
