// The start of dasm_link: global labels that are defined elsewhere
// (luajit/dynasm/dasm_x86.h).

module DasmGlobals {
  import opened DasmOps
  import opened DasmLabels
  import opened DasmRecord

  /** Waiting references to globals 10 up to idx hold minus their number; all others are as before. */
  ghost predicate Marked(b0: map<int, int>, b: map<int, int>, labels: map<int, int>, log: seq<Event>, ch: Chains,
                         rec: map<nat, int>, idx: nat) {
    && (forall slot :: slot >= idx ==> SlotOk(b, labels, ch, slot))
    && (forall x <- rec :: Rd(b, x) == rec[x])
    && (forall i :: 0 <= i < |log| && log[i].Ref? ==> MarkedAt(b0, b, log, i, idx))
  }

  ghost predicate MarkedAt(b0: map<int, int>, b: map<int, int>, log: seq<Event>, i: nat, idx: nat)
    requires i < |log| && log[i].Ref?
  {
    Rd(b, log[i].pos) == if Waiting(log, i) && 10 <= log[i].slot < idx then -log[i].slot else Rd(b0, log[i].pos)
  }

  lemma MarkStart(b: map<int, int>, labels: map<int, int>, log: seq<Event>, ch: Chains, rec: map<nat, int>)
    requires LabelsOk(b, labels, log, ch) && RecOk(b, rec, log)
    ensures Marked(b, b, labels, log, ch, rec, 10)
  {
    hide Waiting;
  }

  /** The chain of global idx is replaced by the marker. */
  lemma MarkStep(b0: map<int, int>, b: map<int, int>, labels: map<int, int>, log: seq<Event>, ch: Chains, rec: map<nat, int>,
                 idx: nat, b': map<int, int>)
    requires LabelsOk(b0, labels, log, ch) && RecOk(b0, rec, log) && Marked(b0, b, labels, log, ch, rec, idx) && idx >= 10
    requires b' == Collapsed(b, ChainOf(ch, idx), 0 - idx)
    ensures Marked(b0, b', labels, log, ch, rec, idx + 1)
  {
    hide LabelsOk, RecOk, Waiting, SlotOk, Collapsed, InChain;
    forall slot | slot >= idx + 1
      ensures SlotOk(b', labels, ch, slot)
    {
      OtherSlot(b0, b, labels, log, ch, idx, slot, b');
    }
    forall x <- rec
      ensures Rd(b', x) == rec[x]
    {
      ChainApart(b0, labels, rec, log, ch, idx, x);
      CollapsedRead(b, ChainOf(ch, idx), 0 - idx, x);
    }
    forall i | 0 <= i < |log| && log[i].Ref?
      ensures MarkedAt(b0, b', log, i, idx + 1)
    {
      assert MarkedAt(b0, b, log, i, idx);
      CollapsedRead(b, ChainOf(ch, idx), 0 - idx, log[i].pos);
      RefOnChain(b0, labels, log, ch, i, idx);
    }
  }

  /** A reference is on the chain of a slot exactly if it waits for that slot. */
  lemma RefOnChain(b: map<int, int>, labels: map<int, int>, log: seq<Event>, ch: Chains, i: nat, slot: int)
    requires LabelsOk(b, labels, log, ch) && i < |log| && log[i].Ref?
    ensures log[i].pos in ChainOf(ch, slot) <==> Waiting(log, i) && log[i].slot == slot
  {
    if log[i].pos in ChainOf(ch, slot) {
      ChainIn(ch, slot, log[i].pos);
      ChainPos(b, labels, log, ch, slot, log[i].pos);
      hide Waiting;
      var k :| 0 <= k < |log| && log[k].Ref? && log[k].slot == slot && log[k].pos == log[i].pos && Waiting(log, k);
      SameRef(b, labels, log, ch, i, k);
    }
    hide Waiting;
    if Waiting(log, i) {
      WaitingShows(b, labels, log, ch, i);
    }
  }

  lemma SameRef(b: map<int, int>, labels: map<int, int>, log: seq<Event>, ch: Chains, i: nat, k: nat)
    requires LabelsOk(b, labels, log, ch) && i < |log| && k < |log| && log[i].Ref? && log[k].Ref? && log[i].pos == log[k].pos
    ensures i == k
  {
    hide Waiting, RefHolds, SlotOk, SlotKnows, ChainWaits;
  }

  lemma OtherSlot(b0: map<int, int>, b: map<int, int>, labels: map<int, int>, log: seq<Event>, ch: Chains, idx: nat, slot: int,
                  b': map<int, int>)
    requires LabelsOk(b0, labels, log, ch) && SlotOk(b, labels, ch, slot) && slot != idx
    requires b' == Collapsed(b, ChainOf(ch, idx), 0 - idx)
    ensures SlotOk(b', labels, ch, slot)
  {
    hide LabelsOk, Collapsed, Thread;
    forall p <- ChainOf(ch, slot)
      ensures Rd(b', p) == Rd(b, p)
    {
      ChainIn(ch, slot, p);
      OneChain(b0, labels, log, ch, idx, slot, p);
      CollapsedRead(b, ChainOf(ch, idx), 0 - idx, p);
    }
    if Rd(labels, slot) >= 0 {
      ThreadFrame(b, Rd(labels, slot), ChainOf(ch, slot), b');
    }
  }

  lemma MarkSkip(b0: map<int, int>, b: map<int, int>, labels: map<int, int>, log: seq<Event>, ch: Chains, rec: map<nat, int>, idx: nat)
    requires LabelsOk(b0, labels, log, ch) && Marked(b0, b, labels, log, ch, rec, idx) && Rd(labels, idx) <= 0
    ensures Marked(b0, b, labels, log, ch, rec, idx + 1)
  {
    hide LabelsOk, Waiting, SlotOk;
    forall i | 0 <= i < |log| && log[i].Ref?
      ensures MarkedAt(b0, b, log, i, idx + 1)
    {
      assert MarkedAt(b0, b, log, i, idx);
      if Waiting(log, i) {
        WaitingShows(b0, labels, log, ch, i);
      }
    }
  }

  /** With no PC label and no local label pending, every reference is resolved. */
  lemma MarkDone(b0: map<int, int>, b: map<int, int>, labels: map<int, int>, log: seq<Event>, ch: Chains, rec: map<nat, int>,
                 lgmax: nat, pcmax: nat)
    requires LabelsOk(b0, labels, log, ch) && Marked(b0, b, labels, log, ch, rec, lgmax)
    requires forall i :: 0 <= i < |log| ==> 0 - pcmax <= log[i].slot < lgmax
    requires forall slot :: 0 - pcmax <= slot < 10 ==> Rd(labels, slot) <= 0
    ensures Resolved(b, log)
  {
    hide LabelsOk, Waiting, SlotOk, Means;
    forall i | 0 <= i < |log| && log[i].Ref?
      ensures ResolvedAt(b, log, i)
    {
      assert MarkedAt(b0, b, log, i, lgmax);
      if Waiting(log, i) {
        WaitingShows(b0, labels, log, ch, i);
      } else {
        SettledMeans(b0, labels, log, ch, i);
      }
    }
  }

  lemma SettledMeans(b: map<int, int>, labels: map<int, int>, log: seq<Event>, ch: Chains, i: nat)
    requires LabelsOk(b, labels, log, ch) && i < |log| && log[i].Ref? && !Waiting(log, i)
    ensures Means(log, i, Rd(b, log[i].pos))
  {
    hide Waiting, Means;
    assert RefHolds(b, log, ch, i);
  }
}
