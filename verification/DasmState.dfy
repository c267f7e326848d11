// The encoder state and its three passes: dasm_put, dasm_link and dasm_encode,
// with DASM_CHECKS (luajit/dynasm/dasm_x86.h).

module DasmState {
  import opened DasmOps
  import opened DasmLabels
  import opened DasmLayout
  import opened DasmRecord
  import opened DasmCheck
  import opened DasmPass
  import opened DasmGlobals
  import opened DasmWalk

  /** Events stay within the label arrays. */
  ghost predicate SlotsIn(log: seq<Event>, lgmax: nat, pcmax: nat) {
    forall i :: 0 <= i < |log| ==> 0 - pcmax <= log[i].slot < lgmax
  }

  /** Action operands are bytes. */
  predicate BytesOk(op: Op) {
    && (op.RelLG? || op.ImmLG? || op.LabelLG? ==> op.n < 256)
    && (op.Byte? || op.Esc? ==> op.v < 256)
  }

  ghost predicate SectionsAt(list: seq<Op>, tr: seq<seq<Step>>, pos: seq<nat>, ofs: seq<nat>) {
    && |tr| == |pos| == |ofs|
    && forall s :: 0 <= s < |tr| ==> TraceOk(list, tr[s], s * SEC, pos[s], ofs[s]) && s * SEC <= pos[s] < s * SEC + SEC
  }

  ghost predicate AllRec(rec: map<nat, int>, tr: seq<seq<Step>>) {
    forall s, i :: 0 <= s < |tr| && 0 <= i < |tr[s]| ==> RecIn(rec, tr[s][i])
  }

  /** DASM_M_GROW: the new size of an array, doubled until it suffices. */
  function Grown(size: nat, need: nat): (r: nat)
    ensures r >= need && r >= size
  {
    if size >= need then size else Doubled(if size < 16 then 16 else size, need)
  }

  function Doubled(size: nat, need: nat): (r: nat)
    requires size > 0
    ensures r >= need && r >= size
    decreases need - size
  {
    if size >= need then size else Doubled(size + size, need)
  }

  const INT_SIZE := 4

  class State {
    const list: seq<Op>
    const maxsection: nat
    const lgmax: nat
    var pcmax: nat

    var labels: map<int, int>
    var buf: map<int, int>
    var secPos: seq<nat>
    var secOfs: seq<nat>
    var section: nat
    var status: Status
    var codesize: int
    var globals: map<int, int>

    ghost var tr: seq<seq<Step>>
    ghost var rec: map<nat, int>
    ghost var log: seq<Event>
    ghost var ch: Chains
    ghost var fin: seq<int>
    ghost var shr: seq<nat>

    /** The buffers and labels while a put is under way; top is how far each section has come. */
    ghost predicate Mid(top: seq<nat>)
      reads this
    {
      MidOk(buf, labels, rec, log, ch, top) && SlotsIn(log, lgmax, pcmax) && Rd(labels, 0) <= 0 && Tells(labels, log)
    }

    /** Between puts. */
    ghost predicate Recording()
      reads this
    {
      && status.Fine? && 10 <= lgmax && section < maxsection == |tr|
      && (forall p :: 0 <= p < |list| ==> BytesOk(list[p]))
      && Mid(secPos)
      && SectionsAt(list, tr, secPos, secOfs)
      && AllRec(rec, tr)
      && Logged(log, tr)
    }

    /** dasm_init, dasm_setupglobal, dasm_growpc and dasm_setup for a new state. */
    constructor (list: seq<Op>, maxsection: nat, maxgl: nat, maxpc: nat)
      requires maxsection > 0 && forall p :: 0 <= p < |list| ==> BytesOk(list[p])
      ensures Recording() && this.list == list && this.maxsection == maxsection && log == [] && section == 0
      ensures tr == seq(maxsection, _ => [])
    {
      this.list := list;
      this.maxsection := maxsection;
      lgmax, pcmax := Grown(0, (10 + maxgl) * INT_SIZE) / INT_SIZE, Grown(0, maxpc * INT_SIZE) / INT_SIZE;
      labels, buf, globals := map[], map[], map[];
      secPos, secOfs := seq(maxsection, s requires s >= 0 => s * SEC), seq(maxsection, _ => 0);
      section, status, codesize := 0, Fine, 0;
      tr, rec, log, ch, fin, shr := seq(maxsection, _ => []), map[], [], map[], [], [];
      new;
      EmptyOk(seq(maxsection, s requires s >= 0 => s * SEC));
    }

    /** dasm_growpc: room for more PC labels. */
    method GrowPc(maxpc: nat)
      requires Recording()
      modifies this`pcmax
      ensures Recording() && pcmax >= maxpc && pcmax >= old(pcmax)
    {
      pcmax := Grown(pcmax * INT_SIZE, maxpc * INT_SIZE) / INT_SIZE;
    }

    /** Fills in the references on the chain of a slot. */
    method Collapse(slot: int, v: int)
      requires SlotOk(buf, labels, ch, slot)
      modifies this`buf
      ensures buf == Collapsed(old(buf), ChainOf(ch, slot), v)
    {
      hide Collapsed, Thread;
      var n := Rd(labels, slot);
      ghost var c := ChainOf(ch, slot);
      ThreadEnds(buf, n, c);
      while n > 0
        invariant if n < 0 then c == [] else Thread(buf, n, c)
        invariant Collapsed(buf, c, v) == Collapsed(old(buf), ChainOf(ch, slot), v)
        decreases |c|
      {
        var pb := n;
        CollapseStep(buf, n, c, v);
        n := Rd(buf, pb);
        buf := buf[pb := v];
        c := c[1..];
        ThreadEnds(buf, n, c);
      }
      ThreadEnds(buf, n, c);
      CollapsedNone(buf, v);
    }

    /** One word that is set once. */
    method StoreWord(pos: nat, v: int, ghost top: seq<nat>, ghost pos': nat)
      requires Mid(top) && SecOf(pos) < |top| && top[SecOf(pos)] <= pos < pos'
      modifies this`buf, this`rec
      ensures Mid(top[SecOf(pos) := pos']) && rec == old(rec)[pos := v] && Kept(old(rec), rec)
    {
      hide MidOk, SecOf;
      WordOk(buf, labels, rec, log, ch, top, pos, v, pos');
      buf := buf[pos := v];
      rec := rec[pos := v];
    }

    /** The reference part of dasm_put: the label's position if the label exists, and
        otherwise a link on the chain of its slot. */
    method StoreRef(op: Op, p: nat, n: int, pos: nat, ghost top: seq<nat>)
      requires Mid(top) && SecOf(pos) < |top| && top[SecOf(pos)] == pos > 0 && IsRef(op) && BytesOk(op) && status.Fine? && lgmax >= 10
      modifies this`buf, this`labels, this`log, this`ch, this`status
      ensures status == if Passes(op, n, old(log), lgmax, pcmax, maxsection) then Fine else Complaint(op, p)
      ensures status.Fine? ==> Mid(top[SecOf(pos) := pos + 1])
      ensures status.Fine? ==> log == old(log) + [Ref(SlotOf(op, n), pos, Forward(op))]
    {
      hide MidOk, SecOf, Standing;
      ghost var labels0 := labels;
      var slot := SlotOf(op, n);
      if op.RelLG? || op.ImmLG? {
        if op.n <= 246 {
          if !(op.n >= 10 || Rd(labels, slot) < 0) || op.n >= lgmax {
            status := RangeLG(p);
            return;
          }
        }
      } else if n < 0 || n >= pcmax {
        status := RangePC(p);
        return;
      }
      var v := Rd(labels, slot);
      if v < 0 && !Forward(op) {
        KnownOk(buf, labels, rec, log, ch, top, slot, pos);
        buf := buf[pos := -v];
      } else {
        if v < 0 {
          v := 0;
        }
        LinkedOk(buf, labels, rec, log, ch, top, slot, pos, Forward(op), v);
        ch := ch[slot := [pos] + ChainOf(ch, slot)];
        buf := buf[pos := v];
        labels := labels[slot := pos];
      }
      TellsAfter(labels0, log, Ref(slot, pos, Forward(op)), labels);
      log := log + [Ref(slot, pos, Forward(op))];
    }

    /** The label part of dasm_put. */
    method StoreLabel(op: Op, p: nat, n: int, pos: nat, ofs: nat, ghost top: seq<nat>)
      requires Mid(top) && SecOf(pos) < |top| && top[SecOf(pos)] == pos > 0 && IsLabel(op) && status.Fine?
      modifies this`buf, this`labels, this`rec, this`log, this`ch, this`status
      ensures status == if Passes(op, n, old(log), lgmax, pcmax, maxsection) then Fine else Complaint(op, p)
      ensures status.Fine? ==> Mid(top[SecOf(pos) := pos + 1]) && rec == old(rec)[pos := ofs] && Kept(old(rec), rec)
      ensures status.Fine? ==> log == old(log) + [Def(SlotOf(op, n), pos)]
    {
      hide LabelsOk, SecOf, RecOk, AllBelow, Standing, Collapsed;
      var slot := SlotOf(op, n);
      if op.LabelLG? {
        if op.n >= lgmax {
          status := RangeLG(p);
          return;
        }
      } else if n < 0 || n >= pcmax {
        status := RangePC(p);
        return;
      }
      DefinedOk(buf, labels, rec, log, ch, top, slot, pos, ofs);
      SlotAt(buf, labels, log, ch, slot);
      Collapse(slot, pos);
      TellsAfter(labels, log, Def(slot, pos), labels[slot := 0 - pos]);
      labels := labels[slot := 0 - pos];
      buf := buf[pos := ofs];
      rec := rec[pos := ofs];
      log := log + [Def(slot, pos)];
      ch := ch[slot := []];
    }

    /** One action of dasm_put that is not the last. */
    method PutAction(p: nat, n: int, pos: nat, ofs: nat, ghost top: seq<nat>) returns (pos': nat, ofs': nat)
      requires p < |list| && !Ends(list[p]) && !list[p].Begin? && (list[p].Space? ==> n >= 0) && BytesOk(list[p])
      requires Mid(top) && status.Fine? && lgmax >= 10
      requires SecOf(pos) < |top| && top[SecOf(pos)] == pos > 0 && SecOf(pos + Slots(list[p])) == SecOf(pos)
      modifies this`buf, this`labels, this`rec, this`log, this`ch, this`status
      ensures status == if Passes(list[p], n, old(log), lgmax, pcmax, maxsection) then Fine else Complaint(list[p], p)
      ensures status.Fine? ==>
                pos' == pos + Slots(list[p]) && ofs' == ofs + MaxSize(list[p], n) && Mid(top[SecOf(pos) := pos'])
      ensures status.Fine? ==> Kept(old(rec), rec) && RecIn(rec, Step(list[p], p, n, pos, ofs))
      ensures status.Fine? ==> log == old(log) + EventOf(Step(list[p], p, n, pos, ofs))
    {
      hide MidOk, SecOf, SlotOf, SlotsIn, Forward, Standing, Tells;
      var op := list[p];
      pos', ofs' := pos, ofs;
      SamePos(top, SecOf(pos), pos);
      if HasArg(op) {
        StoreWord(pos, n, top, pos + 1);
        pos' := pos + 1;
        if !InRange(op, n) {
          status := RangeI(p);
          return;
        }
        ofs' := ofs + MaxSize(op, n);
      } else if IsRef(op) {
        StoreRef(op, p, n, pos, top);
        if !status.Fine? {
          return;
        }
        pos', ofs' := pos + 1, ofs + 4;
        if IsRel(op) {
          RoomAfter(pos);
          StoreWord(pos', ofs', top[SecOf(pos) := pos + 1], pos + 2);
          SetTwice(top, SecOf(pos), pos + 1, pos + 2);
          pos' := pos + 2;
        }
      } else if IsLabel(op) {
        StoreLabel(op, p, n, pos, ofs, top);
        if !status.Fine? {
          return;
        }
        pos' := pos + 1;
      } else if op.Align? {
        ofs' := ofs + op.mask;
        StoreWord(pos, ofs', top, pos + 1);
        pos' := pos + 1;
      } else {
        ofs' := ofs + MaxSize(op, n);
      }
    }

    /** The loop of dasm_put: returns behind the last action, at p, unless a check failed. */
    method PutActions(start: nat, args: seq<int>, pos0: nat, ofs0: nat) returns (p: nat, pos: nat, ofs: nat)
      requires Terminated(list, start) && Feeds(list, start, args) && status.Fine? && lgmax >= 10
      requires section < |secPos| && pos0 == secPos[section] && section * SEC <= pos0 && Mid(secPos)
      requires PutLast(list, start, args, pos0, ofs0) < section * SEC + SEC
      requires forall q :: 0 <= q < |list| ==> BytesOk(list[q])
      modifies this`buf, this`labels, this`rec, this`log, this`ch, this`status
      ensures status.Fine? ==> p < |list| && Ends(list[p]) && Mid(secPos[section := pos])
      ensures status.Fine? ==>
                var r := PutSteps(list, start, args, pos0, ofs0);
                r[|r| - 1] == Step(list[p], p, 0, pos, ofs) && DoneOk(old(log), old(rec), log, rec, r)
                && r != [] && AllPass(r[..|r| - 1], old(log), lgmax, pcmax, maxsection)
      ensures !status.Fine? ==>
                var r := PutSteps(list, start, args, pos0, ofs0);
                Faulty(r, old(log), lgmax, pcmax, maxsection, status) && !AllPass(r, old(log), lgmax, pcmax, maxsection)
    {
      hide MidOk, SlotsIn, Slots, RecIn, MaxSize, Progress, DoneOk, EventsOf, TakesArg, PutLast, Feeds, Terminated, BytesOk,
        Passes, AllPass, Faulty, Tells, PutSteps, Steps;
      ghost var sec, top := section, secPos;
      pos, ofs := pos0, ofs0;
      PutLastBound(list, start, args, pos0, ofs0);
      InSec(sec, pos);
      StoreWord(pos, start, top, pos + 1);
      ghost var done := [Step(Begin, -1, start, pos, ofs)];
      FirstDone(log, old(rec), rec, done[0]);
      FirstPasses(done[0], log, lgmax, pcmax, maxsection);
      pos := pos + 1;
      p := start;
      var rest := args;
      FirstProgress(list, start, args, pos0, ofs0);
      while true
        invariant Progress(list, start, args, pos0, ofs0, done, p, rest, pos, ofs)
        invariant DoneOk(old(log), old(rec), log, rec, done) && AllPass(done, old(log), lgmax, pcmax, maxsection)
        invariant p < |list| && status.Fine? && pos > sec * SEC && Mid(top[sec := pos])
        decreases |list| - p
      {
        var op := list[p];
        NextAction(list, start, args, pos0, ofs0, done, p, rest, pos, ofs);
        if Ends(op) {
          break;
        }
        var n := 0;
        if TakesArg(op) {
          n := rest[0];
          rest := rest[1..];
        }
        RoomFor(sec, pos, Slots(op));
        ghost var t, log0, rec0 := Step(op, p, n, pos, ofs), log, rec;
        LogOf(old(log), old(rec), log, rec, done);
        SetTwice(top, sec, pos, pos + Slots(op));
        pos, ofs := PutAction(p, n, pos, ofs, top[sec := pos]);
        if !status.Fine? {
          PutFault(list, start, args, pos0, ofs0, done, t, p + 1, rest, t.pos + Slots(op), t.est + MaxSize(op, n),
                   old(log), lgmax, pcmax, maxsection);
          return;
        }
        PassStep(done, t, old(log), lgmax, pcmax, maxsection);
        DoneStep(old(log), old(rec), log0, rec0, log, rec, done, t);
        done := done + [t];
        p := p + 1;
      }
      EndStep(old(log), old(rec), log, rec, list, start, args, pos0, ofs0, done, p, rest, pos, ofs);
    }

    /** dasm_put */
    method Put(start: nat, args: seq<int>)
      requires Recording() && Terminated(list, start) && Feeds(list, start, args) && BranchesOk(list, start, start)
      requires PutLast(list, start, args, secPos[section], secOfs[section]) < section * SEC + SEC
      modifies this
      ensures pcmax == old(pcmax)
      ensures var r := PutSteps(list, start, args, old(secPos)[old(section)], old(secOfs)[old(section)]);
              && (status.Fine? <==> AllPass(r, old(log), lgmax, pcmax, maxsection))
              && (!status.Fine? ==> Faulty(r, old(log), lgmax, pcmax, maxsection, status))
      ensures !status.Fine? ==> secPos == old(secPos) && secOfs == old(secOfs) && section == old(section) && tr == old(tr)
      ensures status.Fine? ==> Recording()
      ensures status.Fine? ==>
                var s := old(section);
                var r := PutSteps(list, start, args, old(secPos)[s], old(secOfs)[s]);
                && tr == old(tr)[s := old(tr)[s] + r] && log == old(log) + EventsOf(r)
                && section == if r[|r| - 1].op.Section? then r[|r| - 1].op.n else s
    {
      hide MidOk, SectionsAt, Logged, AllRec, SlotsIn, BranchesOk, RecIn, EventsOf, PutSteps, Terminated, Feeds,
        AllPass, Faulty, Tells;
      var sec := section;
      SectionStart(list, tr, secPos, secOfs, sec);
      ghost var r := PutSteps(list, start, args, secPos[sec], secOfs[sec]);
      var p, pos, ofs := PutActions(start, args, secPos[sec], secOfs[sec]);
      if !status.Fine? {
        return;
      }
      LastAction(r, old(log), lgmax, pcmax, maxsection);
      PutDone(list, tr, secPos, secOfs, old(rec), rec, old(log), log, sec, start, args);
      if list[p].Section? {
        var n := list[p].n;
        if n >= maxsection {
          status := RangeSec(p);
          return;
        }
        section := n;
      }
      secPos := secPos[sec := pos];
      secOfs := secOfs[sec := ofs];
      tr := tr[sec := tr[sec] + r];
    }

    // --------------------------------------------------------------- dasm_link

    ghost predicate Walking(b0: map<int, int>)
      reads this
    {
      Linking(list, tr, secPos, secOfs, b0, buf, fin, shr)
    }

    ghost predicate AtStep(s: nat, i: nat, pos: nat, ofs: int)
      reads this
    {
      Cursor(tr, fin, shr, s, i, pos, ofs)
    }

    /** The branch case of dasm_link: decides whether the branch at pos shrinks. */
    method LinkBranch(p: nat, pos: nat, secnum: nat, ofs: int, ghost i: nat, ghost b0: map<int, int>) returns (shrink: nat)
      requires Walking(b0) && AtStep(secnum, i, pos, ofs) && IsRel(tr[secnum][i].op) && p == tr[secnum][i].p
      requires |shr| < |Flat(tr)|
      ensures shrink == 0 || shrink == 3 || shrink == 4
      ensures forall f :: BranchDecided(b0, Flat(tr), fin + [f], shr + [shrink], |shr|)
    {
      hide Linking, SumFrom, First, Candidate, LastByte, Flat, BranchDecided, TargetIs, RefOk;
      LinkReads(list, tr, secPos, secOfs, b0, buf, fin, shr, secnum, i, pos, ofs);
      WalkBranchAt(list, tr, secPos, secOfs, b0, buf, fin, shr, secnum, i, pos, ofs);
      ghost var all, k := Flat(tr), |shr|;
      shrink := ShrinkOf(LastByte(list[p - 1]));
      var lpos := Rd(buf, pos);
      if lpos < 0 {
        shrink := 0;
        OutsideBranch(b0, all, fin, shr, k);
      } else {
        ghost var j := FindTarget(b0, all, k);
        TargetPos(b0, all, k, j);
        var lofs := Rd(buf, lpos);
        if lpos > pos {
          WalkForward(list, tr, secPos, secOfs, b0, buf, fin, shr, secnum, i, pos, ofs, j);
          var q := secnum;
          while q < SecOf(lpos)
            invariant secnum <= q <= SecOf(lpos) && lofs == Rd(buf, lpos) + SumFrom(secOfs, secnum, q)
          {
            SumFromNext(secOfs, secnum, q);
            lofs := lofs + secOfs[q];
            q := q + 1;
          }
        } else {
          lofs := lofs - ofs;
        }
        lofs := lofs - Rd(buf, pos + 1);
        var c := shrink;
        if !(-128 - shrink <= lofs <= 127) {
          shrink := 0;
        }
        forall f: int
          ensures BranchDecided(b0, all, fin + [f], shr + [shrink], k)
        {
          BranchRule(list, tr, secPos, secOfs, b0, buf, fin, shr, secnum, i, pos, ofs, j, lofs, f, shrink);
        }
      }
    }

    /** Records the decision about one step, after its word was written. */
    ghost method Advance(secnum: nat, i: nat, pos: nat, ofs: int, b0: map<int, int>, b: map<int, int>, sv: nat, ofs': int)
      requires Linking(list, tr, secPos, secOfs, b0, b, fin, shr) && AtStep(secnum, i, pos, ofs) && |shr| < |Flat(tr)|
      requires sv <= 4 && (sv > 0 ==> IsRel(tr[secnum][i].op))
      requires IsRel(tr[secnum][i].op) ==> forall f :: BranchDecided(b0, Flat(tr), fin + [f], shr + [sv], |shr|)
      requires buf == LinkWrite(b, tr[secnum][i], fin[|shr|], sv)
      requires ofs' + EndEst(tr[secnum][i]) == fin[|shr|] + FinSize(tr[secnum][i], fin[|shr|], sv)
      modifies this`fin, this`shr
      ensures Walking(b0) && |shr| == old(|shr|) + 1 && |fin| == |shr| + 1
      ensures if i + 1 < |tr[secnum]| then AtStep(secnum, i + 1, EndPos(tr[secnum][i]), ofs')
              else EndPos(tr[secnum][i]) == secPos[secnum] && ofs' + secOfs[secnum] == fin[|shr|]
                   && |shr| == First(tr, secnum) + |tr[secnum]|
      ensures i + 1 < |tr[secnum]| ==> Follows(tr[secnum][i], tr[secnum][i + 1])
      ensures i + 1 == |tr[secnum]| ==> Ends(tr[secnum][i].op)
    {
      hide Linking, First, FinSize, LinkWrite, BranchDecided, Flat;
      var f := fin[|shr|] + FinSize(tr[secnum][i], fin[|shr|], sv);
      LinkNext(list, tr, secPos, secOfs, b0, b, fin, shr, secnum, i, pos, ofs, sv, f, ofs');
      fin := fin + [f];
      shr := shr + [sv];
    }

    /** One action of dasm_link. */
    method LinkAction(p: nat, pos: nat, secnum: nat, ofs: int, ghost i: nat, ghost b0: map<int, int>) returns (pos': nat, ofs': int)
      requires Walking(b0) && AtStep(secnum, i, pos, ofs) && p == tr[secnum][i].p && p < |list| && list[p] == tr[secnum][i].op
      modifies this`buf, this`fin, this`shr
      ensures Walking(b0) && pos' == EndPos(tr[secnum][i]) && |shr| == old(|shr|) + 1 && |fin| == |shr| + 1
      ensures if i + 1 < |tr[secnum]| then AtStep(secnum, i + 1, pos', ofs')
              else pos' == secPos[secnum] && ofs' + secOfs[secnum] == fin[|shr|]
                   && |shr| == First(tr, secnum) + |tr[secnum]|
      ensures i + 1 < |tr[secnum]| ==> Follows(tr[secnum][i], tr[secnum][i + 1])
      ensures i + 1 == |tr[secnum]| ==> Ends(tr[secnum][i].op)
    {
      hide Linking, First, BranchDecided, Flat, Candidate, HasArg, TargetIs, RefOk;
      var op := list[p];
      LinkReads(list, tr, secPos, secOfs, b0, buf, fin, shr, secnum, i, pos, ofs);
      ghost var b, t, at := buf, tr[secnum][i], fin[|shr|];
      ghost var sv := 0;
      pos', ofs' := pos + Slots(op), ofs;
      if IsRel(op) {
        var shrink := LinkBranch(p, pos, secnum, ofs, i, b0);
        ofs' := ofs - shrink;
        buf := buf[pos + 1 := shrink];
        sv := shrink;
      } else if IsLabel(op) {
        buf := buf[pos := Rd(buf, pos) + ofs];
      } else if op.Align? {
        AlignShrinks(at, op.mask);
        ofs' := ofs - (Rd(buf, pos) + ofs) % (op.mask + 1);
      }
      Advance(secnum, i, pos, ofs, b0, b, sv, ofs');
    }

    /** dasm_link for one section, which starts at offset ofs0. */
    method LinkSection(secnum: nat, ofs0: int, ghost b0: map<int, int>) returns (ofs: int)
      requires Walking(b0) && secnum < |tr| && |shr| == First(tr, secnum) && |fin| == |shr| + 1 && ofs0 == fin[|shr|]
      modifies this`buf, this`fin, this`shr
      ensures Walking(b0) && |shr| == First(tr, secnum + 1) && |fin| == |shr| + 1 && ofs == fin[|shr|]
    {
      hide Linking, First, Flat, BranchDecided, FinSize, MaxSize, Ofs;
      SectionEntry(list, tr, secPos, secOfs, b0, buf, fin, shr, secnum, ofs0);
      var pos: nat, lastpos := secnum * SEC, secPos[secnum];
      ofs := ofs0;
      ghost var i: nat := 0;
      while pos != lastpos
        invariant Walking(b0) && i <= |tr[secnum]| && |shr| == First(tr, secnum) + i && |fin| == |shr| + 1
        invariant if i < |tr[secnum]| then AtStep(secnum, i, pos, ofs) && tr[secnum][i].op.Begin?
                  else pos == lastpos && ofs + secOfs[secnum] == fin[|shr|]
        decreases |tr[secnum]| - i
      {
        LinkReads(list, tr, secPos, secOfs, b0, buf, fin, shr, secnum, i, pos, ofs);
        WalkStepAt(list, tr, secPos, secOfs, b0, buf, fin, shr, secnum, i);
        var p := Rd(buf, pos);
        BeginSize(tr[secnum][i], fin[|shr|]);
        Advance(secnum, i, pos, ofs, b0, buf, 0, ofs);
        pos := pos + 1;
        i := i + 1;
        WalkStepAt(list, tr, secPos, secOfs, b0, buf, fin, shr, secnum, i);
        while !Ends(list[p])
          invariant Walking(b0) && i < |tr[secnum]| && |shr| == First(tr, secnum) + i && |fin| == |shr| + 1
          invariant AtStep(secnum, i, pos, ofs) && !tr[secnum][i].op.Begin?
          invariant p == tr[secnum][i].p && 0 <= p < |list| && list[p] == tr[secnum][i].op
          decreases |tr[secnum]| - i
        {
          pos, ofs := LinkAction(p, pos, secnum, ofs, i, b0);
          p := p + 1;
          i := i + 1;
          WalkStepAt(list, tr, secPos, secOfs, b0, buf, fin, shr, secnum, i);
        }
        pos, ofs := LinkAction(p, pos, secnum, ofs, i, b0);
        i := i + 1;
      }
      SectionExit(list, tr, secPos, secOfs, b0, buf, fin, shr, secnum, i, pos, ofs);
      ofs := ofs + secOfs[secnum];
    }

    /** The offsets, labels and branches as dasm_link leaves them. */
    ghost predicate Linked()
      reads this
    {
      && Placed(list, tr, secPos, secOfs) && LinkedAll(buf, Flat(tr), fin, shr)
      && codesize == fin[|shr|]
    }

    /** Marks the references to globals that are not defined here. */
    method MarkGlobals(ghost b0: map<int, int>)
      requires buf == b0 && LabelsOk(buf, labels, log, ch) && RecOk(buf, rec, log)
      modifies this`buf
      ensures Marked(b0, buf, labels, log, ch, rec, if lgmax > 10 then lgmax else 10)
    {
      hide LabelsOk, RecOk, Marked, Collapsed;
      var idx := 10;
      MarkStart(buf, labels, log, ch, rec);
      while idx < lgmax
        invariant 10 <= idx && (idx <= lgmax || idx == 10) && Marked(b0, buf, labels, log, ch, rec, idx)
      {
        if Rd(labels, idx) > 0 {
          ghost var b := buf;
          MarkedSlot(b0, buf, labels, log, ch, rec, idx);
          Collapse(idx, 0 - idx);
          MarkStep(b0, b, labels, log, ch, rec, idx, buf);
        } else {
          MarkSkip(b0, buf, labels, log, ch, rec, idx);
        }
        idx := idx + 1;
      }
    }

    /** The first PC label with pending references, or pcmax. */
    method PendingPc() returns (pc: nat)
      ensures pc <= pcmax && (pc < pcmax ==> Rd(labels, PcSlot(pc)) > 0)
      ensures forall q :: 0 <= q < pc ==> Rd(labels, PcSlot(q)) <= 0
    {
      pc := 0;
      while pc < pcmax && Rd(labels, PcSlot(pc)) <= 0
        invariant 0 <= pc <= pcmax && forall q :: 0 <= q < pc ==> Rd(labels, PcSlot(q)) <= 0
      {
        pc := pc + 1;
      }
    }

    /** The walk of dasm_link over all sections. */
    method LinkSections(ghost b0: map<int, int>) returns (ofs: int)
      requires |tr| == maxsection && Linking(list, tr, secPos, secOfs, b0, buf, [0], [])
      modifies this`buf, this`fin, this`shr
      ensures Walking(b0) && |shr| == First(tr, |tr|) && |fin| == |shr| + 1 && ofs == fin[|shr|]
    {
      hide Linking, First;
      fin, shr := [0], [];
      ofs := 0;
      var secnum := 0;
      FirstZero(tr);
      while secnum < maxsection
        invariant 0 <= secnum <= maxsection && Walking(b0) && |shr| == First(tr, secnum) && |fin| == |shr| + 1 && ofs == fin[|shr|]
      {
        ofs := LinkSection(secnum, ofs, b0);
        secnum := secnum + 1;
      }
    }

    /** dasm_link */
    method Link() returns (st: Status, size: int)
      requires status.Fine? ==> Recording() && forall slot :: 1 <= slot < 10 ==> Rd(labels, slot) <= 0
      modifies this`buf, this`codesize, this`fin, this`shr
      ensures !status.Fine? ==> st == status && size == 0
      ensures status.Fine? ==> (st.Fine? <==> forall pc :: 0 <= pc < pcmax ==> Rd(labels, PcSlot(pc)) <= 0)
      ensures status.Fine? && !st.Fine? ==> st.UndefPC? && st.n < pcmax && Rd(labels, PcSlot(st.n)) > 0 && size == 0
      ensures st.Fine? ==> Linked() && size == codesize && Resolved(buf, log) && Logged(log, tr)
      ensures st.Fine? ==> forall slot :: SlotKnows(log, labels, slot)
    {
      hide LabelsOk, RecOk, Marked, Linking, SectionsAt, Logged, AllRec, LinkedAll, Placed, First, Flat, Resolved;
      size := 0;
      if !status.Fine? {
        return status, 0;
      }
      var pc := PendingPc();
      if pc < pcmax {
        return UndefPC(pc), 0;
      }
      MarkGlobals(buf);
      ghost var b0 := buf;
      LinkStart(list, tr, secPos, secOfs, old(buf), b0, labels, rec, log, ch, lgmax, pcmax);
      AllKnown(old(buf), labels, log, ch);
      var ofs := LinkSections(b0);
      LinkFinish(list, tr, secPos, secOfs, b0, buf, fin, shr, log);
      codesize := ofs;
      size := ofs;
      st := Fine;
    }

    // ------------------------------------------------------------- dasm_encode

    ghost predicate Encoding(g0: map<int, int>, base: int, out: seq<int>, vals: seq<int>)
      reads this
    {
      Placed(list, tr, secPos, secOfs) && Coding(buf, g0, globals, base, Flat(tr), fin, shr, out, vals)
    }

    /** The branch case of dasm_encode. */
    method EncodeBranch(p: nat, pos: nat, base: int, out: seq<int>, ghost s: nat, ghost i: nat, ghost g0: map<int, int>,
                        ghost vals: seq<int>)
      returns (out': seq<int>, ghost v: int)
      requires Encoding(g0, base, out, vals) && s < |tr| && i < |tr[s]| && |vals| == First(tr, s) + i && |vals| < |Flat(tr)|
      requires IsRel(tr[s][i].op) && pos == tr[s][i].pos && p == tr[s][i].p && p < |list| && list[p] == tr[s][i].op
      ensures Encoding(g0, base, out', vals + [v])
    {
      hide Coding, Placed, First, Flat, Candidate;
      ghost var all, k := Flat(tr), |vals|;
      EncodeReads(list, tr, secPos, secOfs, buf, g0, globals, base, fin, shr, out, vals, s, i);
      var op := list[p];
      var n := Rd(buf, pos);
      if op.RelLG? && n < 0 {
        n := Rd(globals, -n) - (base + |out| + 4);
        v := n;
        CodedBranch(buf, g0, globals, base, all, fin, shr, out, vals, v);
        out' := out + LE(n, 4);
      } else {
        var shrink := Rd(buf, pos + 1);
        n := Rd(buf, n) - (|out| + 4 - shrink);
        v := n;
        CodedBranch(buf, g0, globals, base, all, fin, shr, out, vals, v);
        if shrink == 0 {
          out' := out + LE(n, 4);
        } else if shrink == 4 {
          out' := out[..|out| - 1];
          out' := out'[..|out'| - 1] + [(out[|out| - 1] - 0x10) % 256];
          out' := out' + LE(n, 1);
          assert out' == BranchOut(out, n, shrink);
        } else {
          out' := out[..|out| - 1] + [0xeb];
          out' := out' + LE(n, 1);
        }
      }
    }

    method FillWith(out: seq<int>, x: nat, n: nat) returns (out': seq<int>)
      ensures out' == out + Fill(x, n)
    {
      out' := out;
      var i := 0;
      while i < n
        invariant 0 <= i <= n && out' == out + Fill(x, i)
      {
        out' := out' + [x];
        i := i + 1;
      }
    }

    method PadTo(out: seq<int>, mask: nat) returns (out': seq<int>)
      ensures Pad(|out|, mask) >= 0 && out' == out + Fill(0x90, Pad(|out|, mask))
    {
      PadBound(|out|, mask);
      out' := out;
      ghost var i := 0;
      while |out'| % (mask + 1) != 0
        invariant 0 <= i <= Pad(|out|, mask) && out' == out + Fill(0x90, i)
        invariant Pad(|out'|, mask) == Pad(|out|, mask) - i
        decreases Pad(|out|, mask) - i
      {
        PadStep(|out'|, mask);
        PadBound(|out'| + 1, mask);
        out' := out' + [0x90];
        i := i + 1;
      }
    }

    /** The number that dasm_encode emits for an argument or an absolute reference. */
    method EncodeWord(op: Op, n: int, pos: nat, base: int, out: seq<int>, ghost t: Step) returns (out': seq<int>)
      requires op == t.op && pos == t.pos && !IsRel(op) && ((HasArg(op) && !op.Space?) || IsRef(op))
      requires n == Rd(buf, pos) && (HasArg(op) ==> n == t.n)
      ensures out' == out + LE(ValueAt(buf, globals, base, t, |out|, 0), FinSize(t, |out|, 0))
    {
      hide LE;
      if op.RelA? {
        out' := out + LE(n - (base + |out| + 4), 4);
      } else if HasArg(op) {
        out' := out + LE(n, MaxSize(op, n));
      } else if op.ImmLG? && n < 0 {
        out' := out + LE(Rd(globals, -n), 4);
      } else {
        out' := out + LE(Rd(buf, n) + base, 4);
      }
    }

    /** The bytes of an action of dasm_encode that is no branch. */
    method EncodeBytes(op: Op, pos: nat, base: int, out: seq<int>, ghost t: Step) returns (out': seq<int>)
      requires op == t.op && pos == t.pos && Fixed(buf, t, |out|, 0) && !IsRel(op) && !op.Begin? && (op.Space? ==> t.n >= 0)
      modifies this`globals
      ensures FinSize(t, |out|, 0) >= 0
      ensures out' == out + StepBytes(t, ValueAt(buf, old(globals), base, t, |out|, 0), FinSize(t, |out|, 0))
      ensures globals == if t.op.LabelLG? && t.op.n >= 10 then old(globals)[t.op.n := base + |out|] else old(globals)
    {
      SizeShrinks(t, |out|, 0);
      hide LE, Pad, Fill;
      var n := Rd(buf, pos);
      if IsByte(op) {
        out' := out + [op.v];
      } else if op.Space? {
        out' := FillWith(out, op.fill, n);
      } else if op.Align? {
        out' := PadTo(out, op.mask);
      } else if HasArg(op) || IsRef(op) {
        out' := EncodeWord(op, n, pos, base, out, t);
      } else if op.Extern? {
        out' := out + LE(0, 4);
      } else {
        if op.LabelLG? && op.n >= 10 {
          globals := globals[op.n := base + n];
        }
        out' := out + LE(0, 0);
      }
    }

    /** One action of dasm_encode. */
    method EncodeAction(p: nat, pos: nat, base: int, out: seq<int>, ghost s: nat, ghost i: nat, ghost g0: map<int, int>,
                        ghost vals: seq<int>)
      returns (out': seq<int>, ghost v: int)
      requires Encoding(g0, base, out, vals) && s < |tr| && i < |tr[s]| && |vals| == First(tr, s) + i && |vals| < |Flat(tr)|
      requires pos == tr[s][i].pos && p == tr[s][i].p && p < |list| && list[p] == tr[s][i].op && !list[p].Begin?
      modifies this`globals
      ensures Encoding(g0, base, out', vals + [v])
    {
      hide Coding, Placed, First, Flat, Candidate, Fixed, FinSize, ValueAt, StepBytes;
      var op := list[p];
      if IsRel(op) {
        out', v := EncodeBranch(p, pos, base, out, s, i, g0, vals);
      } else {
        ghost var all, k, g := Flat(tr), |vals|, globals;
        EncodeReads(list, tr, secPos, secOfs, buf, g0, globals, base, fin, shr, out, vals, s, i);
        StepArg(list, tr, secPos, secOfs, s, i);
        v := ValueAt(buf, globals, base, all[k], fin[k], 0);
        out' := EncodeBytes(op, pos, base, out, tr[s][i]);
        CodedAppend(buf, g0, g, base, all, fin, shr, out, vals, v, globals);
      }
    }

    /** dasm_encode for one section. */
    method EncodeSection(secnum: nat, base: int, out: seq<int>, ghost g0: map<int, int>, ghost vals: seq<int>)
      returns (out': seq<int>, ghost vals': seq<int>)
      requires Encoding(g0, base, out, vals) && secnum < |tr| && |vals| == First(tr, secnum)
      modifies this`globals
      ensures Encoding(g0, base, out', vals') && |vals'| == First(tr, secnum + 1)
    {
      hide Coding, Placed, First, Flat;
      out', vals' := out, vals;
      CodeEntry(list, tr, secPos, secOfs, secnum);
      var pos: nat, lastpos := secnum * SEC, secPos[secnum];
      ghost var i: nat := 0;
      while pos != lastpos
        invariant Encoding(g0, base, out', vals') && i <= |tr[secnum]| && |vals'| == First(tr, secnum) + i
        invariant if i < |tr[secnum]| then pos == tr[secnum][i].pos && tr[secnum][i].op.Begin? else pos == lastpos
        decreases |tr[secnum]| - i
      {
        CodeStepAt(list, tr, secPos, secOfs, secnum, i, |vals'|);
        var p := Rd(buf, pos);
        EncodeBegin(buf, g0, globals, base, list, tr, secPos, secOfs, fin, shr, out', vals', secnum, i);
        vals' := vals' + [0];
        pos := pos + 1;
        i := i + 1;
        CodeStepAt(list, tr, secPos, secOfs, secnum, i, |vals'|);
        ghost var v;
        while !Ends(list[p])
          invariant Encoding(g0, base, out', vals') && i < |tr[secnum]| && |vals'| == First(tr, secnum) + i && |vals'| < |Flat(tr)|
          invariant pos == tr[secnum][i].pos && !tr[secnum][i].op.Begin?
          invariant p == tr[secnum][i].p && 0 <= p < |list| && list[p] == tr[secnum][i].op
          decreases |tr[secnum]| - i
        {
          CodeStepAt(list, tr, secPos, secOfs, secnum, i, |vals'|);
          out', v := EncodeAction(p, pos, base, out', secnum, i, g0, vals');
          vals' := vals' + [v];
          pos := pos + Slots(list[p]);
          p := p + 1;
          i := i + 1;
          CodeStepAt(list, tr, secPos, secOfs, secnum, i, |vals'|);
        }
        CodeStepAt(list, tr, secPos, secOfs, secnum, i, |vals'|);
        out', v := EncodeAction(p, pos, base, out', secnum, i, g0, vals');
        vals' := vals' + [v];
        i := i + 1;
      }
      CodeExit(list, tr, secPos, secOfs, secnum, i, pos);
    }

    /** dasm_encode: the phase check never fails. */
    method Encode(base: int) returns (st: Status, code: seq<int>, ghost vals: seq<int>)
      requires Linked()
      modifies this`globals
      ensures st.Fine? && |code| == codesize && Linked()
      ensures Coding(buf, old(globals), globals, base, Flat(tr), fin, shr, code, vals) && |vals| == |Flat(tr)|
    {
      hide Coding, Placed, First, Flat, LinkedAll;
      code, vals := [], [];
      PlacedLength(list, tr, secPos, secOfs);
      CodingStart(buf, globals, base, Flat(tr), fin, shr);
      var secnum := 0;
      FirstZero(tr);
      while secnum < |secPos|
        invariant 0 <= secnum <= |secPos| == |tr| && Encoding(old(globals), base, code, vals) && |vals| == First(tr, secnum)
      {
        code, vals := EncodeSection(secnum, base, code, old(globals), vals);
        secnum := secnum + 1;
      }
      CodeSize(buf, old(globals), globals, base, tr, fin, shr, code, vals);
      st := if |code| != codesize then Phase else Fine;
    }

    /** dasm_getpclabel after linking: the final offset of a PC label; -1 if it is only
        referred to, -2 if it is unused or out of range. */
    method GetPcLabel(pc: nat) returns (r: int)
      requires Linked() && Logged(log, tr) && SlotKnows(log, labels, PcSlot(pc))
      ensures pc < pcmax && Rd(labels, PcSlot(pc)) < 0 ==>
                exists m :: 0 <= m < |Flat(tr)| && Flat(tr)[m].op.LabelPC? && Flat(tr)[m].n == pc && r == fin[m]
      ensures pc < pcmax && Rd(labels, PcSlot(pc)) > 0 ==> r == -1
      ensures pc >= pcmax || Rd(labels, PcSlot(pc)) == 0 ==> r == -2
    {
      if pc < pcmax {
        var pos := Rd(labels, PcSlot(pc));
        if pos < 0 {
          ghost var m := PcLabelStep(buf, labels, tr, log, fin, shr, pc);
          return Rd(buf, -pos);
        }
        if pos > 0 {
          return -1;
        }
      }
      return -2;
    }

    /** A local label without pending references is forgotten. */
    method ForgetLocal(i: nat)
      requires Recording() && 1 <= i < 10 && Rd(labels, i) <= 0
      modifies this`labels, this`log
      ensures Recording() && labels == old(labels)[i := 0]
    {
      hide MidOk, SectionsAt, AllRec, Logged;
      ForgottenOk(buf, labels, rec, log, ch, secPos, i);
      LoggedReset(log, tr, i);
      TellsAfter(labels, log, Reset(i), labels[i := 0]);
      labels := labels[i := 0];
      log := log + [Reset(i)];
    }

    /** dasm_checkstep; secmatch is the section that should be active, or negative. */
    method CheckStep(secmatch: int) returns (st: Status)
      requires status.Fine? ==> Recording()
      modifies this`labels, this`log, this`status
      ensures st == status
      ensures st.Fine? ==> Recording() && (forall slot :: 1 <= slot < 10 ==> Rd(labels, slot) == 0)
                           && (secmatch >= 0 ==> section == secmatch)
      ensures old(status).Fine? && st.UndefL? ==> 1 <= st.n < 10 && old(Rd(labels, st.n)) > 0
      ensures old(status).Fine? && (exists slot :: 1 <= slot < 10 && old(Rd(labels, slot)) > 0) ==> st.UndefL?
      ensures old(status).Fine? && !st.Fine? && !st.UndefL? ==> st == MatchSec(section) && secmatch >= 0 && section != secmatch
      ensures !old(status).Fine? ==> st == old(status)
    {
      hide MidOk, SectionsAt, AllRec, Logged, SlotsIn, Tells;
      if status.Fine? {
        var i := 1;
        while i <= 9
          invariant 1 <= i <= 10 && Recording() && Forgotten(old(labels), labels, i)
        {
          if Rd(labels, i) > 0 {
            status := UndefL(i);
            break;
          }
          ForgottenNext(old(labels), labels, i);
          ForgetLocal(i);
          i := i + 1;
        }
      }
      if status.Fine? && secmatch >= 0 && section != secmatch {
        status := MatchSec(section);
      }
      st := status;
    }
  }

  /** The buffer position behind a put, which must stay within 24 bits. */
  function PutLast(list: seq<Op>, start: nat, args: seq<int>, pos: nat, ofs: nat): nat
    requires Terminated(list, start)
  {
    var r := PutSteps(list, start, args, pos, ofs);
    EndPos(r[|r| - 1])
  }

  lemma PutLastBound(list: seq<Op>, start: nat, args: seq<int>, pos: nat, ofs: nat)
    requires Terminated(list, start)
    ensures pos < PutLast(list, start, args, pos, ofs)
  {
    PutEndAfter(list, start, args, pos, ofs);
  }

  /** How far a put has come: the steps done, and the actions ahead. */
  ghost predicate Progress(list: seq<Op>, start: nat, args: seq<int>, pos0: nat, ofs0: nat, done: seq<Step>,
                           p: nat, rest: seq<int>, pos: nat, ofs: nat) {
    && Terminated(list, start) && Terminated(list, p) && Feeds(list, p, rest)
    && done + Steps(list, p, rest, pos, ofs) == PutSteps(list, start, args, pos0, ofs0)
  }

  ghost predicate DoneOk(log0: seq<Event>, rec0: map<nat, int>, log: seq<Event>, rec: map<nat, int>, done: seq<Step>) {
    log == log0 + EventsOf(done) && Kept(rec0, rec) && forall t <- done :: RecIn(rec, t)
  }

  lemma FirstDone(log: seq<Event>, rec0: map<nat, int>, rec: map<nat, int>, t: Step)
    requires Kept(rec0, rec) && t.op.Begin? && t.pos in rec && rec[t.pos] == t.n
    ensures DoneOk(log, rec0, log, rec, [t])
  {
    FirstRec(rec, t);
    hide RecIn;
    assert log + [] == log;
  }

  lemma FirstProgress(list: seq<Op>, start: nat, args: seq<int>, pos: nat, ofs: nat)
    requires Terminated(list, start) && Feeds(list, start, args)
    ensures Progress(list, start, args, pos, ofs, [Step(Begin, -1, start, pos, ofs)], start, args, pos + 1, ofs)
    ensures start < |list|
  {
  }

  lemma NextAction(list: seq<Op>, start: nat, args: seq<int>, pos0: nat, ofs0: nat, done: seq<Step>,
                   p: nat, rest: seq<int>, pos: nat, ofs: nat)
    requires Terminated(list, start) && Progress(list, start, args, pos0, ofs0, done, p, rest, pos, ofs)
    ensures p < |list| && !list[p].Begin? && pos + Slots(list[p]) <= PutLast(list, start, args, pos0, ofs0)
    ensures !Ends(list[p]) && TakesArg(list[p]) ==> rest != [] && (list[p].Space? ==> rest[0] >= 0)
    ensures list[p].Space? ==> TakesArg(list[p])
    ensures !Ends(list[p]) ==>
              var n := if TakesArg(list[p]) then rest[0] else 0;
              p + 1 < |list| && Progress(list, start, args, pos0, ofs0, done + [Step(list[p], p, n, pos, ofs)], p + 1,
                       if TakesArg(list[p]) then rest[1..] else rest, pos + Slots(list[p]), ofs + MaxSize(list[p], n))
  {
    hide MaxSize, Slots, Steps, PutSteps, Terminated, Feeds;
    NextFeeds(list, p, rest);
    LastOfPut(list, start, args, pos0, ofs0, done, p, rest, pos, ofs);
  }

  lemma NextFeeds(list: seq<Op>, p: nat, rest: seq<int>)
    requires Terminated(list, p) && Feeds(list, p, rest)
    ensures p < |list| && !list[p].Begin?
    ensures !Ends(list[p]) ==> p + 1 < |list| && Terminated(list, p + 1) && Feeds(list, p + 1, ArgsAfter(list[p], rest))
    ensures !Ends(list[p]) && TakesArg(list[p]) ==> rest != [] && (list[p].Space? ==> rest[0] >= 0)
  {
    if !Ends(list[p]) {
      assert Terminated(list, p + 1);
    }
  }

  lemma SumFromNext(ofs: seq<nat>, a: nat, q: nat)
    requires a <= q < |ofs|
    ensures SumFrom(ofs, a, q + 1) == SumFrom(ofs, a, q) + ofs[q] && SumFrom(ofs, a, a) == 0
  {
  }

  lemma TargetPos(b: map<int, int>, all: seq<Step>, k: nat, j: nat)
    requires k < |all| && TargetIs(b, all, k, j)
    ensures j < |all| && all[j].pos == Rd(b, all[k].pos) && IsLabel(all[j].op)
  {
  }

  lemma OutsideBranch(b: map<int, int>, all: seq<Step>, fin: seq<int>, shr: seq<nat>, k: nat)
    requires k == |shr| < |all| && |fin| == k + 1 && Rd(b, all[k].pos) < 0
    ensures forall f :: BranchDecided(b, all, fin + [f], shr + [0], k)
  {
  }

  lemma WalkBranchAt(list: seq<Op>, tr: seq<seq<Step>>, secPos: seq<nat>, secOfs: seq<nat>, b0: map<int, int>,
                     b: map<int, int>, fin: seq<int>, shr: seq<nat>, s: nat, i: nat, pos: nat, ofs: int)
    requires Linking(list, tr, secPos, secOfs, b0, b, fin, shr) && Cursor(tr, fin, shr, s, i, pos, ofs) && IsRel(tr[s][i].op)
    ensures 0 < tr[s][i].p <= |list| && |shr| < |Flat(tr)|
    ensures Candidate(Flat(tr), |shr|) == ShrinkOf(LastByte(list[tr[s][i].p - 1]))
  {
    BranchAt(list, tr, s, i, |shr|);
    hide Linking;
  }

  lemma WalkForward(list: seq<Op>, tr: seq<seq<Step>>, secPos: seq<nat>, secOfs: seq<nat>, b0: map<int, int>,
                    b: map<int, int>, fin: seq<int>, shr: seq<nat>, s: nat, i: nat, pos: nat, ofs: int, j: nat)
    requires Linking(list, tr, secPos, secOfs, b0, b, fin, shr) && Cursor(tr, fin, shr, s, i, pos, ofs) && IsRel(tr[s][i].op)
    requires j < |Flat(tr)| && |shr| < |Flat(tr)| && IsLabel(Flat(tr)[j].op) && Flat(tr)[j].pos > pos
    ensures s <= SecOf(Flat(tr)[j].pos) < |secOfs| && SumFrom(secOfs, s, s) == 0
  {
    StepAt(list, tr, s, i, |shr|);
    LabelReads(list, tr, secPos, secOfs, b0, b, fin, shr, |shr|, j);
    ForwardDistance(list, tr, secOfs, s, i, |shr|, j, Flat(tr)[j].pos);
    hide Linking;
  }

  lemma SectionEntry(list: seq<Op>, tr: seq<seq<Step>>, secPos: seq<nat>, secOfs: seq<nat>, b0: map<int, int>,
                     b: map<int, int>, fin: seq<int>, shr: seq<nat>, s: nat, ofs: int)
    requires Linking(list, tr, secPos, secOfs, b0, b, fin, shr) && s < |tr| && |shr| == First(tr, s) && |fin| == |shr| + 1
    requires ofs == fin[|shr|]
    ensures s < |tr| == |secPos| == |secOfs|
    ensures if 0 < |tr[s]| then Cursor(tr, fin, shr, s, 0, s * SEC, ofs) && tr[s][0].op.Begin?
            else s * SEC == secPos[s] && secOfs[s] == 0
  {
    if 0 < |tr[s]| {
      StepAt(list, tr, s, 0, |shr|);
    }
    hide LinkMid;
  }

  lemma WalkStepAt(list: seq<Op>, tr: seq<seq<Step>>, secPos: seq<nat>, secOfs: seq<nat>, b0: map<int, int>,
                   b: map<int, int>, fin: seq<int>, shr: seq<nat>, s: nat, i: nat)
    requires Linking(list, tr, secPos, secOfs, b0, b, fin, shr) && s < |tr| && i < |tr[s]| && |shr| == First(tr, s) + i
    ensures |shr| < |Flat(tr)| && StepOk(list, tr[s][i])
  {
    StepAt(list, tr, s, i, |shr|);
    hide Linking;
  }

  lemma BeginSize(t: Step, at: int)
    requires t.op.Begin?
    ensures FinSize(t, at, 0) == 0 && EndEst(t) == t.est && !IsRel(t.op) && !Ends(t.op)
  {
  }

  /** A section is left when its end is reached. */
  lemma SectionExit(list: seq<Op>, tr: seq<seq<Step>>, secPos: seq<nat>, secOfs: seq<nat>, b0: map<int, int>,
                    b: map<int, int>, fin: seq<int>, shr: seq<nat>, s: nat, i: nat, pos: nat, ofs: int)
    requires Linking(list, tr, secPos, secOfs, b0, b, fin, shr) && s < |tr| == |secPos| && i <= |tr[s]| && |shr| == First(tr, s) + i
    requires pos == secPos[s] && (i < |tr[s]| ==> Cursor(tr, fin, shr, s, i, pos, ofs) && tr[s][i].op.Begin?)
    ensures i == |tr[s]| && |shr| == First(tr, s + 1)
  {
    FirstNext(tr, s);
    if i < |tr[s]| {
      StepAt(list, tr, s, i, |shr|);
    }
    hide LinkMid;
  }

  lemma MarkedSlot(b0: map<int, int>, b: map<int, int>, labels: map<int, int>, log: seq<Event>, ch: Chains, rec: map<nat, int>, idx: nat)
    requires Marked(b0, b, labels, log, ch, rec, idx)
    ensures SlotOk(b, labels, ch, idx)
  {
  }

  lemma FirstZero(tr: seq<seq<Step>>)
    ensures First(tr, 0) == 0
  {
  }

  lemma SectionsPlaced(list: seq<Op>, tr: seq<seq<Step>>, pos: seq<nat>, ofs: seq<nat>)
    requires SectionsAt(list, tr, pos, ofs)
    ensures Placed(list, tr, pos, ofs)
  {
    hide Ordered;
    forall s | 0 <= s < |tr|
      ensures pos[s] == PosAfter(tr[s], s * SEC) && ofs[s] == Ofs(tr[s])
    {
      SectionEnds(list, tr[s], s * SEC, pos[s], ofs[s]);
    }
    hide TraceOk;
    FlatOrdered(list, tr);
  }

  lemma SectionEnds(list: seq<Op>, t: seq<Step>, pos0: nat, pos: nat, ofs: nat)
    requires TraceOk(list, t, pos0, pos, ofs)
    ensures pos == PosAfter(t, pos0) && ofs == Ofs(t)
  {
  }

  /** Before the walk of pass 2: all words recorded, all references resolved. */
  lemma LinkStart(list: seq<Op>, tr: seq<seq<Step>>, secPos: seq<nat>, secOfs: seq<nat>, b: map<int, int>, b0: map<int, int>,
                  labels: map<int, int>, rec: map<nat, int>, log: seq<Event>, ch: Chains, lgmax: nat, pcmax: nat)
    requires SectionsAt(list, tr, secPos, secOfs) && AllRec(rec, tr) && Logged(log, tr) && LabelsOk(b, labels, log, ch)
    requires lgmax >= 10 && Marked(b, b0, labels, log, ch, rec, lgmax) && SlotsIn(log, lgmax, pcmax)
    requires Rd(labels, 0) <= 0 && (forall slot :: 1 <= slot < 10 ==> Rd(labels, slot) <= 0)
    requires forall q :: 0 <= q < pcmax ==> Rd(labels, PcSlot(q)) <= 0
    ensures Linking(list, tr, secPos, secOfs, b0, b0, [0], []) && Resolved(b0, log)
  {
    hide SectionsAt, LabelsOk, Placed, Resolved, MarkedAt, SlotOk, RefOk, Recd, RecIn, EventOf;
    SectionsPlaced(list, tr, secPos, secOfs);
    forall slot | 0 - pcmax <= slot < 10
      ensures Rd(labels, slot) <= 0
    {
      if slot < 0 {
        assert slot == PcSlot(-1 - slot);
      }
    }
    MarkDone(b, b0, labels, log, ch, rec, lgmax, pcmax);
    var all := Flat(tr);
    forall m | 0 <= m < |all|
      ensures Recd(b0, all[m]) && (IsRef(all[m].op) ==> RefOk(b0, all, m))
    {
      var s, i := FlatFrom(tr, m);
      RecdFrom(rec, b0, tr[s][i]);
      if IsRef(all[m].op) {
        RefFrom(b0, log, tr, s, i, m);
      }
    }
  }

  lemma RecdFrom(rec: map<nat, int>, b: map<int, int>, t: Step)
    requires RecIn(rec, t) && forall x <- rec :: Rd(b, x) == rec[x]
    ensures Recd(b, t)
  {
  }

  lemma RefFrom(b: map<int, int>, log: seq<Event>, tr: seq<seq<Step>>, s: nat, i: nat, k: nat)
    requires Resolved(b, log) && Logged(log, tr) && s < |tr| && i < |tr[s]| && IsRef(tr[s][i].op)
    requires k < |Flat(tr)| && Flat(tr)[k] == tr[s][i]
    ensures RefOk(b, Flat(tr), k)
  {
    ResolvedTo(b, log, tr, s, i);
    hide Resolved, Logged;
    var v := Rd(b, tr[s][i].pos);
    if v >= 0 {
      var q, j :| 0 <= q < |tr| && 0 <= j < |tr[q]| && IsLabel(tr[q][j].op) && tr[q][j].pos == v;
      FlatAt(tr, q, j);
      assert TargetIs(b, Flat(tr), k, |Flat(tr[..q])| + j);
    }
  }

  lemma LinkFinish(list: seq<Op>, tr: seq<seq<Step>>, secPos: seq<nat>, secOfs: seq<nat>, b0: map<int, int>, b: map<int, int>,
                   fin: seq<int>, shr: seq<nat>, log: seq<Event>)
    requires Linking(list, tr, secPos, secOfs, b0, b, fin, shr) && |shr| == First(tr, |tr|)
    requires Resolved(b0, log) && Logged(log, tr)
    ensures Placed(list, tr, secPos, secOfs) && LinkedAll(b, Flat(tr), fin, shr) && |shr| == |Flat(tr)| && Resolved(b, log)
  {
    hide Placed, Fixed, Recd, BranchDecided, RefOk, FinOk, Resolved, Logged, Ordered;
    assert tr[..|tr|] == tr;
    PlacedOrder(list, tr, secPos, secOfs);
    LinkDone(b0, b, Flat(tr), fin, shr);
    forall m | 0 <= m < |Flat(tr)| && IsRef(Flat(tr)[m].op)
      ensures Rd(b, Flat(tr)[m].pos) == Rd(b0, Flat(tr)[m].pos)
    {
    }
    hide LinkedAll, LinkMid, Linking;
    StillResolved(b0, b, tr, log);
  }

  lemma PlacedOrder(list: seq<Op>, tr: seq<seq<Step>>, secPos: seq<nat>, secOfs: seq<nat>)
    requires Placed(list, tr, secPos, secOfs)
    ensures Ordered(Flat(tr))
  {
  }

  lemma StillResolved(b0: map<int, int>, b: map<int, int>, tr: seq<seq<Step>>, log: seq<Event>)
    requires Resolved(b0, log) && Logged(log, tr)
    requires forall m :: 0 <= m < |Flat(tr)| && IsRef(Flat(tr)[m].op) ==> Rd(b, Flat(tr)[m].pos) == Rd(b0, Flat(tr)[m].pos)
    ensures Resolved(b, log)
  {
    hide Waiting, Means;
    forall i | 0 <= i < |log| && log[i].Ref?
      ensures ResolvedAt(b, log, i)
    {
      assert ResolvedAt(b0, log, i) && log[i] in log;
      assert EventAt(tr, log[i]);
      var q, j :| 0 <= q < |tr| && 0 <= j < |tr[q]| && EventOf(tr[q][j]) == [log[i]];
      FlatAt(tr, q, j);
      assert IsRef(Flat(tr)[|Flat(tr[..q])| + j].op);
    }
  }

  lemma EncodeReads(list: seq<Op>, tr: seq<seq<Step>>, secPos: seq<nat>, secOfs: seq<nat>, b: map<int, int>, g0: map<int, int>,
                    g: map<int, int>, base: int, fin: seq<int>, shr: seq<nat>, out: seq<int>, vals: seq<int>, s: nat, i: nat)
    requires Placed(list, tr, secPos, secOfs) && Coding(b, g0, g, base, Flat(tr), fin, shr, out, vals)
    requires s < |tr| && i < |tr[s]| && |vals| == First(tr, s) + i
    ensures var all, k := Flat(tr), |vals|;
      && |fin| == |all| + 1 && |shr| == |all| && k < |all| && all[k] == tr[s][i] && |out| == fin[k] && fin[k] >= 0
      && Fixed(b, all[k], fin[k], shr[k])
      && (!IsRel(all[k].op) ==> shr[k] == 0)
      && (IsRel(all[k].op) ==> shr[k] == 0 || shr[k] == 3 || shr[k] == 4)
      && (IsRel(all[k].op) && Rd(b, all[k].pos) < 0 ==> shr[k] == 0)
      && (shr[k] > 0 ==> k >= 1 && IsByte(all[k - 1].op) && (shr[k] == 4 ==> k >= 2 && all[k - 2].op == Byte(0x0f)))
  {
    hide Placed, Coding, First, Flat, Candidate, Fixed, SectionsOk, FinSize, StepOk, LastByte;
    PlacedSections(list, tr, secPos, secOfs);
    StepAt(list, tr, s, i, |vals|);
    CodingReads(b, g0, g, base, Flat(tr), fin, shr, out, vals);
    if IsRel(tr[s][i].op) {
      BranchAt(list, tr, s, i, |vals|);
    }
  }

  lemma PlacedSections(list: seq<Op>, tr: seq<seq<Step>>, secPos: seq<nat>, secOfs: seq<nat>)
    requires Placed(list, tr, secPos, secOfs)
    ensures SectionsOk(list, tr)
  {
  }

  lemma CodedBranch(b: map<int, int>, g0: map<int, int>, g: map<int, int>, base: int, all: seq<Step>, fin: seq<int>,
                    shr: seq<nat>, out: seq<int>, vals: seq<int>, v: int)
    requires Coding(b, g0, g, base, all, fin, shr, out, vals) && |vals| < |all| && |fin| == |all| + 1 && |shr| == |all|
    requires var k := |vals|;
      && IsRel(all[k].op) && |out| == fin[k] && v == ValueAt(b, g, base, all[k], fin[k], shr[k])
      && (shr[k] == 0 || shr[k] == 3 || shr[k] == 4)
      && (shr[k] > 0 ==> k >= 1 && IsByte(all[k - 1].op) && (shr[k] == 4 ==> k >= 2 && all[k - 2].op == Byte(0x0f)))
    ensures |out| >= 2 || shr[|vals|] == 0 || (shr[|vals|] != 4 && |out| >= 1)
    ensures Coding(b, g0, g, base, all, fin, shr, BranchOut(out, v, shr[|vals|]), vals + [v])
  {
    hide LinkedAll, ValueOk, ValueAt, GlobalsAfter, EncMid;
    if shr[|vals|] > 0 {
      EncBranch(out, all, fin, shr, vals, v);
    } else {
      EncAppend(out, all, fin, shr, vals, v, LE(v, 4));
    }
    CodingNext(b, g0, g, base, all, fin, shr, out, vals, BranchOut(out, v, shr[|vals|]), g, v);
  }

  lemma StepArg(list: seq<Op>, tr: seq<seq<Step>>, secPos: seq<nat>, secOfs: seq<nat>, s: nat, i: nat)
    requires Placed(list, tr, secPos, secOfs) && s < |tr| && i < |tr[s]|
    ensures tr[s][i].op.Space? ==> tr[s][i].n >= 0
  {
    StepAt(list, tr, s, i, First(tr, s) + i);
    hide Placed;
  }

  lemma CodedAppend(b: map<int, int>, g0: map<int, int>, g: map<int, int>, base: int, all: seq<Step>, fin: seq<int>,
                    shr: seq<nat>, out: seq<int>, vals: seq<int>, v: int, g': map<int, int>)
    requires Coding(b, g0, g, base, all, fin, shr, out, vals) && |vals| < |all| && |fin| == |all| + 1 && |shr| == |all|
    requires shr[|vals|] == 0 && v == ValueAt(b, g, base, all[|vals|], fin[|vals|], 0) && !IsRel(all[|vals|].op)
    requires var t := all[|vals|];
      && FinSize(t, |out|, 0) >= 0
      && g' == if t.op.LabelLG? && t.op.n >= 10 then g[t.op.n := base + fin[|vals|]] else g
    ensures Coding(b, g0, g', base, all, fin, shr, out + StepBytes(all[|vals|], v, FinSize(all[|vals|], |out|, 0)), vals + [v])
  {
    var s := StepBytes(all[|vals|], v, FinSize(all[|vals|], |out|, 0));
    StepLength(all[|vals|], v, |out|);
    hide LinkedAll, ValueOk, ValueAt, GlobalsAfter, EncMid, FinSize;
    EncAppend(out, all, fin, shr, vals, v, s);
    CodingNext(b, g0, g, base, all, fin, shr, out, vals, out + s, g', v);
  }

  lemma StepLength(t: Step, v: int, at: nat)
    requires !IsRel(t.op) && FinSize(t, at, 0) >= 0
    ensures |StepBytes(t, v, FinSize(t, at, 0))| == FinSize(t, at, 0)
  {
  }

  lemma CodeEntry(list: seq<Op>, tr: seq<seq<Step>>, secPos: seq<nat>, secOfs: seq<nat>, s: nat)
    requires Placed(list, tr, secPos, secOfs) && s < |tr|
    ensures |tr| == |secPos|
    ensures if 0 < |tr[s]| then tr[s][0].pos == s * SEC && tr[s][0].op.Begin? else s * SEC == secPos[s]
  {
    if 0 < |tr[s]| {
      StepAt(list, tr, s, 0, First(tr, s));
    }
  }

  lemma CodeExit(list: seq<Op>, tr: seq<seq<Step>>, secPos: seq<nat>, secOfs: seq<nat>, s: nat, i: nat, pos: nat)
    requires Placed(list, tr, secPos, secOfs) && s < |tr| == |secPos| && i <= |tr[s]| && pos == secPos[s]
    requires i < |tr[s]| ==> pos == tr[s][i].pos && tr[s][i].op.Begin?
    ensures i == |tr[s]| && First(tr, s) + i == First(tr, s + 1)
  {
    FirstNext(tr, s);
    if i < |tr[s]| {
      StepAt(list, tr, s, i, First(tr, s) + i);
    }
  }

  lemma CodeStepAt(list: seq<Op>, tr: seq<seq<Step>>, secPos: seq<nat>, secOfs: seq<nat>, s: nat, i: nat, k: nat)
    requires Placed(list, tr, secPos, secOfs) && s < |tr| && i < |tr[s]| && k == First(tr, s) + i
    ensures k < |Flat(tr)| && StepOk(list, tr[s][i]) && |tr| == |secPos|
    ensures i + 1 < |tr[s]| ==> Follows(tr[s][i], tr[s][i + 1])
    ensures i + 1 == |tr[s]| ==> Ends(tr[s][i].op) && EndPos(tr[s][i]) == secPos[s]
  {
    StepAt(list, tr, s, i, k);
  }

  lemma EncodeBegin(b: map<int, int>, g0: map<int, int>, g: map<int, int>, base: int, list: seq<Op>, tr: seq<seq<Step>>,
                    secPos: seq<nat>, secOfs: seq<nat>, fin: seq<int>, shr: seq<nat>, out: seq<int>, vals: seq<int>, s: nat, i: nat)
    requires Placed(list, tr, secPos, secOfs) && Coding(b, g0, g, base, Flat(tr), fin, shr, out, vals)
    requires s < |tr| && i < |tr[s]| && |vals| == First(tr, s) + i && tr[s][i].op.Begin?
    ensures Rd(b, tr[s][i].pos) == tr[s][i].n
    ensures Coding(b, g0, g, base, Flat(tr), fin, shr, out, vals + [0])
  {
    EncodeReads(list, tr, secPos, secOfs, b, g0, g, base, fin, shr, out, vals, s, i);
    hide Placed, Coding, First, Flat, Candidate;
    var t := tr[s][i];
    CodedAppend(b, g0, g, base, Flat(tr), fin, shr, out, vals, 0, g);
    assert out + StepBytes(t, 0, FinSize(t, |out|, 0)) == out;
  }

  lemma CodeSize(b: map<int, int>, g0: map<int, int>, g: map<int, int>, base: int, tr: seq<seq<Step>>, fin: seq<int>,
                 shr: seq<nat>, out: seq<int>, vals: seq<int>)
    requires Coding(b, g0, g, base, Flat(tr), fin, shr, out, vals) && |vals| == First(tr, |tr|)
    ensures |vals| == |Flat(tr)| == |shr| && |fin| == |shr| + 1 && |out| == fin[|shr|]
  {
    assert tr[..|tr|] == tr;
    hide ValueOk, EmittedAt, LinkedAll;
  }

  lemma PlacedLength(list: seq<Op>, tr: seq<seq<Step>>, secPos: seq<nat>, secOfs: seq<nat>)
    requires Placed(list, tr, secPos, secOfs)
    ensures |tr| == |secPos|
  {
  }

  lemma FixedAt(b: map<int, int>, all: seq<Step>, fin: seq<int>, shr: seq<nat>, m: nat)
    requires LinkedAll(b, all, fin, shr) && m < |all|
    ensures |shr| == |all| && |fin| == |all| + 1 && Fixed(b, all[m], fin[m], shr[m])
  {
  }

  /** The step of a definition in the log. */
  lemma DefStep(tr: seq<seq<Step>>, log: seq<Event>, j: nat) returns (m: nat)
    requires Logged(log, tr) && j < |log| && log[j].Def?
    ensures m < |Flat(tr)| && EventOf(Flat(tr)[m]) == [log[j]]
  {
    assert log[j] in log;
    hide EventOf;
    var s, i :| 0 <= s < |tr| && 0 <= i < |tr[s]| && EventOf(tr[s][i]) == [log[j]];
    FlatAt(tr, s, i);
    m := |Flat(tr[..s])| + i;
  }

  /** The label step that a defined PC label stands for. */
  lemma PcLabelStep(b: map<int, int>, labels: map<int, int>, tr: seq<seq<Step>>, log: seq<Event>, fin: seq<int>,
                    shr: seq<nat>, pc: nat) returns (m: nat)
    requires LinkedAll(b, Flat(tr), fin, shr) && Logged(log, tr) && SlotKnows(log, labels, PcSlot(pc)) && Rd(labels, PcSlot(pc)) < 0
    ensures |fin| == |Flat(tr)| + 1
    ensures m < |Flat(tr)| && Flat(tr)[m].op.LabelPC? && Flat(tr)[m].n == pc && Rd(b, -Rd(labels, PcSlot(pc))) == fin[m]
  {
    hide LinkedAll, Logged, Flat;
    var j :| PrevDef(log, |log|, PcSlot(pc), j) && log[j].pos == -Rd(labels, PcSlot(pc));
    m := DefStep(tr, log, j);
    FixedAt(b, Flat(tr), fin, shr, m);
  }

  lemma AllKnown(b: map<int, int>, labels: map<int, int>, log: seq<Event>, ch: Chains)
    requires LabelsOk(b, labels, log, ch)
    ensures forall slot :: SlotKnows(log, labels, slot)
  {
    hide RefHolds, SlotOk, ChainWaits;
  }

  /** The local labels below i are cleared, and none of them was pending. */
  ghost predicate Forgotten(m: map<int, int>, m': map<int, int>, i: nat) {
    forall slot :: if 1 <= slot < i then Rd(m', slot) == 0 && Rd(m, slot) <= 0 else Rd(m', slot) == Rd(m, slot)
  }

  lemma ForgottenNext(m: map<int, int>, m': map<int, int>, i: nat)
    requires Forgotten(m, m', i) && Rd(m', i) <= 0 && i >= 1
    ensures Forgotten(m, m'[i := 0], i + 1)
  {
    var n := m'[i := 0];
    forall slot
      ensures if 1 <= slot < i + 1 then Rd(n, slot) == 0 && Rd(m, slot) <= 0 else Rd(n, slot) == Rd(m, slot)
    {
      assert if 1 <= slot < i then Rd(m', slot) == 0 && Rd(m, slot) <= 0 else Rd(m', slot) == Rd(m, slot);
    }
  }

  lemma LoggedReset(log: seq<Event>, tr: seq<seq<Step>>, slot: int)
    requires Logged(log, tr)
    ensures Logged(log + [Reset(slot)], tr)
  {
  }

  lemma EmptyOk(top: seq<nat>)
    ensures MidOk(map[], map[], map[], [], map[], top)
  {
    forall slot
      ensures SlotOk(map[], map[], map[], slot) && SlotKnows([], map[], slot) && ChainWaits([], map[], slot)
    {
    }
  }

  lemma SlotAt(b: map<int, int>, labels: map<int, int>, log: seq<Event>, ch: Chains, slot: int)
    requires LabelsOk(b, labels, log, ch)
    ensures SlotOk(b, labels, ch, slot)
  {
  }

  lemma SectionStart(list: seq<Op>, tr: seq<seq<Step>>, pos: seq<nat>, ofs: seq<nat>, s: nat)
    requires SectionsAt(list, tr, pos, ofs) && s < |tr|
    ensures |tr| == |pos| == |ofs| && s * SEC <= pos[s] < s * SEC + SEC
  {
    hide TraceOk;
  }

  lemma PutDone(list: seq<Op>, tr: seq<seq<Step>>, pos: seq<nat>, ofs: seq<nat>, rec: map<nat, int>, rec': map<nat, int>,
                log: seq<Event>, log': seq<Event>, s: nat, start: nat, args: seq<int>)
    requires SectionsAt(list, tr, pos, ofs) && AllRec(rec, tr) && Logged(log, tr) && s < |tr|
    requires Terminated(list, start) && Feeds(list, start, args) && BranchesOk(list, start, start)
    requires var r := PutSteps(list, start, args, pos[s], ofs[s]);
      EndPos(r[|r| - 1]) < s * SEC + SEC && DoneOk(log, rec, log', rec', r)
    ensures var r := PutSteps(list, start, args, pos[s], ofs[s]);
      && log' == log + EventsOf(r)
      && SectionsAt(list, tr[s := tr[s] + r], pos[s := EndPos(r[|r| - 1])], ofs[s := EndEst(r[|r| - 1])])
      && AllRec(rec', tr[s := tr[s] + r]) && Logged(log', tr[s := tr[s] + r])
  {
    var r := PutSteps(list, start, args, pos[s], ofs[s]);
    LoggedAfter(log, tr, s, r);
    PutRec(rec, rec', tr, s, r);
    PutExtends(list, tr[s], s * SEC, pos[s], ofs[s], start, args);
    PutEndAfter(list, start, args, pos[s], ofs[s]);
    hide TraceOk, Logged, AllRec, RecIn, PutSteps, EventsOf, BranchesOk, Feeds;
  }

  lemma PutEndAfter(list: seq<Op>, start: nat, args: seq<int>, pos: nat, ofs: nat)
    requires Terminated(list, start)
    ensures var r := PutSteps(list, start, args, pos, ofs); pos < EndPos(r[|r| - 1])
  {
    StepsEnd(list, start, args, pos + 1, ofs);
    var u := Steps(list, start, args, pos + 1, ofs);
    var r := PutSteps(list, start, args, pos, ofs);
    assert r[|r| - 1] == u[|u| - 1];
  }

  lemma PutRec(rec: map<nat, int>, rec': map<nat, int>, tr: seq<seq<Step>>, s: nat, r: seq<Step>)
    requires AllRec(rec, tr) && Kept(rec, rec') && s < |tr| && forall t <- r :: RecIn(rec', t)
    ensures AllRec(rec', tr[s := tr[s] + r])
  {
    var tr' := tr[s := tr[s] + r];
    forall q, i | 0 <= q < |tr'| && 0 <= i < |tr'[q]|
      ensures RecIn(rec', tr'[q][i])
    {
      if q == s && i >= |tr[s]| {
        assert tr'[q][i] == r[i - |tr[s]|];
      } else {
        assert tr'[q][i] == tr[q][i];
        RecKept(rec, rec', tr[q][i]);
      }
    }
    hide RecIn;
  }

  lemma LogOf(log0: seq<Event>, rec0: map<nat, int>, log: seq<Event>, rec: map<nat, int>, done: seq<Step>)
    requires DoneOk(log0, rec0, log, rec, done)
    ensures log == log0 + EventsOf(done)
  {
  }

  /** The action that fails is the first of the put that does. */
  lemma PutFault(list: seq<Op>, start: nat, args: seq<int>, pos0: nat, ofs0: nat, done: seq<Step>, t: Step, p: nat, rest: seq<int>,
                 pos: nat, ofs: nat, log: seq<Event>, lgmax: nat, pcmax: nat, maxsection: nat)
    requires Progress(list, start, args, pos0, ofs0, done + [t], p, rest, pos, ofs)
    requires AllPass(done, log, lgmax, pcmax, maxsection) && t.p >= 0
    requires !Passes(t.op, t.n, log + EventsOf(done), lgmax, pcmax, maxsection)
    ensures Terminated(list, start)
    ensures var r := PutSteps(list, start, args, pos0, ofs0);
            Faulty(r, log, lgmax, pcmax, maxsection, Complaint(t.op, t.p)) && !AllPass(r, log, lgmax, pcmax, maxsection)
  {
    hide Passes, AllPass, Faulty, Complaint, EventsOf, Steps, PutSteps, Terminated, Feeds;
    FaultAt(done, t, Steps(list, p, rest, pos, ofs), log, lgmax, pcmax, maxsection);
  }

  /** Once all others are accepted, the last action of a put decides. */
  lemma LastAction(r: seq<Step>, log: seq<Event>, lgmax: nat, pcmax: nat, maxsection: nat)
    requires r != [] && AllPass(r[..|r| - 1], log, lgmax, pcmax, maxsection) && Ends(r[|r| - 1].op) && r[|r| - 1].p >= 0
    ensures AllPass(r, log, lgmax, pcmax, maxsection) <==> (r[|r| - 1].op.Section? ==> r[|r| - 1].op.n < maxsection)
    ensures !AllPass(r, log, lgmax, pcmax, maxsection) ==> Faulty(r, log, lgmax, pcmax, maxsection, RangeSec(r[|r| - 1].p))
  {
    hide AllPass, Faulty, EventsOf;
    var done, t := r[..|r| - 1], r[|r| - 1];
    assert r == done + [t] + [];
    assert r == done + [t];
    if Passes(t.op, t.n, log + EventsOf(done), lgmax, pcmax, maxsection) {
      PassStep(done, t, log, lgmax, pcmax, maxsection);
    } else {
      FaultAt(done, t, [], log, lgmax, pcmax, maxsection);
    }
  }

  lemma EndStep(log0: seq<Event>, rec0: map<nat, int>, log: seq<Event>, rec: map<nat, int>, list: seq<Op>, start: nat,
                args: seq<int>, pos0: nat, ofs0: nat, done: seq<Step>, p: nat, rest: seq<int>, pos: nat, ofs: nat)
    requires Progress(list, start, args, pos0, ofs0, done, p, rest, pos, ofs) && p < |list| && Ends(list[p])
    requires DoneOk(log0, rec0, log, rec, done)
    ensures var r := PutSteps(list, start, args, pos0, ofs0);
      r[|r| - 1] == Step(list[p], p, 0, pos, ofs) && r[..|r| - 1] == done && DoneOk(log0, rec0, log, rec, r)
  {
    var t := Step(list[p], p, 0, pos, ofs);
    LastOfPut(list, start, args, pos0, ofs0, done, p, rest, pos, ofs);
    assert RecIn(rec, t) && EventOf(t) == [];
    assert log + [] == log;
    DoneStep(log0, rec0, log, rec, log, rec, done, t);
    hide DoneOk, Progress;
  }

  lemma InSec(sec: nat, pos: nat)
    requires sec * SEC <= pos < sec * SEC + SEC
    ensures SecOf(pos) == sec
  {
    QuotientIs(pos, sec);
  }

  lemma FirstRec(rec: map<nat, int>, t: Step)
    requires t.op.Begin? && t.pos in rec && rec[t.pos] == t.n
    ensures RecIn(rec, t) && EventsOf([t]) == []
  {
    assert [t][..0] == [];
  }

  lemma RoomFor(sec: nat, pos: nat, n: nat)
    requires sec * SEC <= pos && pos + n < sec * SEC + SEC
    ensures SecOf(pos) == SecOf(pos + n) == sec
  {
    QuotientIs(pos, sec);
    QuotientIs(pos + n, sec);
  }

  lemma DoneStep(log0: seq<Event>, rec0: map<nat, int>, log: seq<Event>, rec: map<nat, int>, log': seq<Event>,
                 rec': map<nat, int>, done: seq<Step>, t: Step)
    requires DoneOk(log0, rec0, log, rec, done) && Kept(rec, rec') && RecIn(rec', t) && log' == log + EventOf(t)
    ensures DoneOk(log0, rec0, log', rec', done + [t])
  {
    forall u <- done
      ensures RecIn(rec', u)
    {
      RecKept(rec, rec', u);
    }
    assert (done + [t])[..|done|] == done;
    assert log0 + EventsOf(done) + EventOf(t) == log0 + (EventsOf(done) + EventOf(t));
    hide RecIn;
  }

  lemma {:induction false} StepsEnd(list: seq<Op>, p: nat, args: seq<int>, pos: nat, est: nat)
    requires Terminated(list, p)
    ensures var r := Steps(list, p, args, pos, est); r != [] && pos + Slots(list[p]) <= EndPos(r[|r| - 1])
    decreases |list| - p
  {
    if !Ends(list[p]) {
      var t := Step(list[p], p, ArgOf(list[p], args), pos, est);
      StepsEnd(list, p + 1, ArgsAfter(list[p], args), EndPos(t), EndEst(t));
    }
  }

  /** There is room for the next action, as the whole put fits. */
  lemma LastOfPut(list: seq<Op>, start: nat, args: seq<int>, pos0: nat, ofs0: nat, done: seq<Step>, p: nat, rest: seq<int>,
                  pos: nat, ofs: nat)
    requires Terminated(list, start) && Terminated(list, p)
    requires done + Steps(list, p, rest, pos, ofs) == PutSteps(list, start, args, pos0, ofs0)
    ensures var r := PutSteps(list, start, args, pos0, ofs0); pos + Slots(list[p]) <= EndPos(r[|r| - 1])
    ensures Ends(list[p]) ==> Steps(list, p, rest, pos, ofs) == [Step(list[p], p, 0, pos, ofs)]
    ensures !Ends(list[p]) ==>
              var t := Step(list[p], p, ArgOf(list[p], rest), pos, ofs);
              done + [t] + Steps(list, p + 1, ArgsAfter(list[p], rest), EndPos(t), EndEst(t))
                == PutSteps(list, start, args, pos0, ofs0)
  {
    StepsOpen(list, p, rest, pos, ofs);
    StepsEnd(list, p, rest, pos, ofs);
    hide Steps, PutSteps, Terminated;
    var u := Steps(list, p, rest, pos, ofs);
    assert (done + u)[|done + u| - 1] == u[|u| - 1];
    if !Ends(list[p]) {
      var t := Step(list[p], p, ArgOf(list[p], rest), pos, ofs);
      var v := Steps(list, p + 1, ArgsAfter(list[p], rest), EndPos(t), EndEst(t));
      assert done + ([t] + v) == done + [t] + v;
    }
  }

  lemma StepsOpen(list: seq<Op>, p: nat, rest: seq<int>, pos: nat, ofs: nat)
    requires Terminated(list, p)
    ensures p < |list| && (!Ends(list[p]) ==> Terminated(list, p + 1))
    ensures Ends(list[p]) ==> Steps(list, p, rest, pos, ofs) == [Step(list[p], p, 0, pos, ofs)]
    ensures !Ends(list[p]) ==>
              var t := Step(list[p], p, ArgOf(list[p], rest), pos, ofs);
              Steps(list, p, rest, pos, ofs) == [t] + Steps(list, p + 1, ArgsAfter(list[p], rest), EndPos(t), EndEst(t))
  {
  }

  lemma SamePos(top: seq<nat>, s: nat, pos: nat)
    requires s < |top| && top[s] == pos
    ensures top[s := pos] == top
  {
  }

  lemma SetTwice(top: seq<nat>, s: nat, x: nat, y: nat)
    requires s < |top|
    ensures top[s := x][s := y] == top[s := y]
  {
  }

  lemma RoomAfter(pos: nat)
    requires SecOf(pos + 2) == SecOf(pos)
    ensures SecOf(pos + 1) == SecOf(pos)
  {
  }

  lemma ThreadEnds(b: map<int, int>, n: int, c: seq<int>)
    ensures Thread(b, n, c) ==> n >= 0 && (n == 0 <==> c == [])
  {
  }
}
