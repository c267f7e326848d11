// The action lists of the x86 encoder, the positions of its section buffers, and
// what one dasm_put records (luajit/dynasm/dasm_x86.h).

module DasmOps {

  /** A decoded action, with the operands that follow it in the action list. Begin
      stands for the start index that each put stores ahead of its actions. */
  datatype Op =
    | Begin
    | Byte(v: nat) | Esc(v: nat)
    | ImmS | ImmB | ImmW | ImmD | ImmWB | ImmDB | RelA | Space(fill: nat)
    | RelLG(n: nat) | RelPC | ImmLG(n: nat) | ImmPC
    | LabelLG(n: nat) | LabelPC
    | Align(mask: nat) | Extern(lo: nat, hi: nat)
    | Section(n: nat) | Stop

  /** Buffer positions: 8 bits of section, 24 bits of index. */
  const SEC := 0x100_0000

  function SecOf(pos: nat): nat { pos / SEC }

  /** The argument is stored in the buffer as it is. */
  predicate HasArg(op: Op) { op.ImmS? || op.ImmB? || op.ImmW? || op.ImmD? || op.ImmWB? || op.ImmDB? || op.RelA? || op.Space? }

  predicate IsRel(op: Op) { op.RelLG? || op.RelPC? }

  predicate IsRef(op: Op) { IsRel(op) || op.ImmLG? || op.ImmPC? }

  predicate IsLabel(op: Op) { op.LabelLG? || op.LabelPC? }

  predicate TakesArg(op: Op) { HasArg(op) || op.RelPC? || op.ImmPC? || op.LabelPC? }

  predicate Ends(op: Op) { op.Section? || op.Stop? }

  /** How many buffer positions an action takes. */
  function Slots(op: Op): nat {
    if IsRel(op) then 2
    else if op.Begin? || HasArg(op) || IsRef(op) || IsLabel(op) || op.Align? then 1
    else 0
  }

  /** ((n+128)&-256) == 0 */
  predicate Small(n: int) { -128 <= n <= 127 }

  /** The most bytes an action can emit. */
  function MaxSize(op: Op, n: int): nat {
    match op
    case Byte(_) | Esc(_) | ImmS | ImmB => 1
    case ImmW => 2
    case ImmD | RelA | RelLG(_) | RelPC | ImmLG(_) | ImmPC | Extern(_, _) => 4
    case ImmWB => if Small(n) then 1 else 2
    case ImmDB => if Small(n) then 1 else 4
    case Space(_) => if n >= 0 then n else 0
    case Align(mask) => mask
    case Begin | LabelLG(_) | LabelPC | Section(_) | Stop => 0
  }

  /** What pass 1 recorded for an action: where its buffer slots are and the offset
      estimate in front of it; p is its index in the action list. */
  datatype Step = Step(op: Op, p: int, n: int, pos: nat, est: nat)

  function EndPos(t: Step): nat { t.pos + Slots(t.op) }

  function EndEst(t: Step): nat { t.est + MaxSize(t.op, t.n) }

  // -------------------------------------------------------------------- labels

  /** The slot of a PC label. */
  function PcSlot(pc: int): int { -1 - pc }

  /** Label slots: local and global labels by number, PC label i by PcSlot. */
  function SlotOf(op: Op, n: int): int {
    match op
    case RelLG(k) => if k > 246 then k - 246 else k
    case ImmLG(k) => if k > 246 then k - 246 else k
    case LabelLG(k) => k
    case _ => PcSlot(n)
  }

  predicate Forward(op: Op) { (op.RelLG? || op.ImmLG?) && op.n > 246 }

  predicate Local(slot: int) { 0 <= slot < 10 }

  // ------------------------------------------------------------ well-formedness

  /** The list runs from p to a terminating action. */
  predicate Terminated(list: seq<Op>, p: nat)
    decreases |list| - p
  {
    p < |list| && !list[p].Begin? && (Ends(list[p]) || Terminated(list, p + 1))
  }

  /** The arguments suffice, and space is not negative. */
  predicate Feeds(list: seq<Op>, p: nat, args: seq<int>)
    requires Terminated(list, p)
    decreases |list| - p
  {
    if Ends(list[p]) then true
    else if TakesArg(list[p]) then
      args != [] && (list[p].Space? ==> args[0] >= 0) && Feeds(list, p + 1, args[1..])
    else Feeds(list, p + 1, args)
  }

  /** The byte of the action list in front of an action, as far as it can be taken
      for a branch opcode. */
  function LastByte(op: Op): nat {
    match op
    case Byte(v) => v
    case Esc(v) => v
    case Space(fill) => fill
    case RelLG(n) => n
    case ImmLG(n) => n
    case LabelLG(n) => n
    case Align(mask) => mask
    case Extern(_, hi) => hi
    case Section(n) => n
    case _ => 255
  }

  /** What a branch would shrink by, judging by the byte in front of it. */
  function ShrinkOf(op: nat): nat { if op == 0xe9 then 3 else if op / 16 == 8 then 4 else 0 }

  predicate IsByte(op: Op) { op.Byte? || op.Esc? }

  /** A shrinkable branch at p follows, in the same put from start, the raw byte e9 or
      the raw bytes 0f 8x. */
  predicate BranchOk(list: seq<Op>, start: nat, p: nat)
    requires p < |list|
  {
    IsRel(list[p]) ==>
      && p > start
      && (ShrinkOf(LastByte(list[p - 1])) == 3 ==> IsByte(list[p - 1]))
      && (ShrinkOf(LastByte(list[p - 1])) == 4 ==> p - 1 > start && IsByte(list[p - 1]) && list[p - 2] == Byte(0x0f))
  }

  predicate BranchesOk(list: seq<Op>, start: nat, p: nat)
    requires Terminated(list, p)
    decreases |list| - p
  {
    BranchOk(list, start, p) && (Ends(list[p]) || BranchesOk(list, start, p + 1))
  }

  // -------------------------------------------------------------- what put records

  function ArgOf(op: Op, args: seq<int>): int { if TakesArg(op) && args != [] then args[0] else 0 }

  function ArgsAfter(op: Op, args: seq<int>): seq<int> { if TakesArg(op) && args != [] then args[1..] else args }

  /** The steps of one put from action p on. */
  function Steps(list: seq<Op>, p: nat, args: seq<int>, pos: nat, est: nat): (r: seq<Step>)
    requires Terminated(list, p)
    decreases |list| - p
  {
    var t := Step(list[p], p, ArgOf(list[p], args), pos, est);
    [t] + if Ends(list[p]) then [] else Steps(list, p + 1, ArgsAfter(list[p], args), EndPos(t), EndEst(t))
  }

  /** The steps of a whole put. */
  function PutSteps(list: seq<Op>, start: nat, args: seq<int>, pos: nat, est: nat): (r: seq<Step>)
    requires Terminated(list, start)
  {
    [Step(Begin, -1, start, pos, est)] + Steps(list, start, args, pos + 1, est)
  }

  // ------------------------------------------------------------- section traces

  /** Step u directly follows step t in a section. */
  predicate Follows(t: Step, u: Step) {
    && u.pos == EndPos(t) && u.est == EndEst(t)
    && (if Ends(t.op) then u.op.Begin? else !u.op.Begin? && u.p == if t.op.Begin? then t.n else t.p + 1)
  }

  /** Steps that a put produced: each is an action of the list. */
  predicate StepOk(list: seq<Op>, t: Step) {
    if t.op.Begin? then t.n >= 0 else 0 <= t.p < |list| && list[t.p] == t.op && (t.op.Space? ==> t.n >= 0)
  }

  /** Branch t with the two steps before it. */
  predicate BranchAfter(tr: seq<Step>, k: nat)
    requires k < |tr|
  {
    IsRel(tr[k].op) ==>
      && k >= 1 && !tr[k - 1].op.Begin?
      && (ShrinkOf(LastByte(tr[k - 1].op)) == 3 ==> IsByte(tr[k - 1].op))
      && (ShrinkOf(LastByte(tr[k - 1].op)) == 4 ==> k >= 2 && IsByte(tr[k - 1].op) && tr[k - 2].op == Byte(0x0f))
  }

  /** A complete section: a chain of puts from the section's first position. */
  ghost predicate TraceOk(list: seq<Op>, tr: seq<Step>, pos0: nat, pos: nat, ofs: nat) {
    && (tr == [] ==> pos == pos0 && ofs == 0)
    && (tr != [] ==> tr[0].op.Begin? && tr[0].pos == pos0 && tr[0].est == 0
                     && Ends(tr[|tr| - 1].op) && EndPos(tr[|tr| - 1]) == pos && EndEst(tr[|tr| - 1]) == ofs)
    && (forall k :: 0 <= k < |tr| - 1 ==> Follows(tr[k], tr[k + 1]))
    && (forall k :: 0 <= k < |tr| ==> StepOk(list, tr[k]) && BranchAfter(tr, k))
  }

  /** The steps of a put form a chain that ends properly. */
  ghost predicate ChainOfSteps(list: seq<Op>, r: seq<Step>, start: nat) {
    && r != [] && Ends(r[|r| - 1].op) && !r[0].op.Begin? && r[0].p == start
    && (forall k :: 0 <= k < |r| - 1 ==> Follows(r[k], r[k + 1]))
    && (forall k :: 0 <= k < |r| ==> StepOk(list, r[k]) && !r[k].op.Begin? && r[k].p == start + k)
  }

  lemma {:induction false} StepsChain(list: seq<Op>, p: nat, args: seq<int>, pos: nat, est: nat)
    requires Terminated(list, p) && Feeds(list, p, args)
    ensures ChainOfSteps(list, Steps(list, p, args, pos, est), p)
    ensures Steps(list, p, args, pos, est)[0] == Step(list[p], p, ArgOf(list[p], args), pos, est)
    decreases |list| - p
  {
    var t := Step(list[p], p, ArgOf(list[p], args), pos, est);
    if !Ends(list[p]) {
      StepsChain(list, p + 1, ArgsAfter(list[p], args), EndPos(t), EndEst(t));
    }
  }

  lemma {:induction false} BranchesAt(list: seq<Op>, start: nat, p: nat, q: nat)
    requires Terminated(list, p) && BranchesOk(list, start, p) && p <= q <= |list|
    requires forall i :: p <= i < q ==> !Ends(list[i])
    ensures q < |list| && BranchOk(list, start, q)
    decreases q - p
  {
    if p < q {
      BranchesAt(list, start, p + 1, q);
    }
  }

  /** Step k of a put is action start + k of the list. */
  lemma ChainAt(list: seq<Op>, r: seq<Step>, start: nat, k: nat)
    requires ChainOfSteps(list, r, start) && k < |r|
    ensures start + k < |list| && list[start + k] == r[k].op && (k < |r| - 1 ==> !Ends(r[k].op))
  {
    assert StepOk(list, r[k]);
    if k < |r| - 1 {
      assert Follows(r[k], r[k + 1]);
    }
  }

  lemma StepsBranches(list: seq<Op>, r: seq<Step>, start: nat, t: Step, k: nat)
    requires Terminated(list, start) && BranchesOk(list, start, start) && ChainOfSteps(list, r, start) && k <= |r|
    requires t.op.Begin?
    ensures BranchAfter([t] + r, k)
  {
    if k > 0 && IsRel(r[k - 1].op) {
      ChainAt(list, r, start, k - 1);
      forall i | start <= i < start + (k - 1)
        ensures !Ends(list[i])
      {
        ChainAt(list, r, start, i - start);
      }
      BranchesAt(list, start, start, start + (k - 1));
      hide ChainOfSteps, Terminated, BranchesOk;
      if k >= 2 {
        ChainAt(list, r, start, k - 2);
      }
      if k >= 3 {
        ChainAt(list, r, start, k - 3);
      }
    }
  }

  /** A put extends its section. */
  lemma PutExtends(list: seq<Op>, tr: seq<Step>, pos0: nat, pos: nat, est: nat, start: nat, args: seq<int>)
    requires TraceOk(list, tr, pos0, pos, est)
    requires Terminated(list, start) && Feeds(list, start, args) && BranchesOk(list, start, start)
    ensures var r := PutSteps(list, start, args, pos, est);
      TraceOk(list, tr + r, pos0, EndPos(r[|r| - 1]), EndEst(r[|r| - 1]))
  {
    var s := Steps(list, start, args, pos + 1, est);
    var r := PutSteps(list, start, args, pos, est);
    StepsChain(list, start, args, pos + 1, est);
    forall k | 0 <= k < |r|
      ensures StepOk(list, r[k]) && BranchAfter(r, k)
    {
      StepsBranches(list, s, start, r[0], k);
    }
    forall k | 0 <= k < |r| - 1
      ensures Follows(r[k], r[k + 1])
    {
      assert k > 0 ==> Follows(s[k - 1], s[k]);
    }
    AppendTrace(list, tr, r, pos0, pos, est);
  }

  lemma AppendTrace(list: seq<Op>, tr: seq<Step>, r: seq<Step>, pos0: nat, pos: nat, est: nat)
    requires TraceOk(list, tr, pos0, pos, est)
    requires r != [] && r[0].op.Begin? && r[0].pos == pos && r[0].est == est && Ends(r[|r| - 1].op)
    requires forall k :: 0 <= k < |r| - 1 ==> Follows(r[k], r[k + 1])
    requires forall k :: 0 <= k < |r| ==> StepOk(list, r[k]) && BranchAfter(r, k)
    ensures TraceOk(list, tr + r, pos0, EndPos(r[|r| - 1]), EndEst(r[|r| - 1]))
  {
    var u := tr + r;
    forall k | 0 <= k < |u| - 1
      ensures Follows(u[k], u[k + 1])
    {
      if k >= |tr| {
        assert Follows(r[k - |tr|], r[k - |tr| + 1]);
      } else if k < |tr| - 1 {
        assert Follows(tr[k], tr[k + 1]);
      }
    }
    forall k | 0 <= k < |u|
      ensures StepOk(list, u[k]) && BranchAfter(u, k)
    {
      if k >= |tr| {
        assert BranchAfter(r, k - |tr|);
      } else {
        assert BranchAfter(tr, k);
      }
    }
  }
}
