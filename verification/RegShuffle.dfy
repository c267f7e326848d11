// The register shuffle at the head of a side trace: values that the parent trace left
// in registers move to the registers in which the side trace expects them. Machine
// code is emitted backwards, so each move executes before those emitted so far
// (luajit/src/lj_asm.c).

module RegShuffle {

  /** RID_MAX_GPR and RID_MAX: 16 general and 16 floating-point registers (x64). */
  const MAX_GPR := 16
  const MAX_REG := 32

  type Regs = set<nat>

  function Rd(m: map<nat, int>, a: nat): int { if a in m then m[a] else 0 }

  datatype Move = Move(dst: nat, src: nat)

  /** Runs the moves in execution order. */
  function Exec(code: seq<Move>, file: map<nat, int>): map<nat, int> {
    if code == [] then file else Exec(code[1..], file[code[0].dst := Rd(file, code[0].src)])
  }

  /** The general (g) or the floating-point registers of a set: s & RSET_GPR, s & RSET_FPR. */
  function OfClass(s: Regs, g: bool): Regs { set r | r in s && InClass(r, g) }

  predicate InClass(r: nat, g: bool) { r < MAX_GPR <==> g }

  predicate SameClass(a: nat, b: nat) { a < MAX_GPR <==> b < MAX_GPR }

  /** rset_pickbot */
  function PickBot(s: Regs, i: nat): (r: nat)
    requires exists j :: j in s && i <= j < MAX_REG
    ensures r in s && i <= r < MAX_REG && forall j :: j in s && i <= j ==> r <= j
    decreases MAX_REG - i
  {
    if i in s then i else PickBot(s, i + 1)
  }

  // ------------------------------------------------------------------ the problem

  /** The shuffle to do: value i comes in register parent and is wanted in another one.
      sload maps a parent register to its reference, reg a reference to its register. */
  datatype Task = Task(live: Regs, free: Regs, allow: Regs, sload: map<nat, nat>, reg: map<nat, nat>)

  function Target(t: Task, reg: map<nat, nat>, rp: nat): nat {
    if rp in t.sload && t.sload[rp] in reg then reg[t.sload[rp]] else 0
  }

  /** Registers of the targets of a set of parent registers. */
  ghost function Targets(t: Task, reg: map<nat, nat>, s: Regs): Regs { set rp | rp in s :: Target(t, reg, rp) }

  /** Registers that may serve as a temporary. */
  function Spare(t: Task): Regs { t.free * t.allow - t.live }

  /** Distinct parents, distinct targets of the same class; targets are allocated and not
      allowed as temporaries; an allocated parent register is some target. */
  ghost predicate TaskOk(t: Task, cost: map<nat, nat>) {
    && (forall r <- t.live + t.free :: r < MAX_REG)
    && (forall rp <- t.live :: rp in t.sload && t.sload[rp] in t.reg)
    && (forall a, b :: a in t.live && b in t.live && a != b ==> t.sload[a] != t.sload[b])
    && (forall a, b :: a in t.live && b in t.live && a != b ==> Target(t, t.reg, a) != Target(t, t.reg, b))
    && (forall rp <- t.live :: Placed(t, t.reg, cost, rp) && Target(t, t.reg, rp) !in t.free && Target(t, t.reg, rp) !in t.allow)
    && (forall r <- t.live :: r in t.free || Wanted(t, t.reg, t.live, r))
  }

  ghost predicate Placed(t: Task, reg: map<nat, nat>, cost: map<nat, nat>, rp: nat) {
    var r := Target(t, reg, rp);
    SameClass(r, rp) && r < MAX_REG && r in cost && rp in t.sload && cost[r] == t.sload[rp]
  }

  /** Register r is the target of some value of s. */
  ghost predicate Wanted(t: Task, reg: map<nat, nat>, s: Regs, r: nat) { exists rp :: rp in s && Target(t, reg, rp) == r }

  /** The moves do what was asked: each target ends up with its parent's value. */
  ghost predicate Shuffles(t: Task, code: seq<Move>) {
    && (forall file: map<nat, int>, rp | rp in t.live :: Rd(Exec(code, file), Target(t, t.reg, rp)) == Rd(file, rp))
    && Leaves(t, code)
  }

  /** Registers that are neither targets nor temporaries keep their values. */
  ghost predicate Leaves(t: Task, code: seq<Move>) {
    forall file: map<nat, int>, x: nat :: x !in Targets(t, t.reg, t.live) && x !in Spare(t) ==> Rd(Exec(code, file), x) == Rd(file, x)
  }

  /** The values of set s move in a circle of their own, with no temporary to break it. */
  ghost predicate Stuck(t: Task, s: Regs) { s != {} && s <= t.live && Targets(t, t.reg, s) == s && (Tight(t, s, true) || Tight(t, s, false)) }

  /** The values are all of class g, and no temporary is. */
  ghost predicate Tight(t: Task, s: Regs, g: bool) { (forall r <- s :: InClass(r, g)) && (forall r <- Spare(t) :: !InClass(r, g)) }

  // ----------------------------------------------------------------- the invariant

  /** How far the shuffle has come. */
  datatype Progress = Progress(live: Regs, free: Regs, allow: Regs, reg: map<nat, nat>, cost: map<nat, nat>)

  /** The register file suits the code emitted so far: values still to be moved are in
      their (present) targets, the others in their parent registers. */
  ghost predicate Suits(t: Task, p: Progress, file: map<nat, int>, val: map<nat, int>) {
    && (forall rp <- p.live :: Rd(file, Target(t, p.reg, rp)) == Rd(val, rp))
    && (forall rp <- t.live - p.live :: Rd(file, rp) == Rd(val, rp))
  }

  ghost predicate Delivers(t: Task, file: map<nat, int>, val: map<nat, int>) {
    forall rp <- t.live :: Rd(file, Target(t, t.reg, rp)) == Rd(val, rp)
  }

  ghost predicate CodeOk(t: Task, p: Progress, code: seq<Move>) {
    && (forall file, val :: Suits(t, p, file, val) ==> Delivers(t, Exec(code, file), val))
    && Leaves(t, code)
  }

  ghost predicate RegsOk(t: Task, p: Progress) {
    && p.live <= t.live && p.allow <= t.allow && Spare(t) <= p.allow && p.allow * (t.live - p.live) == {}
    && (forall r <- p.free :: r in t.free || r in Targets(t, t.reg, t.live))
    && (forall a, b :: a in p.live && b in p.live && a != b ==> Target(t, p.reg, a) != Target(t, p.reg, b))
    && (forall rp <- t.live :: rp in t.sload && t.sload[rp] in p.reg)
    && (forall rp <- p.live :: TargetOk(t, p, rp))
    && (forall r <- p.live :: r in p.free || Wanted(t, p.reg, p.live, r))
    && (forall r <- Spare(t) :: r in p.free || Wanted(t, p.reg, p.live, r))
  }

  ghost predicate TargetOk(t: Task, p: Progress, rp: nat) {
    var r := Target(t, p.reg, rp);
    && Placed(t, p.reg, p.cost, rp) && r !in p.free && r !in t.live - p.live
    && (r == Target(t, t.reg, rp) || r in Spare(t))
  }

  /** A circle without a temporary stays as it is. */
  ghost predicate Untouched(t: Task, p: Progress, s: Regs) {
    s <= p.live && s * p.free == {} && forall rp <- s :: Target(t, p.reg, rp) == Target(t, t.reg, rp)
  }

  ghost predicate CirclesOk(t: Task, p: Progress) { forall s :: Stuck(t, s) ==> Untouched(t, p, s) }

  // ---------------------------------------------------------------------- moving

  function Moved(t: Task, p: Progress, rp: nat): Progress {
    p.(live := p.live - {rp}, allow := p.allow - {rp}, free := p.free + {Target(t, p.reg, rp)})
  }

  lemma MoveRegs(t: Task, cost: map<nat, nat>, p: Progress, rp: nat)
    requires TaskOk(t, cost) && RegsOk(t, p) && rp in p.live && rp in p.free
    ensures RegsOk(t, Moved(t, p, rp))
  {
    var q := Moved(t, p, rp);
    var d := Target(t, p.reg, rp);
    assert TargetOk(t, p, rp);
    forall a <- q.live
      ensures TargetOk(t, q, a)
    {
      assert TargetOk(t, p, a);
    }
    forall r <- q.live + Spare(t)
      ensures r in q.free || Wanted(t, q.reg, q.live, r)
    {
      if r !in p.free {
        assert Wanted(t, p.reg, p.live, r);
        var a :| a in p.live && Target(t, p.reg, a) == r;
        if a != rp {
          assert a in q.live;
        }
      }
    }
    hide TargetOk, Wanted;
    if d !in Spare(t) {
      assert d in Targets(t, t.reg, t.live) by { TargetIn(t, cost, p, rp); }
    }
  }

  lemma TargetIn(t: Task, cost: map<nat, nat>, p: Progress, rp: nat)
    requires TaskOk(t, cost) && RegsOk(t, p) && rp in p.live
    ensures Target(t, p.reg, rp) in Targets(t, t.reg, t.live) || Target(t, p.reg, rp) in Spare(t)
    ensures Target(t, p.reg, rp) !in t.live - p.live
  {
    assert TargetOk(t, p, rp);
    hide TaskOk, RegsOk;
    assert rp in t.live by { OnlyLive(t, p, rp); }
  }

  lemma OnlyLive(t: Task, p: Progress, rp: nat)
    requires RegsOk(t, p) && rp in p.live
    ensures rp in t.live
  {
  }

  lemma ExecFirst(m: Move, code: seq<Move>, file: map<nat, int>)
    ensures Exec([m] + code, file) == Exec(code, file[m.dst := Rd(file, m.src)])
  {
    assert ([m] + code)[1..] == code;
  }

  /** A move into a register that may be written keeps the others. */
  lemma LeavesMore(t: Task, code: seq<Move>, m: Move)
    requires Leaves(t, code) && (m.dst in Targets(t, t.reg, t.live) || m.dst in Spare(t))
    ensures Leaves(t, [m] + code)
  {
    forall file: map<nat, int>, x: nat | x !in Targets(t, t.reg, t.live) && x !in Spare(t)
      ensures Rd(Exec([m] + code, file), x) == Rd(file, x)
    {
      ExecFirst(m, code, file);
    }
  }

  /** The move of a value from its parent register to its target. */
  lemma MoveCode(t: Task, cost: map<nat, nat>, p: Progress, code: seq<Move>, rp: nat)
    requires TaskOk(t, cost) && RegsOk(t, p) && CodeOk(t, p, code) && rp in p.live && rp in p.free
    ensures CodeOk(t, Moved(t, p, rp), [Move(Target(t, p.reg, rp), rp)] + code)
  {
    var m, q := Move(Target(t, p.reg, rp), rp), Moved(t, p, rp);
    TargetIn(t, cost, p, rp);
    forall file, val | Suits(t, q, file, val)
      ensures Delivers(t, Exec([m] + code, file), val)
    {
      ExecFirst(m, code, file);
      MoveSuits(t, cost, p, rp, file, val);
    }
    LeavesMore(t, code, m);
  }

  lemma MoveSuits(t: Task, cost: map<nat, nat>, p: Progress, rp: nat, file: map<nat, int>, val: map<nat, int>)
    requires TaskOk(t, cost) && RegsOk(t, p) && rp in p.live && rp in p.free && Suits(t, Moved(t, p, rp), file, val)
    ensures Suits(t, p, file[Target(t, p.reg, rp) := Rd(file, rp)], val)
  {
    TargetIn(t, cost, p, rp);
    OnlyLive(t, p, rp);
    hide TaskOk, TargetOk, Wanted, Spare;
    var q := Moved(t, p, rp);
    assert rp in t.live - q.live;
  }

  /** A circle is the target of its own values only. */
  lemma CircleTarget(t: Task, p: Progress, s: Regs, a: nat)
    requires RegsOk(t, p) && Stuck(t, s) && Untouched(t, p, s) && a in p.live && Target(t, p.reg, a) in s
    ensures a in s
  {
    hide TargetOk, Wanted, Spare, Tight;
    var d := Target(t, p.reg, a);
    assert d in Targets(t, t.reg, s);
    var b :| b in s && Target(t, t.reg, b) == d;
    assert Target(t, p.reg, b) == d;
    if a != b {
      assert b in p.live;
    }
  }

  lemma MoveCircles(t: Task, cost: map<nat, nat>, p: Progress, rp: nat)
    requires TaskOk(t, cost) && RegsOk(t, p) && CirclesOk(t, p) && rp in p.live && rp in p.free
    ensures CirclesOk(t, Moved(t, p, rp))
  {
    hide TaskOk, RegsOk, Stuck;
    forall s | Stuck(t, s)
      ensures Untouched(t, Moved(t, p, rp), s)
    {
      assert Untouched(t, p, s);
      var d := Target(t, p.reg, rp);
      assert rp !in s by {
        assert rp !in s * p.free;
      }
      if d in s {
        CircleTarget(t, p, s, rp);
      }
      assert s * (p.free + {d}) == {};
    }
  }

  // -------------------------------------------------------------------- renaming

  function Renamed(p: Progress, down: nat, up: nat): Progress {
    if down in p.cost then
      p.(cost := p.cost[up := p.cost[down]], reg := p.reg[p.cost[down] := up], free := p.free + {down} - {up})
    else p
  }

  /** The value whose target is the allocated register down. */
  lemma OwnerOf(t: Task, cost: map<nat, nat>, p: Progress, down: nat) returns (a: nat)
    requires TaskOk(t, cost) && RegsOk(t, p) && down in p.live && down !in p.free
    ensures a in p.live && Target(t, p.reg, a) == down && down in p.cost && a in t.sload && p.cost[down] == t.sload[a]
    ensures forall b <- t.live :: b != a ==> b in t.sload && t.sload[b] != p.cost[down]
  {
    assert Wanted(t, p.reg, p.live, down);
    a :| a in p.live && Target(t, p.reg, a) == down;
    assert TargetOk(t, p, a);
    hide Wanted, TargetOk;
  }

  lemma RenameTargets(t: Task, cost: map<nat, nat>, p: Progress, down: nat, up: nat, a: nat)
    requires TaskOk(t, cost) && RegsOk(t, p) && a in p.live && Target(t, p.reg, a) == down
    requires down in p.cost && a in t.sload && p.cost[down] == t.sload[a]
    requires forall b <- t.live :: b != a ==> b in t.sload && t.sload[b] != p.cost[down]
    ensures Target(t, Renamed(p, down, up).reg, a) == up
    ensures forall b <- t.live :: b != a ==> Target(t, Renamed(p, down, up).reg, b) == Target(t, p.reg, b)
    ensures forall b <- t.live :: t.sload[b] in Renamed(p, down, up).reg
  {
    hide TargetOk, Wanted, Placed;
  }

  lemma RenameRegs(t: Task, cost: map<nat, nat>, p: Progress, down: nat, up: nat)
    requires TaskOk(t, cost) && RegsOk(t, p) && down in p.live && down !in p.free
    requires up in p.free && up !in p.live && up in p.allow && SameClass(up, down) && up < MAX_REG
    ensures RegsOk(t, Renamed(p, down, up)) && up in Spare(t)
  {
    var a := OwnerOf(t, cost, p, down);
    var q := Renamed(p, down, up);
    RenameTargets(t, cost, p, down, up, a);
    UpSpare(t, cost, p, up);
    OnlyLive(t, p, a);
    assert TargetOk(t, p, a);
    forall b <- q.live
      ensures TargetOk(t, q, b)
    {
      OnlyLive(t, p, b);
      assert TargetOk(t, p, b);
    }
    forall r <- q.live + Spare(t)
      ensures r in q.free || Wanted(t, q.reg, q.live, r)
    {
      if r == up {
        assert Target(t, q.reg, a) == r;
      } else if r !in p.free && r != down {
        assert Wanted(t, p.reg, p.live, r);
        var b :| b in p.live && Target(t, p.reg, b) == r;
        OnlyLive(t, p, b);
        assert Target(t, q.reg, b) == r;
      }
    }
    RenameDistinct(t, cost, p, down, up, a);
    hide TargetOk, Wanted;
    DownTarget(t, cost, p, down, a);
  }

  lemma DownTarget(t: Task, cost: map<nat, nat>, p: Progress, down: nat, a: nat)
    requires TaskOk(t, cost) && RegsOk(t, p) && a in p.live && Target(t, p.reg, a) == down && down in p.live
    ensures down in Targets(t, t.reg, t.live)
  {
    TargetIn(t, cost, p, a);
    OnlyLive(t, p, down);
  }

  /** A temporary that is found is one of the registers that could serve from the start. */
  lemma UpSpare(t: Task, cost: map<nat, nat>, p: Progress, up: nat)
    requires TaskOk(t, cost) && RegsOk(t, p) && up in p.free && up !in p.live && up in p.allow
    ensures up in Spare(t)
  {
    assert up in t.allow && up !in p.allow * (t.live - p.live);
    if up in Targets(t, t.reg, t.live) {
      NotAllowed(t, cost, up);
    }
    hide TaskOk;
    assert up !in t.live;
  }

  lemma NotAllowed(t: Task, cost: map<nat, nat>, x: nat)
    requires TaskOk(t, cost) && x in Targets(t, t.reg, t.live)
    ensures x !in t.allow && x !in t.free
  {
    var rp :| rp in t.live && Target(t, t.reg, rp) == x;
    hide Placed, Wanted;
  }

  lemma RenameDistinct(t: Task, cost: map<nat, nat>, p: Progress, down: nat, up: nat, a: nat)
    requires TaskOk(t, cost) && RegsOk(t, p) && a in p.live && up in p.free
    requires Target(t, Renamed(p, down, up).reg, a) == up
    requires forall b <- t.live :: b != a ==> Target(t, Renamed(p, down, up).reg, b) == Target(t, p.reg, b)
    ensures forall b, c :: b in p.live && c in p.live && b != c ==> Target(t, Renamed(p, down, up).reg, b) != Target(t, Renamed(p, down, up).reg, c)
  {
    hide Renamed;
    forall b, c | b in p.live && c in p.live && b != c
      ensures Target(t, Renamed(p, down, up).reg, b) != Target(t, Renamed(p, down, up).reg, c)
    {
      OnlyLive(t, p, b);
      OnlyLive(t, p, c);
      assert TargetOk(t, p, b) && TargetOk(t, p, c);
    }
  }

  /** Renaming emits the inverse move. */
  lemma RenameCode(t: Task, cost: map<nat, nat>, p: Progress, code: seq<Move>, down: nat, up: nat)
    requires TaskOk(t, cost) && RegsOk(t, p) && CodeOk(t, p, code) && down in p.live && down !in p.free
    requires up in p.free && up !in p.live && up in p.allow
    ensures CodeOk(t, Renamed(p, down, up), [Move(down, up)] + code)
  {
    var m, q := Move(down, up), Renamed(p, down, up);
    var a := OwnerOf(t, cost, p, down);
    RenameTargets(t, cost, p, down, up, a);
    forall file, val | Suits(t, q, file, val)
      ensures Delivers(t, Exec([m] + code, file), val)
    {
      ExecFirst(m, code, file);
      RenameSuits(t, p, down, up, a, file, val);
    }
    DownTarget(t, cost, p, down, a);
    LeavesMore(t, code, m);
  }

  lemma RenameSuits(t: Task, p: Progress, down: nat, up: nat, a: nat, file: map<nat, int>, val: map<nat, int>)
    requires RegsOk(t, p) && a in p.live && Target(t, p.reg, a) == down && down in p.live
    requires Target(t, Renamed(p, down, up).reg, a) == up
    requires forall b <- t.live :: b != a ==> Target(t, Renamed(p, down, up).reg, b) == Target(t, p.reg, b)
    requires Suits(t, Renamed(p, down, up), file, val)
    ensures Suits(t, p, file[down := Rd(file, up)], val)
  {
    var q := Renamed(p, down, up);
    assert q.live == p.live;
    hide TargetOk, Wanted, Renamed, Spare, Targets;
    var f := file[down := Rd(file, up)];
    forall b <- p.live
      ensures Rd(f, Target(t, p.reg, b)) == Rd(val, b)
    {
      assert b in t.live && b in q.live;
      if b != a {
        assert Target(t, p.reg, b) != down;
      }
    }
  }

  lemma RenameCircles(t: Task, cost: map<nat, nat>, p: Progress, down: nat, up: nat)
    requires TaskOk(t, cost) && RegsOk(t, p) && CirclesOk(t, p) && down in p.live && down !in p.free
    requires up in p.free && up !in p.live && up in p.allow && SameClass(up, down)
    ensures CirclesOk(t, Renamed(p, down, up))
  {
    var a := OwnerOf(t, cost, p, down);
    RenameTargets(t, cost, p, down, up, a);
    UpSpare(t, cost, p, up);
    forall s | Stuck(t, s)
      ensures Untouched(t, Renamed(p, down, up), s)
    {
      assert Untouched(t, p, s);
      NotInCircle(t, cost, p, s, down, up, a);
    }
  }

  lemma NotInCircle(t: Task, cost: map<nat, nat>, p: Progress, s: Regs, down: nat, up: nat, a: nat)
    requires TaskOk(t, cost) && RegsOk(t, p) && Stuck(t, s) && Untouched(t, p, s) && up in Spare(t) && SameClass(up, down)
    requires Target(t, p.reg, a) == down && a in p.live
    ensures down !in s && a !in s
  {
    NoSpare(t, s, down, up);
    if a in s {
      TargetInCircle(t, s, a);
    }
    hide TaskOk, RegsOk, Stuck;
  }

  lemma NoSpare(t: Task, s: Regs, x: nat, up: nat)
    requires Stuck(t, s) && up in Spare(t) && SameClass(up, x)
    ensures x !in s
  {
    hide Spare, Targets;
  }

  lemma TargetInCircle(t: Task, s: Regs, a: nat)
    requires Stuck(t, s) && a in s
    ensures Target(t, t.reg, a) in s
  {
    hide Spare, Tight;
    assert Target(t, t.reg, a) in Targets(t, t.reg, s);
  }

  // ------------------------------------------------------------------ a standstill

  lemma {:induction false} ImageSize(t: Task, reg: map<nat, nat>, s: Regs)
    requires forall a, b :: a in s && b in s && a != b ==> Target(t, reg, a) != Target(t, reg, b)
    ensures |Targets(t, reg, s)| == |s|
    decreases |s|
  {
    if s != {} {
      var a :| a in s;
      var r := s - {a};
      ImageSize(t, reg, r);
      assert Targets(t, reg, s) == Targets(t, reg, r) + {Target(t, reg, a)};
    }
  }

  lemma SameSize(a: Regs, b: Regs)
    requires a <= b && |a| == |b|
    ensures a == b
  {
    assert b == a + (b - a);
  }

  lemma AllWanted(t: Task, p: Progress)
    requires RegsOk(t, p) && p.free * p.live == {}
    ensures p.live <= Targets(t, p.reg, p.live)
  {
    hide TargetOk, Spare;
    forall r <- p.live
      ensures r in Targets(t, p.reg, p.live)
    {
      assert r !in p.free * p.live;
      assert Wanted(t, p.reg, p.live, r);
      var a :| a in p.live && Target(t, p.reg, a) == r;
    }
  }

  lemma LiveDistinct(t: Task, p: Progress)
    requires RegsOk(t, p)
    ensures p.live <= t.live
    ensures forall a, b :: a in p.live && b in p.live && a != b ==> Target(t, p.reg, a) != Target(t, p.reg, b)
  {
    hide TargetOk, Spare, Wanted, Targets;
  }

  lemma TargetFacts(t: Task, p: Progress, rp: nat)
    requires RegsOk(t, p) && rp in p.live
    ensures SameClass(Target(t, p.reg, rp), rp)
    ensures Target(t, p.reg, rp) == Target(t, t.reg, rp) || Target(t, p.reg, rp) in Spare(t)
  {
    assert TargetOk(t, p, rp);
    hide RegsOk, Spare;
  }

  /** When no parent register is free, the values left over move in circles. */
  lemma Standstill(t: Task, p: Progress)
    requires RegsOk(t, p) && p.free * p.live == {}
    ensures Targets(t, p.reg, p.live) == p.live && p.live <= t.live
    ensures forall rp <- p.live :: StillHome(t, p, rp)
  {
    hide RegsOk, Targets, Target, SameClass;
    AllWanted(t, p);
    LiveDistinct(t, p);
    ImageSize(t, p.reg, p.live);
    SameSize(p.live, Targets(t, p.reg, p.live));
    forall rp <- p.live
      ensures StillHome(t, p, rp)
    {
      TargetFacts(t, p, rp);
      TargetMember(t, p.reg, p.live, rp);
      SpareNotLive(t, Target(t, p.reg, rp));
    }
  }

  /** The value of rp is still wanted where it was from the start, in a register of the circle. */
  ghost predicate StillHome(t: Task, p: Progress, rp: nat) {
    Target(t, p.reg, rp) in p.live && Target(t, p.reg, rp) == Target(t, t.reg, rp) && SameClass(Target(t, t.reg, rp), rp)
  }

  lemma TargetMember(t: Task, reg: map<nat, nat>, s: Regs, rp: nat)
    requires rp in s
    ensures Target(t, reg, rp) in Targets(t, reg, s)
  {
    assert rp in s && Target(t, reg, rp) == Target(t, reg, rp);
  }

  lemma SpareNotLive(t: Task, x: nat)
    ensures x in Spare(t) ==> x !in t.live && x in t.free && x in t.allow
  {
  }

  /** At a standstill every temporary from the start is still to be had. */
  lemma SpareThere(t: Task, p: Progress, x: nat)
    requires RegsOk(t, p) && p.free * p.live == {} && x in Spare(t)
    ensures x in p.free * p.allow - p.live
  {
    Standstill(t, p);
    SpareNotLive(t, x);
    NotWanted(t, p, x);
    hide Targets, Target, TargetOk, Spare, Wanted, StillHome;
  }

  lemma NotWanted(t: Task, p: Progress, x: nat)
    requires (forall rp <- p.live :: StillHome(t, p, rp)) && x !in p.live
    ensures !Wanted(t, p.reg, p.live, x)
  {
    forall a <- p.live
      ensures Target(t, p.reg, a) != x
    {
      assert StillHome(t, p, a);
    }
  }

  lemma OfClassIs(s: Regs, g: bool, x: nat)
    ensures x in OfClass(s, g) <==> x in s && InClass(x, g)
  {
  }

  lemma TargetSource(t: Task, reg: map<nat, nat>, s: Regs, r: nat) returns (a: nat)
    requires r in Targets(t, reg, s)
    ensures a in s && Target(t, reg, a) == r
  {
    a :| a in s && Target(t, reg, a) == r;
  }

  /** The registers of one class are a circle of their own. */
  lemma CircleOf(t: Task, p: Progress, g: bool, r: nat)
    requires Targets(t, p.reg, p.live) == p.live && forall rp <- p.live :: StillHome(t, p, rp)
    ensures r in Targets(t, t.reg, OfClass(p.live, g)) <==> r in OfClass(p.live, g)
  {
    hide Target, Targets, OfClass;
    var s := OfClass(p.live, g);
    OfClassIs(p.live, g, r);
    if r in s {
      var a := TargetSource(t, p.reg, p.live, r);
      assert StillHome(t, p, a);
      OfClassIs(p.live, g, a);
      TargetMember(t, t.reg, s, a);
    }
    if r in Targets(t, t.reg, s) {
      var a := TargetSource(t, t.reg, s, r);
      OfClassIs(p.live, g, a);
      assert StillHome(t, p, a);
    }
  }

  /** Without a temporary of class g the registers of that class left over were a circle from the start. */
  lemma StuckHere(t: Task, p: Progress, g: bool)
    requires RegsOk(t, p) && p.free * p.live == {}
    requires OfClass(p.live, g) != {} && OfClass(p.free * p.allow - p.live, g) == {}
    ensures Stuck(t, OfClass(p.live, g))
  {
    hide RegsOk, Spare, Targets, Target, StillHome, SameClass, InClass, OfClass;
    Standstill(t, p);
    var s := OfClass(p.live, g);
    forall x <- Spare(t)
      ensures !InClass(x, g)
    {
      SpareThere(t, p, x);
      OfClassIs(p.free * p.allow - p.live, g, x);
    }
    forall r <- s
      ensures r in t.live && InClass(r, g)
    {
      OfClassIs(p.live, g, r);
    }
    forall r
      ensures r in Targets(t, t.reg, s) <==> r in s
    {
      CircleOf(t, p, g, r);
    }
    assert Tight(t, s, g);
  }

  // ------------------------------------------------------------------ the algorithm

  lemma ShuffleStart(t: Task, cost: map<nat, nat>)
    requires TaskOk(t, cost)
    ensures var p := Progress(t.live, t.free, t.allow, t.reg, cost);
      RegsOk(t, p) && CodeOk(t, p, []) && CirclesOk(t, p)
  {
    var p := Progress(t.live, t.free, t.allow, t.reg, cost);
    assert t.live - p.live == {};
    forall s | Stuck(t, s)
      ensures Untouched(t, p, s)
    {
      forall r <- s
        ensures r !in t.free
      {
        assert r in Targets(t, t.reg, s);
        var a :| a in s && Target(t, t.reg, a) == r;
        assert a in t.live;
      }
    }
    forall r <- Spare(t)
      ensures r in p.free
    {
    }
  }

  lemma ShuffleEnd(t: Task, p: Progress, code: seq<Move>)
    requires CodeOk(t, p, code) && CirclesOk(t, p) && p.live == {}
    ensures Shuffles(t, code) && forall s :: !Stuck(t, s)
  {
    hide Stuck, Leaves;
    forall file: map<nat, int>, rp | rp in t.live
      ensures Rd(Exec(code, file), Target(t, t.reg, rp)) == Rd(file, rp)
    {
      assert Suits(t, p, file, file);
      assert Delivers(t, Exec(code, file), file);
    }
    forall s
      ensures !Stuck(t, s)
    {
      StuckLives(t, s);
      assert Stuck(t, s) ==> Untouched(t, p, s);
    }
  }

  lemma StuckLives(t: Task, s: Regs)
    ensures Stuck(t, s) ==> s != {}
  {
  }

  /** All that the shuffle keeps. */
  ghost predicate Ready(t: Task, cost0: map<nat, nat>, p: Progress, code: seq<Move>) {
    TaskOk(t, cost0) && RegsOk(t, p) && CodeOk(t, p, code) && CirclesOk(t, p)
  }

  lemma StepMove(t: Task, cost0: map<nat, nat>, p: Progress, code: seq<Move>, rp: nat)
    requires Ready(t, cost0, p, code) && rp in p.live && rp in p.free
    ensures rp in t.sload && t.sload[rp] in p.reg
    ensures Ready(t, cost0, Moved(t, p, rp), [Move(Target(t, p.reg, rp), rp)] + code)
  {
    hide TaskOk, RegsOk, CodeOk, CirclesOk, Moved;
    MoveRegs(t, cost0, p, rp);
    MoveCode(t, cost0, p, code, rp);
    MoveCircles(t, cost0, p, rp);
    TargetHere(t, p, rp);
  }

  lemma TargetHere(t: Task, p: Progress, rp: nat)
    requires RegsOk(t, p) && rp in p.live
    ensures rp in t.sload && t.sload[rp] in p.reg
  {
    OnlyLive(t, p, rp);
    hide TargetOk, Wanted;
  }

  lemma StepRename(t: Task, cost0: map<nat, nat>, p: Progress, code: seq<Move>, down: nat, up: nat)
    requires Ready(t, cost0, p, code) && down in p.live && down !in p.free
    requires up in p.free && up !in p.live && up in p.allow && SameClass(up, down)
    ensures down in p.cost && Ready(t, cost0, Renamed(p, down, up), [Move(down, up)] + code)
  {
    hide TaskOk, RegsOk, CodeOk, CirclesOk, Renamed, SameClass;
    RegBound(t, cost0, p, up);
    var a := OwnerOf(t, cost0, p, down);
    RenameRegs(t, cost0, p, down, up);
    RenameCode(t, cost0, p, code, down, up);
    RenameCircles(t, cost0, p, down, up);
  }

  lemma RegBound(t: Task, cost: map<nat, nat>, p: Progress, r: nat)
    requires TaskOk(t, cost) && RegsOk(t, p) && (r in p.live || r in p.free)
    ensures r < MAX_REG
  {
    hide Targets, TargetOk, Wanted, Spare;
    if r in p.live {
      OnlyLive(t, p, r);
      assert r in t.live + t.free;
    } else if r in Targets(t, t.reg, t.live) {
      var a := TargetSource(t, t.reg, t.live, r);
      assert Placed(t, t.reg, cost, a);
    } else {
      assert r in t.live + t.free;
    }
  }

  /** A non-empty set of registers has a lowest one. */
  lemma HasBot(t: Task, cost0: map<nat, nat>, p: Progress, code: seq<Move>, s: Regs)
    requires Ready(t, cost0, p, code) && s != {} && s <= p.live + p.free
    ensures exists j :: j in s && 0 <= j < MAX_REG
  {
    var r :| r in s;
    assert r in p.live + p.free;
    RegBound(t, cost0, p, r);
  }

  lemma ClassSplit(live: Regs, free: Regs)
    requires live != {} && free * live == {}
    ensures OfClass(live, true) != {} || OfClass(live, false) != {}
    ensures OfClass(live, true) * free == {} && OfClass(live, false) * free == {}
  {
    var r :| r in live;
    assert r in OfClass(live, true) || r in OfClass(live, false);
  }

  lemma ClassWithin(s: Regs, u: Regs, g: bool)
    requires s <= u
    ensures OfClass(s, g) <= u
  {
  }

  /** What renaming down to up does to the sets. */
  lemma BreakSets(live: Regs, free: Regs, allow: Regs, g: bool, down: nat, up: nat)
    requires down in OfClass(live, g) && up in OfClass(free * allow - live, g) && OfClass(live, g) * free == {}
    ensures down in live && down !in free && up in free && up !in live && up in allow && SameClass(up, down)
    ensures var free' := free + {down} - {up};
      && free' * live != {}
      && OfClass(free' * allow - live, !g) == OfClass(free * allow - live, !g)
      && (OfClass(live, !g) * free == {} ==> OfClass(live, !g) * free' == {})
  {
    assert down !in OfClass(live, g) * free;
    assert down in (free + {down} - {up}) * live;
    assert forall x :: InClass(x, !g) <==> !InClass(x, g);
  }

  lemma StuckNow(t: Task, cost0: map<nat, nat>, p: Progress, code: seq<Move>, g: bool)
    requires Ready(t, cost0, p, code) && p.free * p.live == {}
    requires OfClass(p.live, g) != {} && OfClass(p.free * p.allow - p.live, g) == {}
    ensures exists s :: Stuck(t, s)
  {
    StuckHere(t, p, g);
    hide RegsOk;
  }

  class Assembler {
    var freeset: Regs
    var reg: map<nat, nat>
    var cost: map<nat, nat>
    var code: seq<Move>

    /** emit_movrr: code grows towards the front. */
    method EmitMovrr(dst: nat, src: nat)
      modifies this`code
      ensures code == [Move(dst, src)] + old(code)
    {
      code := [Move(dst, src)] + code;
    }

    /** ra_rename */
    method Rename(down: nat, up: nat)
      requires down in cost
      modifies this
      ensures freeset == old(freeset) + {down} - {up} && cost == old(cost)[up := old(cost)[down]]
      ensures reg == old(reg)[old(cost)[down] := up] && code == [Move(down, up)] + old(code)
    {
      cost := cost[up := cost[down]];
      var ref := cost[up];
      reg := reg[ref := up];
      freeset := freeset + {down};
      freeset := freeset - {up};
      EmitMovrr(down, up);
    }

    ghost function Now(live: Regs, allow: Regs): Progress
      reads this
    {
      Progress(live, freeset, allow, reg, cost)
    }

    /** Moves every live register that is free to its target. */
    method Coalesce(live0: Regs, allow0: Regs, sload: map<nat, nat>, ghost t: Task, ghost cost0: map<nat, nat>, ghost head0: seq<Move>, ghost tail: seq<Move>)
      returns (live: Regs, allow: Regs, ghost head: seq<Move>)
      requires Ready(t, cost0, Now(live0, allow0), head0) && sload == t.sload && code == head0 + tail
      modifies this
      ensures Ready(t, cost0, Now(live, allow), head) && freeset * live == {}
      ensures code == head + tail
      ensures live <= live0 && (old(freeset) * live0 != {} ==> live < live0)
    {
      hide Ready, Target;
      live, allow, head := live0, allow0, head0;
      while freeset * live != {}
        invariant Ready(t, cost0, Now(live, allow), head)
        invariant code == head + tail
        invariant live <= live0 && (live == live0 ==> freeset == old(freeset))
        decreases |live|
      {
        var work := freeset * live;
        HasBot(t, cost0, Now(live, allow), head, work);
        var rp := PickBot(work, 0);
        StepMove(t, cost0, Now(live, allow), head, rp);
        TargetIs(t, reg, rp);
        var r := reg[sload[rp]];
        live := live - {rp};
        allow := allow - {rp};
        freeset := freeset + {r};
        EmitMovrr(r, rp);
        head := [Move(r, rp)] + head;
      }
    }

    /** Breaks a cycle among the registers of class g by renaming one target to a temporary. */
    method BreakCycle(live: Regs, allow: Regs, g: bool, ghost t: Task, ghost cost0: map<nat, nat>, ghost head0: seq<Move>, ghost tail: seq<Move>)
      returns (ok: bool, ghost head: seq<Move>)
      requires code == head0 + tail && Ready(t, cost0, Now(live, allow), head0) && OfClass(live, g) != {} && OfClass(live, g) * freeset == {}
      modifies this
      ensures ok <==> OfClass(old(freeset) * allow - live, g) != {}
      ensures Ready(t, cost0, Now(live, allow), head)
      ensures code == head + tail
      ensures ok ==> freeset * live != {}
      ensures OfClass(freeset * allow - live, !g) == OfClass(old(freeset) * allow - live, !g)
      ensures OfClass(live, !g) * old(freeset) == {} ==> OfClass(live, !g) * freeset == {}
    {
      hide Ready, OfClass, SameClass;
      head := head0;
      var tmpset := OfClass(freeset * allow - live, g);
      if tmpset == {} {
        return false, head0;
      }
      ClassWithin(live, live + freeset, g);
      ClassWithin(freeset * allow - live, live + freeset, g);
      HasBot(t, cost0, Now(live, allow), head0, OfClass(live, g));
      HasBot(t, cost0, Now(live, allow), head0, tmpset);
      var down, up := PickBot(OfClass(live, g), 0), PickBot(tmpset, 0);
      BreakSets(live, freeset, allow, g, down, up);
      StepRename(t, cost0, Now(live, allow), head0, down, up);
      Rename(down, up);
      head := [Move(down, up)] + head0;
      ok := true;
    }

    /** The shuffle loop of asm_head_side: the moves emitted do what was asked, and it
        fails exactly if some values move in a circle and no temporary can break it. */
    method Shuffle(live0: Regs, allow0: Regs, sload: map<nat, nat>) returns (ok: bool, ghost head: seq<Move>)
      requires TaskOk(Task(live0, freeset, allow0, sload, reg), cost)
      modifies this
      ensures code == head + old(code)
      ensures ok ==> Shuffles(old(Task(live0, freeset, allow0, sload, reg)), head)
      ensures ok <==> forall s :: !Stuck(old(Task(live0, freeset, allow0, sload, reg)), s)
    {
      hide TaskOk, RegsOk, CodeOk, CirclesOk, Shuffles, Stuck, OfClass;
      ghost var t, cost0 := Task(live0, freeset, allow0, sload, reg), cost;
      var live, allow := live0, allow0;
      head, ok := [], true;
      ShuffleStart(t, cost);
      assert code == head + old(code);
      while true
        invariant Ready(t, cost0, Now(live, allow), head) && code == head + old(code) && ok
        decreases live, freeset * live == {}
      {
        live, allow, head := Coalesce(live, allow, sload, t, cost0, head, old(code));
        if live == {} {
          break;
        }
        ghost var p, h := Now(live, allow), head;
        ClassSplit(live, freeset);
        if OfClass(live, true) != {} {
          ok, head := BreakCycle(live, allow, true, t, cost0, head, old(code));
          if !ok {
            StuckNow(t, cost0, p, h, true);
            return;
          }
        }
        if OfClass(live, false) != {} {
          ok, head := BreakCycle(live, allow, false, t, cost0, head, old(code));
          if !ok {
            StuckNow(t, cost0, p, h, false);
            return;
          }
        }
      }
      ShuffleEnd(t, Now(live, allow), head);
    }
  }

  lemma TargetIs(t: Task, reg: map<nat, nat>, rp: nat)
    requires rp in t.sload && t.sload[rp] in reg
    ensures Target(t, reg, rp) == reg[t.sload[rp]]
  {
  }

  /** Two values that change places. */
  function Exchange(spare: Regs): Task {
    Task({0, 1}, spare, spare, map[0 := 40, 1 := 41], map[40 := 1, 41 := 0])
  }

  lemma ExchangeOk(spare: Regs)
    requires forall r <- spare :: r == 2
    ensures TaskOk(Exchange(spare), map[0 := 41, 1 := 40])
  {
    var t := Exchange(spare);
    assert Target(t, t.reg, 0) == 1 && Target(t, t.reg, 1) == 0;
    assert Wanted(t, t.reg, t.live, 0) && Wanted(t, t.reg, t.live, 1);
  }

  lemma ExchangeTargets(spare: Regs)
    ensures var t := Exchange(spare); Targets(t, t.reg, {0, 1}) == {0, 1}
  {
    var t := Exchange(spare);
    assert Target(t, t.reg, 0) == 1 && Target(t, t.reg, 1) == 0;
  }

  /** They need a temporary, and one is enough. */
  lemma ExchangeNeedsSpare(s: Regs)
    ensures Stuck(Exchange({}), {0, 1}) && !Stuck(Exchange({2}), s)
  {
    hide Targets, Exchange, Target, Spare, Stuck;
    ExchangeTargets({});
    ExchangeSpare();
    StuckIf(Exchange({}));
    StuckNot(Exchange({2}), s);
  }

  lemma ExchangeSpare()
    ensures Spare(Exchange({})) == {} && 2 in Spare(Exchange({2}))
    ensures Exchange({}).live == {0, 1} == Exchange({2}).live && Exchange({}).reg == map[40 := 1, 41 := 0]
  {
  }

  lemma StuckIf(t: Task)
    requires t.live == {0, 1} && Targets(t, t.reg, {0, 1}) == {0, 1} && Spare(t) == {}
    ensures Stuck(t, {0, 1})
  {
    hide Targets, Spare;
    assert Tight(t, {0, 1}, true);
  }

  lemma StuckNot(t: Task, s: Regs)
    requires t.live == {0, 1} && 2 in Spare(t)
    ensures !Stuck(t, s)
  {
    hide Targets, Spare;
    assert InClass(2, true);
    if s != {} && s <= {0, 1} {
      var r :| r in s;
      assert !InClass(r, false);
    }
  }
}
