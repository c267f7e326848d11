// Passes 2 and 3 step by step: what linking writes into the section buffers and
// which bytes encoding emits from them (luajit/dynasm/dasm_x86.h).

module DasmPass {
  import opened DasmOps
  import opened DasmLabels
  import opened DasmLayout
  import opened DasmRecord

  // ------------------------------------------------------------------- linking

  /** The words of a step before linking. */
  ghost predicate Recd(b: map<int, int>, t: Step) {
    && ((t.op.Begin? || HasArg(t.op)) ==> Rd(b, t.pos) == t.n)
    && (IsLabel(t.op) ==> Rd(b, t.pos) == t.est)
    && (t.op.Align? ==> Rd(b, t.pos) == t.est + t.op.mask)
    && (IsRel(t.op) ==> Rd(b, t.pos + 1) == t.est + 4)
  }

  /** And after: labels hold their final offset f, branches what they shrink by. */
  ghost predicate Fixed(b: map<int, int>, t: Step, f: int, s: nat) {
    && ((t.op.Begin? || HasArg(t.op)) ==> Rd(b, t.pos) == t.n)
    && (IsLabel(t.op) ==> Rd(b, t.pos) == f)
    && (IsRel(t.op) ==> Rd(b, t.pos + 1) == s)
  }

  ghost predicate TargetIs(b: map<int, int>, all: seq<Step>, k: nat, j: int)
    requires k < |all|
  {
    0 <= j < |all| && IsLabel(all[j].op) && all[j].pos == Rd(b, all[k].pos)
  }

  /** A reference holds a label's position, or minus the number of an outside global. */
  ghost predicate RefOk(b: map<int, int>, all: seq<Step>, k: nat)
    requires k < |all|
  {
    Rd(b, all[k].pos) <= -10 || (Rd(b, all[k].pos) >= 0 && exists j :: TargetIs(b, all, k, j))
  }

  /** Pass 2 decided about branch k by the rule, for the label it refers to. */
  ghost predicate BranchDecided(b: map<int, int>, all: seq<Step>, fin: seq<int>, shr: seq<nat>, k: nat)
    requires k < |shr| <= |all| && |fin| == |shr| + 1
  {
    if Rd(b, all[k].pos) < 0 then shr[k] == 0 else exists j :: TargetIs(b, all, k, j) && Decided(all, fin, shr, k, j)
  }

  /** The buffers b, with the first |shr| steps linked; b0 is how they were before. */
  ghost predicate LinkMid(b0: map<int, int>, b: map<int, int>, all: seq<Step>, fin: seq<int>, shr: seq<nat>) {
    && FinOk(all, fin, shr)
    && (forall m :: 0 <= m < |shr| ==> Fixed(b, all[m], fin[m], shr[m]))
    && (forall m :: |shr| <= m < |all| ==> Recd(b, all[m]))
    && (forall m :: 0 <= m < |all| && IsRef(all[m].op) ==> Rd(b, all[m].pos) == Rd(b0, all[m].pos))
    && (forall m :: 0 <= m < |shr| && IsRel(all[m].op) ==> BranchDecided(b0, all, fin, shr, m))
  }

  /** What pass 2 writes for a step. */
  function LinkWrite(b: map<int, int>, t: Step, f: int, s: nat): map<int, int> {
    if IsRel(t.op) then b[t.pos + 1 := s] else if IsLabel(t.op) then b[t.pos := f] else b
  }

  lemma LinkWriteElse(b: map<int, int>, t: Step, f: int, s: nat, x: nat)
    requires x < t.pos || EndPos(t) <= x
    ensures Rd(LinkWrite(b, t, f, s), x) == Rd(b, x)
  {
  }

  lemma FixedKept(b: map<int, int>, t: Step, f: int, s: nat, u: Step, g: int, r: nat)
    requires Fixed(b, t, f, s) && EndPos(t) <= u.pos
    ensures Fixed(LinkWrite(b, u, g, r), t, f, s)
  {
    if Slots(t.op) > 0 {
      LinkWriteElse(b, u, g, r, t.pos);
    }
    if IsRel(t.op) {
      LinkWriteElse(b, u, g, r, t.pos + 1);
    }
  }

  lemma RecdKept(b: map<int, int>, t: Step, u: Step, g: int, r: nat)
    requires Recd(b, t) && EndPos(u) <= t.pos
    ensures Recd(LinkWrite(b, u, g, r), t)
  {
    LinkWriteElse(b, u, g, r, t.pos);
    LinkWriteElse(b, u, g, r, t.pos + 1);
  }

  lemma RefKept(b: map<int, int>, t: Step, u: Step, g: int, r: nat)
    requires IsRef(t.op) && (t == u || EndPos(u) <= t.pos || EndPos(t) <= u.pos)
    ensures Rd(LinkWrite(b, u, g, r), t.pos) == Rd(b, t.pos)
  {
  }

  lemma DecidedKept(b: map<int, int>, all: seq<Step>, fin: seq<int>, shr: seq<nat>, k: nat, f: int, s: nat)
    requires k < |shr| < |all| && |fin| == |shr| + 1 && BranchDecided(b, all, fin, shr, k)
    ensures BranchDecided(b, all, fin + [f], shr + [s], k)
  {
    if Rd(b, all[k].pos) >= 0 {
      var j :| TargetIs(b, all, k, j) && Decided(all, fin, shr, k, j);
      assert Decided(all, fin + [f], shr + [s], k, j);
    }
  }

  lemma FinNext(all: seq<Step>, fin: seq<int>, shr: seq<nat>, s: nat)
    requires FinOk(all, fin, shr) && |shr| < |all| && s <= 4 && (s > 0 ==> IsRel(all[|shr|].op))
    ensures FinOk(all, fin + [fin[|shr|] + FinSize(all[|shr|], fin[|shr|], s)], shr + [s])
  {
  }

  /** Linking one more step. */
  lemma LinkStep(b0: map<int, int>, b: map<int, int>, all: seq<Step>, fin: seq<int>, shr: seq<nat>, s: nat, f: int)
    requires LinkMid(b0, b, all, fin, shr) && |shr| < |all| && Ordered(all)
    requires s <= 4 && (s > 0 ==> IsRel(all[|shr|].op)) && f == fin[|shr|] + FinSize(all[|shr|], fin[|shr|], s)
    requires IsRel(all[|shr|].op) ==> BranchDecided(b0, all, fin + [f], shr + [s], |shr|)
    ensures LinkMid(b0, LinkWrite(b, all[|shr|], fin[|shr|], s), all, fin + [f], shr + [s])
  {
    hide FinSize, LinkWrite, Fixed, Recd, BranchDecided;
    var k := |shr|;
    var t := all[k];
    var b', fin', shr' := LinkWrite(b, t, fin[k], s), fin + [f], shr + [s];
    FinNext(all, fin, shr, s);
    forall m | 0 <= m < |shr'|
      ensures Fixed(b', all[m], fin'[m], shr'[m])
    {
      if m < k {
        FixedKept(b, all[m], fin[m], shr[m], t, fin[k], s);
      } else {
        FixedHere(b, t, fin[k], s);
      }
    }
    forall m | |shr'| <= m < |all|
      ensures Recd(b', all[m])
    {
      RecdKept(b, all[m], t, fin[k], s);
    }
    forall m | 0 <= m < |all| && IsRef(all[m].op)
      ensures Rd(b', all[m].pos) == Rd(b0, all[m].pos)
    {
      RefKept(b, all[m], t, fin[k], s);
    }
    forall m | 0 <= m < |shr'| && IsRel(all[m].op)
      ensures BranchDecided(b0, all, fin', shr', m)
    {
      if m < k {
        DecidedKept(b0, all, fin, shr, m, f, s);
      }
    }
    hide Ordered, FinOk;
  }

  lemma FixedHere(b: map<int, int>, t: Step, f: int, s: nat)
    requires Recd(b, t)
    ensures Fixed(LinkWrite(b, t, f, s), t, f, s)
  {
  }

  /** Later labels stand behind a branch in the buffer, earlier ones before it. */
  lemma LabelSide(all: seq<Step>, k: nat, j: nat)
    requires Ordered(all) && k < |all| && j < |all| && IsRel(all[k].op) && IsLabel(all[j].op)
    ensures j != k && (all[j].pos > all[k].pos <==> j > k)
  {
    if j < k {
      assert EndPos(all[j]) <= all[k].pos;
    }
    if j > k {
      assert EndPos(all[k]) <= all[j].pos;
    }
  }

  // ------------------------------------------------------------------ encoding

  /** The w low bytes of n, least significant first. */
  function LE(n: int, w: nat): (r: seq<int>)
    ensures |r| == w && forall x <- r :: 0 <= x < 256
    decreases w
  {
    if w == 0 then [] else [n % 256] + LE(n / 256, w - 1)
  }

  /** The bytes of a branch: a shortened one replaces the opcode in front of it. */
  function BranchOut(out: seq<int>, n: int, s: nat): seq<int>
    requires |out| >= 2 || s == 0 || (s != 4 && |out| >= 1)
  {
    if s == 0 then out + LE(n, 4)
    else if s == 4 then out[..|out| - 2] + [(out[|out| - 1] - 0x10) % 256] + LE(n, 1)
    else out[..|out| - 1] + [0xeb] + LE(n, 1)
  }

  /** The opcode byte of a shortened branch. */
  function ShortOp(all: seq<Step>, k: nat, s: nat): int
    requires 0 < k < |all|
  {
    if s == 4 then (LastByte(all[k - 1].op) - 0x10) % 256 else 0xeb
  }

  /** Raw byte m was taken back by a shortened branch before step k. */
  predicate Patched(shr: seq<nat>, m: nat, k: nat)
    requires k <= |shr|
  {
    (m + 1 < k && shr[m + 1] > 0) || (m + 2 < k && shr[m + 2] == 4)
  }

  /** The n bytes of a step that is no branch, with the value v. */
  function StepBytes(t: Step, v: int, n: nat): seq<int> {
    if IsByte(t.op) then [t.op.v]
    else if t.op.Space? then Fill(t.op.fill, n)
    else if t.op.Align? then Fill(0x90, n)
    else LE(v, n)
  }

  /** Step m, emitted with value v, as it stands in the output of the first k steps. */
  ghost predicate EmittedAt(out: seq<int>, all: seq<Step>, fin: seq<int>, shr: seq<nat>, v: int, m: nat, k: nat)
    requires m < k <= |all| == |shr| && |fin| == |all| + 1
  {
    var op := all[m].op;
    && 0 <= fin[m] && 0 <= fin[m + 1] <= |out|
    && if IsRel(op) && shr[m] > 0 then
         m > 0 && fin[m + 1] >= 2 && out[fin[m + 1] - 2] == ShortOp(all, m, shr[m]) && out[fin[m + 1] - 1] == v % 256
       else if IsByte(op) then
         fin[m] < |out| && (Patched(shr, m, k) || out[fin[m]] == op.v)
       else
         fin[m] <= fin[m + 1]
         && out[fin[m]..fin[m + 1]] == StepBytes(all[m], v, fin[m + 1] - fin[m])
  }

  function Fill(x: int, n: nat): (r: seq<int>)
    ensures |r| == n && forall i :: 0 <= i < n ==> r[i] == x
  {
    seq(n, _ => x)
  }

  /** The output after k steps: each stands where the layout puts it. */
  ghost predicate EncMid(out: seq<int>, all: seq<Step>, fin: seq<int>, shr: seq<nat>, vals: seq<int>) {
    && FinOk(all, fin, shr) && |shr| == |all| && |vals| <= |all|
    && |out| == fin[|vals|]
    && forall m :: 0 <= m < |vals| ==> EmittedAt(out, all, fin, shr, vals[m], m, |vals|)
  }

  lemma EmittedAppend(out: seq<int>, all: seq<Step>, fin: seq<int>, shr: seq<nat>, v: int, m: nat, k: nat, s: seq<int>)
    requires m < k < |all| == |shr| && |fin| == |all| + 1 && EmittedAt(out, all, fin, shr, v, m, k)
    ensures EmittedAt(out + s, all, fin, shr, v, m, k + 1)
  {
    var out' := out + s;
    assert forall i :: 0 <= i < |out| ==> out'[i] == out[i];
    if fin[m] <= fin[m + 1] {
      assert out'[fin[m]..fin[m + 1]] == out[fin[m]..fin[m + 1]];
    }
  }

  /** A step other than a shortened branch appends its bytes. */
  lemma EncAppend(out: seq<int>, all: seq<Step>, fin: seq<int>, shr: seq<nat>, vals: seq<int>, v: int, s: seq<int>)
    requires EncMid(out, all, fin, shr, vals) && |vals| < |all| && shr[|vals|] == 0
    requires var t := all[|vals|];
      && |s| == FinSize(t, |out|, 0)
      && s == StepBytes(t, v, |s|)
    ensures EncMid(out + s, all, fin, shr, vals + [v])
  {
    hide FinSize;
    var k := |vals|;
    forall m | 0 <= m < k + 1
      ensures EmittedAt(out + s, all, fin, shr, (vals + [v])[m], m, k + 1)
    {
      if m < k {
        EmittedAppend(out, all, fin, shr, vals[m], m, k, s);
      } else {
        HereAppend(out, all, fin, shr, v, k, s);
      }
    }
    hide EmittedAt;
  }

  lemma HereAppend(out: seq<int>, all: seq<Step>, fin: seq<int>, shr: seq<nat>, v: int, k: nat, s: seq<int>)
    requires k < |all| == |shr| && |fin| == |all| + 1 && shr[k] == 0 && fin[k] == |out| && fin[k + 1] == |out| + |s|
    requires s == StepBytes(all[k], v, |s|)
    ensures EmittedAt(out + s, all, fin, shr, v, k, k + 1)
  {
    var out' := out + s;
    assert out'[fin[k]..fin[k + 1]] == s;
    if IsByte(all[k].op) {
      assert out'[|out|] == s[0];
    }
  }

  /** The raw bytes in front of a branch are the last ones in the output. */
  lemma BytesBefore(out: seq<int>, all: seq<Step>, fin: seq<int>, shr: seq<nat>, vals: seq<int>, k: nat)
    requires EncMid(out, all, fin, shr, vals) && k == |vals| < |all| && k >= 1 && IsByte(all[k - 1].op)
    ensures |out| >= 1 && fin[k - 1] == |out| - 1 && out[|out| - 1] == all[k - 1].op.v
    ensures k >= 2 && IsByte(all[k - 2].op) ==> |out| >= 2 && fin[k - 2] == |out| - 2
  {
    assert fin[k] == fin[k - 1] + FinSize(all[k - 1], fin[k - 1], shr[k - 1]);
    assert EmittedAt(out, all, fin, shr, vals[k - 1], k - 1, k);
    if k >= 2 {
      assert EmittedAt(out, all, fin, shr, vals[k - 2], k - 2, k);
      assert fin[k - 1] == fin[k - 2] + FinSize(all[k - 2], fin[k - 2], shr[k - 2]);
    }
  }

  /** Earlier steps do not reach into the bytes that a shortened branch replaces. */
  lemma EmittedKept(out: seq<int>, all: seq<Step>, fin: seq<int>, shr: seq<nat>, v: int, m: nat, k: nat, out': seq<int>, n: nat)
    requires m < k < |all| == |shr| && |fin| == |all| + 1 && EmittedAt(out, all, fin, shr, v, m, k)
    requires n <= |out| <= |out'| && out'[..n] == out[..n]
    requires fin[m + 1] <= n || (IsByte(all[m].op) && Patched(shr, m, k + 1))
    requires fin[m] <= fin[m + 1] || IsRel(all[m].op)
    requires IsByte(all[m].op) ==> fin[m + 1] == fin[m] + 1
    ensures EmittedAt(out', all, fin, shr, v, m, k + 1)
  {
    assert forall i :: 0 <= i < n ==> out'[i] == out[i] by {
      assert forall i :: 0 <= i < n ==> out'[..n][i] == out'[i] && out[..n][i] == out[i];
    }
    if fin[m] <= fin[m + 1] <= n {
      assert out'[fin[m]..fin[m + 1]] == out[fin[m]..fin[m + 1]];
    }
  }

  lemma EarlierEnds(all: seq<Step>, fin: seq<int>, shr: seq<nat>, m: nat, k: nat)
    requires FinOk(all, fin, shr) && m < k <= |shr|
    ensures fin[m] <= fin[m + 1] <= fin[k] && (IsByte(all[m].op) ==> fin[m + 1] == fin[m] + 1)
  {
    DistanceShrinks(all, fin, shr, m, m + 1);
    DistanceShrinks(all, fin, shr, m + 1, k);
    assert fin[m + 1] == fin[m] + FinSize(all[m], fin[m], shr[m]);
    hide FinOk;
  }

  /** A shortened branch. */
  lemma EncBranch(out: seq<int>, all: seq<Step>, fin: seq<int>, shr: seq<nat>, vals: seq<int>, v: int)
    requires EncMid(out, all, fin, shr, vals) && |vals| < |all|
    requires var k := |vals|;
      && (shr[k] == 3 || shr[k] == 4) && k >= 1 && IsByte(all[k - 1].op) && IsRel(all[k].op)
      && (shr[k] == 4 ==> k >= 2 && all[k - 2].op == Byte(0x0f))
    ensures |out| >= 1 && (shr[|vals|] == 4 ==> |out| >= 2)
    ensures EncMid(BranchOut(out, v, shr[|vals|]), all, fin, shr, vals + [v])
  {
    var k := |vals|;
    var s := shr[k];
    BytesBefore(out, all, fin, shr, vals, k);
    var n := |out| - if s == 4 then 2 else 1;
    var out' := BranchOut(out, v, s);
    assert out'[..n] == out[..n];
    assert fin[k + 1] == fin[k] + 4 - s == |out'|;
    forall m | 0 <= m < k + 1
      ensures EmittedAt(out', all, fin, shr, (vals + [v])[m], m, k + 1)
    {
      if m < k {
        EarlierEnds(all, fin, shr, m, k);
        assert Patched(shr, k - 1, k + 1) && (s == 4 ==> Patched(shr, k - 2, k + 1));
        if m < k - 1 {
          EarlierEnds(all, fin, shr, m, k - 1);
        }
        if m + 1 < k - 1 {
          EarlierEnds(all, fin, shr, m, k - 2);
        }
        hide Patched, BranchOut, FinOk;
        EmittedKept(out, all, fin, shr, vals[m], m, k, out', n);
      } else {
        BranchHere(out, all, fin, shr, v, k);
      }
    }
    hide EmittedAt, BranchOut;
  }

  lemma BranchHere(out: seq<int>, all: seq<Step>, fin: seq<int>, shr: seq<nat>, v: int, k: nat)
    requires k < |all| == |shr| && |fin| == |all| + 1 && fin[k] == |out| && fin[k + 1] == |out| + 4 - shr[k]
    requires IsRel(all[k].op) && (shr[k] == 3 || shr[k] == 4) && k >= 1 && |out| >= 1 && (shr[k] == 4 ==> |out| >= 2)
    requires IsByte(all[k - 1].op) && out[|out| - 1] == all[k - 1].op.v
    ensures EmittedAt(BranchOut(out, v, shr[k]), all, fin, shr, v, k, k + 1)
  {
    assert LE(v, 1)[0] == v % 256;
  }

  // -------------------------------------------------------------- emitted values

  /** The global label addresses after k steps were encoded. */
  function GlobalsAfter(g: map<int, int>, all: seq<Step>, fin: seq<int>, base: int, k: nat): map<int, int>
    requires k <= |all| < |fin|
  {
    if k == 0 then g
    else
      var h := GlobalsAfter(g, all, fin, base, k - 1);
      if all[k - 1].op.LabelLG? && all[k - 1].op.n >= 10 then h[all[k - 1].op.n := base + fin[k - 1]] else h
  }

  /** The number that pass 3 emits for a step at offset at: an argument, a displacement
      from the end of the instruction, or an address. */
  function ValueAt(b: map<int, int>, g: map<int, int>, base: int, t: Step, at: int, shrink: nat): int {
    var v := Rd(b, t.pos);
    if t.op.RelA? then t.n - (base + at + 4)
    else if HasArg(t.op) then t.n
    else if IsRel(t.op) then if t.op.RelLG? && v < 0 then Rd(g, -v) - (base + at + 4) else Rd(b, v) - (at + 4 - shrink)
    else if IsRef(t.op) then if t.op.ImmLG? && v < 0 then Rd(g, -v) else Rd(b, v) + base
    else 0
  }

  /** Linking is complete: b holds the final offsets fin and what each branch shrinks by. */
  ghost predicate LinkedAll(b: map<int, int>, all: seq<Step>, fin: seq<int>, shr: seq<nat>) {
    && FinOk(all, fin, shr) && |shr| == |all| && Ordered(all)
    && (forall m :: 0 <= m < |all| ==> Fixed(b, all[m], fin[m], shr[m]))
    && (forall m :: 0 <= m < |all| && IsRel(all[m].op) ==> BranchDecided(b, all, fin, shr, m))
    && (forall m :: 0 <= m < |all| && IsRef(all[m].op) ==> RefOk(b, all, m))
  }

  lemma LinkDone(b0: map<int, int>, b: map<int, int>, all: seq<Step>, fin: seq<int>, shr: seq<nat>)
    requires LinkMid(b0, b, all, fin, shr) && |shr| == |all| && Ordered(all)
    requires forall m :: 0 <= m < |all| && IsRef(all[m].op) ==> RefOk(b0, all, m)
    ensures LinkedAll(b, all, fin, shr)
  {
    assert |fin| == |all| + 1;
    hide FinOk, Ordered, Fixed, Decided;
    forall m | 0 <= m < |all| && IsRef(all[m].op)
      ensures RefOk(b, all, m)
    {
      assert RefOk(b0, all, m);
      if Rd(b0, all[m].pos) >= 0 {
        var j :| TargetIs(b0, all, m, j);
        assert TargetIs(b, all, m, j);
      }
    }
    forall m | 0 <= m < |all| && IsRel(all[m].op)
      ensures BranchDecided(b, all, fin, shr, m)
    {
      assert BranchDecided(b0, all, fin, shr, m);
      if Rd(b0, all[m].pos) >= 0 {
        var j :| TargetIs(b0, all, m, j) && Decided(all, fin, shr, m, j);
        assert TargetIs(b, all, m, j);
      }
    }
  }

  lemma ShortBranchFits(b: map<int, int>, all: seq<Step>, fin: seq<int>, shr: seq<nat>, k: nat, j: nat)
    requires LinkedAll(b, all, fin, shr) && k < |all| && IsRel(all[k].op) && TargetIs(b, all, k, j)
    ensures Decided(all, fin, shr, k, j)
    ensures shr[k] > 0 ==> Small(fin[j] - fin[k + 1])
  {
    assert BranchDecided(b, all, fin, shr, k);
    hide FinOk, Ordered, Fixed, RefOk, Decided;
    var i :| TargetIs(b, all, k, i) && Decided(all, fin, shr, k, i);
    OneLabel(b, all, k, i, j);
    LabelSide(all, k, j);
    RelaxationSound(all, fin, shr, k, j);
  }

  /** A branch to a label gets the distance from its own end, as finally laid out, to
      the label; and if the branch was shortened, that distance fits a byte. */
  lemma BranchValue(b: map<int, int>, g: map<int, int>, base: int, all: seq<Step>, fin: seq<int>, shr: seq<nat>, k: nat, j: nat)
    requires LinkedAll(b, all, fin, shr) && k < |all| && IsRel(all[k].op) && TargetIs(b, all, k, j)
    ensures ValueAt(b, g, base, all[k], fin[k], shr[k]) == fin[j] - fin[k + 1]
    ensures shr[k] > 0 ==> Small(fin[j] - fin[k + 1])
  {
    ShortBranchFits(b, all, fin, shr, k, j);
    assert Fixed(b, all[j], fin[j], shr[j]);
    assert fin[k + 1] == fin[k] + FinSize(all[k], fin[k], shr[k]);
    hide FinOk, Ordered, RefOk, BranchDecided, LinkedAll;
  }

  lemma SlotsApart(all: seq<Step>, i: nat, j: nat)
    requires Ordered(all) && i < |all| && j < |all| && i != j && Slots(all[i].op) > 0 && Slots(all[j].op) > 0
    ensures all[i].pos != all[j].pos
  {
    var x, y := if i < j then i else j, if i < j then j else i;
    assert EndPos(all[x]) <= all[y].pos;
  }

  lemma OneLabel(b: map<int, int>, all: seq<Step>, k: nat, i: nat, j: nat)
    requires Ordered(all) && k < |all| && TargetIs(b, all, k, i) && TargetIs(b, all, k, j)
    ensures i == j
  {
    if i != j {
      SlotsApart(all, i, j);
    }
  }

  /** Pass 3 after |vals| steps. */
  ghost predicate Coding(b: map<int, int>, g0: map<int, int>, g: map<int, int>, base: int, all: seq<Step>, fin: seq<int>,
                         shr: seq<nat>, out: seq<int>, vals: seq<int>) {
    && LinkedAll(b, all, fin, shr) && EncMid(out, all, fin, shr, vals)
    && g == GlobalsAfter(g0, all, fin, base, |vals|)
    && forall m :: 0 <= m < |vals| ==> ValueOk(b, g0, base, all, fin, shr, vals[m], m)
  }

  /** v is the number that pass 3 works out for step m. */
  ghost predicate ValueOk(b: map<int, int>, g0: map<int, int>, base: int, all: seq<Step>, fin: seq<int>, shr: seq<nat>, v: int, m: nat)
    requires m < |all| == |shr| && |fin| == |all| + 1
  {
    v == ValueAt(b, GlobalsAfter(g0, all, fin, base, m), base, all[m], fin[m], shr[m])
  }

  /** What pass 3 reads at step k = |vals|. */
  lemma CodingReads(b: map<int, int>, g0: map<int, int>, g: map<int, int>, base: int, all: seq<Step>, fin: seq<int>,
                    shr: seq<nat>, out: seq<int>, vals: seq<int>)
    requires Coding(b, g0, g, base, all, fin, shr, out, vals) && |vals| < |all|
    ensures |fin| == |all| + 1 && |shr| == |all|
    ensures var k := |vals|;
      && |out| == fin[k] && fin[k + 1] == fin[k] + FinSize(all[k], fin[k], shr[k])
      && Fixed(b, all[k], fin[k], shr[k])
      && (!IsRel(all[k].op) ==> shr[k] == 0)
      && (IsRel(all[k].op) ==> (shr[k] == 0 || (shr[k] == Candidate(all, k) && Rd(b, all[k].pos) >= 0)))
  {
    var k := |vals|;
    assert Fixed(b, all[k], fin[k], shr[k]);
    if IsRel(all[k].op) {
      assert BranchDecided(b, all, fin, shr, k);
    }
    hide Ordered, RefOk, Fixed, FinSize, ValueOk, EmittedAt, Candidate;
  }

  /** One step is encoded: its bytes and, for a global label, its address. */
  lemma CodingNext(b: map<int, int>, g0: map<int, int>, g: map<int, int>, base: int, all: seq<Step>, fin: seq<int>,
                   shr: seq<nat>, out: seq<int>, vals: seq<int>, out': seq<int>, g': map<int, int>, v: int)
    requires Coding(b, g0, g, base, all, fin, shr, out, vals) && |vals| < |all| && |fin| == |all| + 1 && |shr| == |all|
    requires EncMid(out', all, fin, shr, vals + [v])
    requires v == ValueAt(b, g, base, all[|vals|], fin[|vals|], shr[|vals|])
    requires var t := all[|vals|];
      g' == if t.op.LabelLG? && t.op.n >= 10 then g[t.op.n := base + fin[|vals|]] else g
    ensures Coding(b, g0, g', base, all, fin, shr, out', vals + [v])
  {
    hide LinkedAll, EncMid;
  }

  /** Encoding is complete when all steps are. */
  lemma CodingStart(b: map<int, int>, g: map<int, int>, base: int, all: seq<Step>, fin: seq<int>, shr: seq<nat>)
    requires LinkedAll(b, all, fin, shr)
    ensures Coding(b, g, g, base, all, fin, shr, [], [])
  {
  }

  /** What a branch to a label looks like in the finished code: the displacement from the
      end of the instruction to where the label's code starts, in four bytes or in one. */
  lemma BranchBytes(b: map<int, int>, g0: map<int, int>, g: map<int, int>, base: int, all: seq<Step>, fin: seq<int>,
                    shr: seq<nat>, code: seq<int>, vals: seq<int>, k: nat, j: nat)
    requires Coding(b, g0, g, base, all, fin, shr, code, vals) && |vals| == |all|
    requires k < |all| && IsRel(all[k].op) && TargetIs(b, all, k, j)
    ensures |fin| == |all| + 1 == |shr| + 1 && j < |all| && 0 <= fin[k + 1] <= |code|
    ensures shr[k] == 0 ==> fin[k] == fin[k + 1] - 4 >= 0 && code[fin[k]..fin[k + 1]] == LE(fin[j] - fin[k + 1], 4)
    ensures shr[k] > 0 ==> k > 0 && fin[k + 1] >= 2 && code[fin[k + 1] - 2] == ShortOp(all, k, shr[k])
    ensures shr[k] > 0 ==> Small(fin[j] - fin[k + 1]) && code[fin[k + 1] - 1] == (fin[j] - fin[k + 1]) % 256
  {
    hide Coding, LinkedAll, ValueAt, GlobalsAfter, LE, ShortOp, TargetIs;
    CodedLinked(b, g0, g, base, all, fin, shr, code, vals, k, j);
    BranchValue(b, GlobalsAfter(g0, all, fin, base, k), base, all, fin, shr, k, j);
    EmittedFacts(b, g0, g, base, all, fin, shr, code, vals, k);
  }

  lemma CodedLinked(b: map<int, int>, g0: map<int, int>, g: map<int, int>, base: int, all: seq<Step>, fin: seq<int>,
                    shr: seq<nat>, code: seq<int>, vals: seq<int>, k: nat, j: int)
    requires Coding(b, g0, g, base, all, fin, shr, code, vals) && k < |all| && TargetIs(b, all, k, j)
    ensures LinkedAll(b, all, fin, shr) && 0 <= j < |all| && |fin| == |all| + 1 == |shr| + 1
  {
    hide Fixed, RefOk, BranchDecided, EncMid, ValueOk;
  }

  lemma EmittedFacts(b: map<int, int>, g0: map<int, int>, g: map<int, int>, base: int, all: seq<Step>, fin: seq<int>,
                     shr: seq<nat>, code: seq<int>, vals: seq<int>, k: nat)
    requires Coding(b, g0, g, base, all, fin, shr, code, vals) && |vals| == |all| && k < |all|
    ensures |fin| == |all| + 1 == |shr| + 1 && EmittedAt(code, all, fin, shr, vals[k], k, |all|)
    ensures vals[k] == ValueAt(b, GlobalsAfter(g0, all, fin, base, k), base, all[k], fin[k], shr[k])
    ensures fin[k + 1] == fin[k] + FinSize(all[k], fin[k], shr[k])
  {
    hide LinkedAll, EmittedAt, ValueAt, FinSize;
    assert ValueOk(b, g0, base, all, fin, shr, vals[k], k);
  }
}
