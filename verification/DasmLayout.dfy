// Final offsets: what pass 2 decides and what follows for branches
// (luajit/dynasm/dasm_x86.h).

module DasmLayout {
  import opened DasmOps

  /** The bytes that bring offset at to the next multiple of mask + 1. The mask of an
      align action is 2**n - 1, so that & mask is % (mask + 1). */
  function Pad(at: int, mask: nat): nat { if at % (mask + 1) == 0 then 0 else mask + 1 - at % (mask + 1) }

  /** The bytes that a step emits at offset at; a branch that shrinks by 4 also takes
      back the byte in front of it. */
  function FinSize(t: Step, at: int, shrink: nat): int {
    if IsRel(t.op) then 4 - shrink
    else if t.op.Align? then Pad(at, t.op.mask)
    else MaxSize(t.op, t.n)
  }

  /** The estimate of pass 1 for the offset of step k when nothing is shrunk. */
  function Worst(all: seq<Step>, k: nat): nat
    requires k <= |all|
  {
    if k == 0 then 0 else Worst(all, k - 1) + MaxSize(all[k - 1].op, all[k - 1].n)
  }

  /** fin are the final offsets of the first |shr| steps, given what each branch shrinks by. */
  ghost predicate FinOk(all: seq<Step>, fin: seq<int>, shr: seq<nat>) {
    && |fin| == |shr| + 1 && |shr| <= |all| && fin[0] == 0
    && (forall k :: 0 <= k < |shr| ==> shr[k] <= 4 && (shr[k] > 0 ==> IsRel(all[k].op)))
    && (forall k :: 0 <= k < |shr| ==> fin[k + 1] == fin[k] + FinSize(all[k], fin[k], shr[k]))
  }

  lemma PadBound(at: int, mask: nat)
    ensures 0 <= Pad(at, mask) <= mask && (at + Pad(at, mask)) % (mask + 1) == 0
  {
    var m := mask + 1;
    if at % m != 0 {
      assert at == m * (at / m) + at % m;
      assert at + Pad(at, mask) == m * (at / m + 1) by { MulNext(m, at / m); }
      MulMod(m, at / m + 1);
    }
  }

  lemma MulNext(m: int, q: int)
    ensures m * (q + 1) == m * q + m
  {
  }

  lemma MulMod(m: nat, q: int)
    requires m > 0
    ensures (m * q) % m == 0
  {
    SmallMod(m * q, m, q, 0);
  }

  lemma MulMono(m: nat, a: int, b: int)
    requires a <= b
    ensures m * a <= m * b
  {
    assert m * (b - a) >= 0;
  }

  /** What pass 2 subtracts for an alignment leaves just the padding. */
  lemma AlignShrinks(at: nat, mask: nat)
    ensures mask - (at + mask) % (mask + 1) == Pad(at, mask)
  {
    var m := mask + 1;
    var q, r := at / m, at % m;
    if r == 0 {
      SmallMod(at + mask, m, q, mask);
    } else {
      MulNext(m, q);
      SmallMod(at + mask, m, q + 1, r - 1);
    }
  }

  lemma SmallMod(x: int, m: nat, q: int, r: nat)
    requires m > 0 && r < m && x == m * q + r
    ensures x % m == r
  {
    var s, p := x % m, x / m;
    assert x == m * p + s && 0 <= s < m;
    if q > p {
      MulMono(m, p + 1, q);
      MulNext(m, p);
    } else if q < p {
      MulMono(m, q + 1, p);
      MulNext(m, q);
    }
  }

  /** One byte of padding brings the offset one nearer to the boundary. */
  lemma PadStep(at: nat, mask: nat)
    requires at % (mask + 1) != 0
    ensures Pad(at + 1, mask) == Pad(at, mask) - 1
  {
    var m := mask + 1;
    var q, r := at / m, at % m;
    if r == mask {
      MulNext(m, q);
      SmallMod(at + 1, m, q + 1, 0);
    } else {
      SmallMod(at + 1, m, q, r + 1);
    }
  }

  lemma SizeShrinks(t: Step, at: int, shrink: nat)
    requires shrink <= 4
    ensures 0 <= FinSize(t, at, shrink) <= MaxSize(t.op, t.n)
  {
    if t.op.Align? {
      PadBound(at, t.op.mask);
    }
  }

  /** Distances only shrink from pass 1 to the final layout. */
  lemma {:induction false} DistanceShrinks(all: seq<Step>, fin: seq<int>, shr: seq<nat>, i: nat, j: nat)
    requires FinOk(all, fin, shr) && i <= j <= |shr|
    ensures 0 <= fin[j] - fin[i] <= Worst(all, j) - Worst(all, i)
    decreases j
  {
    if i < j {
      DistanceShrinks(all, fin, shr, i, j - 1);
      SizeShrinks(all[j - 1], fin[j - 1], shr[j - 1]);
      hide MaxSize, FinSize;
    }
  }

  // ----------------------------------------------------------- branch relaxation

  /** What the branch at step k could shrink by. */
  function Candidate(all: seq<Step>, k: nat): nat
    requires k < |all|
  {
    if k == 0 then 0 else ShrinkOf(LastByte(all[k - 1].op))
  }

  /** The distance that pass 2 looks at: from the end of the long branch k to label j,
      estimated if the label is still to come. */
  function Distance(all: seq<Step>, fin: seq<int>, k: nat, j: nat): int
    requires k < |all| && j < |all| && k < |fin| && (j > k || j < |fin|)
  {
    if j > k then Worst(all, j) - Worst(all, k + 1) else fin[j] - (fin[k] + 4)
  }

  predicate ShortOk(dist: int, s: nat) { -128 - s <= dist <= 127 }

  /** The decision of pass 2 for branch k with label j. */
  predicate Decided(all: seq<Step>, fin: seq<int>, shr: seq<nat>, k: nat, j: nat)
    requires k < |shr| <= |all| && |fin| == |shr| + 1 && j < |all|
  {
    shr[k] == if Candidate(all, k) > 0 && ShortOk(Distance(all, fin, k, j), Candidate(all, k)) then Candidate(all, k) else 0
  }

  /** Relaxation is sound: the displacement of a shortened branch fits a byte. For a
      backward branch it is also complete: it is shortened whenever it would fit. */
  lemma RelaxationSound(all: seq<Step>, fin: seq<int>, shr: seq<nat>, k: nat, j: nat)
    requires FinOk(all, fin, shr) && |shr| == |all| && k < |all| && j < |all| && j != k && IsRel(all[k].op) && IsLabel(all[j].op)
    requires Decided(all, fin, shr, k, j)
    ensures shr[k] > 0 ==> Small(fin[j] - fin[k + 1])
    ensures j < k && Candidate(all, k) > 0 ==> (shr[k] > 0 <==> Small(fin[j] - (fin[k] + 4 - Candidate(all, k))))
  {
    assert fin[k + 1] == fin[k] + FinSize(all[k], fin[k], shr[k]);
    if j > k {
      DistanceShrinks(all, fin, shr, k + 1, j);
    } else {
      DistanceShrinks(all, fin, shr, j, k);
    }
    hide FinOk, Worst;
  }

  // --------------------------------------------------------------- all sections

  /** The sections of a trace one behind the other. */
  function Flat(tr: seq<seq<Step>>): seq<Step> {
    if tr == [] then [] else Flat(tr[..|tr| - 1]) + tr[|tr| - 1]
  }

  /** The pass-1 size of a section. */
  function Ofs(t: seq<Step>): nat { if t == [] then 0 else EndEst(t[|t| - 1]) }

  function SumOfs(tr: seq<seq<Step>>): nat {
    if tr == [] then 0 else SumOfs(tr[..|tr| - 1]) + Ofs(tr[|tr| - 1])
  }

  /** The end of a section in the buffer. */
  function PosAfter(t: seq<Step>, pos0: nat): nat { if t == [] then pos0 else EndPos(t[|t| - 1]) }

  ghost predicate SectionsOk(list: seq<Op>, tr: seq<seq<Step>>) {
    forall s :: 0 <= s < |tr| ==> TraceOk(list, tr[s], s * SEC, PosAfter(tr[s], s * SEC), Ofs(tr[s])) && PosAfter(tr[s], s * SEC) < s * SEC + SEC
  }

  lemma {:induction false} FlatAt(tr: seq<seq<Step>>, s: nat, i: nat)
    requires s < |tr| && i < |tr[s]|
    ensures |Flat(tr[..s])| + i < |Flat(tr)| && Flat(tr)[|Flat(tr[..s])| + i] == tr[s][i]
    decreases |tr|
  {
    if s < |tr| - 1 {
      assert tr[..|tr| - 1][..s] == tr[..s];
      FlatAt(tr[..|tr| - 1], s, i);
    }
  }

  /** Every step of the flat trace stands somewhere in a section. */
  lemma {:induction false} FlatFrom(tr: seq<seq<Step>>, k: nat) returns (s: nat, i: nat)
    requires k < |Flat(tr)|
    ensures s < |tr| && i < |tr[s]| && k == |Flat(tr[..s])| + i && Flat(tr)[k] == tr[s][i]
    decreases |tr|
  {
    var n := |tr| - 1;
    if k < |Flat(tr[..n])| {
      s, i := FlatFrom(tr[..n], k);
      assert tr[..n][..s] == tr[..s];
    } else {
      s, i := n, k - |Flat(tr[..n])|;
    }
  }

  lemma {:induction false} WorstPrefix(a: seq<Step>, b: seq<Step>, k: nat)
    requires k <= |a|
    ensures Worst(a + b, k) == Worst(a, k)
  {
    if k > 0 {
      WorstPrefix(a, b, k - 1);
    }
  }

  lemma {:induction false} WorstInSection(list: seq<Op>, a: seq<Step>, t: seq<Step>, pos0: nat, pos: nat, ofs: nat, i: nat)
    requires TraceOk(list, t, pos0, pos, ofs) && i <= |t|
    ensures Worst(a + t, |a| + i) == Worst(a, |a|) + if i < |t| then t[i].est else ofs
    decreases i
  {
    if i == 0 {
      WorstPrefix(a, t, |a|);
    } else {
      WorstInSection(list, a, t, pos0, pos, ofs, i - 1);
      if i < |t| {
        assert Follows(t[i - 1], t[i]);
      }
      hide TraceOk, MaxSize;
    }
  }

  /** The estimate of a step is that of its section plus the sections before. */
  lemma {:induction false} WorstAt(list: seq<Op>, tr: seq<seq<Step>>, s: nat, i: nat)
    requires SectionsOk(list, tr) && s < |tr| && i <= |tr[s]|
    ensures |Flat(tr[..s])| + i <= |Flat(tr)|
    ensures Worst(Flat(tr), |Flat(tr[..s])| + i) == SumOfs(tr[..s]) + if i < |tr[s]| then tr[s][i].est else Ofs(tr[s])
    decreases |tr|
  {
    hide TraceOk;
    var n := |tr| - 1;
    if s == n {
      WorstInSection(list, Flat(tr[..n]), tr[n], n * SEC, PosAfter(tr[n], n * SEC), Ofs(tr[n]), i);
      WorstAll(list, tr[..n]);
    } else {
      assert tr[..n][..s] == tr[..s];
      WorstAt(list, tr[..n], s, i);
      WorstPrefix(Flat(tr[..n]), tr[n], |Flat(tr[..s])| + i);
    }
  }

  lemma {:induction false} WorstAll(list: seq<Op>, tr: seq<seq<Step>>)
    requires SectionsOk(list, tr)
    ensures Worst(Flat(tr), |Flat(tr)|) == SumOfs(tr)
    decreases |tr|
  {
    hide TraceOk;
    if tr != [] {
      var n := |tr| - 1;
      WorstAll(list, tr[..n]);
      WorstInSection(list, Flat(tr[..n]), tr[n], n * SEC, PosAfter(tr[n], n * SEC), Ofs(tr[n]), |tr[n]|);
    }
  }

  // ------------------------------------------------------------------ positions

  /** Buffer slots follow each other in step order. */
  ghost predicate Ordered(all: seq<Step>) { forall i, j :: 0 <= i < j < |all| ==> EndPos(all[i]) <= all[j].pos }

  lemma {:induction false} SectionOrdered(list: seq<Op>, t: seq<Step>, pos0: nat, pos: nat, ofs: nat, i: nat, j: nat)
    requires TraceOk(list, t, pos0, pos, ofs) && i < |t| && i < j <= |t|
    ensures EndPos(t[i]) <= if j < |t| then t[j].pos else pos
    decreases j
  {
    if i + 1 < j {
      SectionOrdered(list, t, pos0, pos, ofs, i, j - 1);
      if j < |t| {
        assert Follows(t[j - 1], t[j]);
      }
    } else if j < |t| {
      assert Follows(t[i], t[j]);
    }
    hide TraceOk;
  }

  lemma InSection(list: seq<Op>, tr: seq<seq<Step>>, s: nat, i: nat)
    requires SectionsOk(list, tr) && s < |tr| && i < |tr[s]|
    ensures s * SEC <= tr[s][i].pos && EndPos(tr[s][i]) < s * SEC + SEC && SecOf(tr[s][i].pos) == s
  {
    var t := tr[s];
    assert TraceOk(list, t, s * SEC, PosAfter(t, s * SEC), Ofs(t));
    SectionOrdered(list, t, s * SEC, PosAfter(t, s * SEC), Ofs(t), i, |t|);
    if i > 0 {
      SectionOrdered(list, t, s * SEC, PosAfter(t, s * SEC), Ofs(t), 0, i);
    }
    hide TraceOk;
    QuotientIs(t[i].pos, s);
  }

  lemma QuotientIs(x: int, s: nat)
    requires s * SEC <= x < s * SEC + SEC
    ensures x / SEC == s
  {
  }

  lemma FlatOrdered(list: seq<Op>, tr: seq<seq<Step>>)
    requires SectionsOk(list, tr)
    ensures Ordered(Flat(tr))
  {
    var all := Flat(tr);
    forall i, j | 0 <= i < j < |all|
      ensures EndPos(all[i]) <= all[j].pos
    {
      PairOrdered(list, tr, i, j);
    }
  }

  lemma PairOrdered(list: seq<Op>, tr: seq<seq<Step>>, i: nat, j: nat)
    requires SectionsOk(list, tr) && i < j < |Flat(tr)|
    ensures EndPos(Flat(tr)[i]) <= Flat(tr)[j].pos
  {
    var si, ii := FlatFrom(tr, i);
    var sj, ij := FlatFrom(tr, j);
    if si == sj {
      assert TraceOk(list, tr[si], si * SEC, PosAfter(tr[si], si * SEC), Ofs(tr[si]));
      hide TraceOk;
      SectionOrdered(list, tr[si], si * SEC, PosAfter(tr[si], si * SEC), Ofs(tr[si]), ii, ij);
    } else {
      hide TraceOk;
      InSection(list, tr, si, ii);
      InSection(list, tr, sj, ij);
      FlatMono(tr, si, ii, sj, ij);
    }
  }

  lemma FlatMono(tr: seq<seq<Step>>, si: nat, ii: nat, sj: nat, ij: nat)
    requires si < |tr| && ii < |tr[si]| && sj < |tr| && ij < |tr[sj]| && si != sj
    requires |Flat(tr[..si])| + ii < |Flat(tr[..sj])| + ij
    ensures si < sj && si * SEC + SEC <= sj * SEC
  {
    if sj < si {
      assert tr[..si][..sj] == tr[..sj];
      PrefixLonger(tr[..si], sj, ij);
    }
  }

  lemma PrefixLonger(tr: seq<seq<Step>>, s: nat, i: nat)
    requires s < |tr| && i < |tr[s]|
    ensures |Flat(tr[..s])| + i < |Flat(tr)|
  {
    FlatAt(tr, s, i);
  }
}
