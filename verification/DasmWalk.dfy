// Walking the sections in pass 2 and 3: where a step stands among all steps, and
// the distances that pass 2 computes (luajit/dynasm/dasm_x86.h).

module DasmWalk {
  import opened DasmOps
  import opened DasmLabels
  import opened DasmLayout
  import opened DasmRecord
  import opened DasmPass

  /** Index of the first step of section s among all steps. */
  function First(tr: seq<seq<Step>>, s: nat): nat
    requires s <= |tr|
  {
    |Flat(tr[..s])|
  }

  lemma FirstNext(tr: seq<seq<Step>>, s: nat)
    requires s < |tr|
    ensures First(tr, s + 1) == First(tr, s) + |tr[s]|
    ensures First(tr, 0) == 0 && First(tr, |tr|) == |Flat(tr)|
  {
    assert tr[..s + 1][..s] == tr[..s];
    assert tr[..|tr|] == tr;
  }

  /** The sum of pass-1 section sizes from section a up to z. */
  function SumFrom(ofs: seq<nat>, a: nat, z: nat): nat
    requires z <= |ofs|
  {
    if a >= z then 0 else SumFrom(ofs, a, z - 1) + ofs[z - 1]
  }

  lemma {:induction false} SumSplit(tr: seq<seq<Step>>, ofs: seq<nat>, a: nat, z: nat)
    requires a <= z <= |tr| == |ofs| && forall i :: 0 <= i < |tr| ==> ofs[i] == Ofs(tr[i])
    ensures SumOfs(tr[..z]) == SumOfs(tr[..a]) + SumFrom(ofs, a, z)
    decreases z
  {
    if a < z {
      SumSplit(tr, ofs, a, z - 1);
      assert tr[..z][..z - 1] == tr[..z - 1];
    }
  }

  /** The distance that pass 2 works out for a forward branch. */
  lemma ForwardDistance(list: seq<Op>, tr: seq<seq<Step>>, ofs: seq<nat>, s: nat, i: nat, k: nat, j: nat, pos: nat)
    requires SectionsOk(list, tr) && s < |tr| == |ofs| && i < |tr[s]| && k == First(tr, s) + i
    requires forall q :: 0 <= q < |tr| ==> ofs[q] == Ofs(tr[q])
    requires k < j < |Flat(tr)| && Flat(tr)[j].pos == pos && IsRel(tr[s][i].op) && k < |Flat(tr)|
    ensures s <= SecOf(pos) < |ofs|
    ensures Worst(Flat(tr), j) - Worst(Flat(tr), k + 1) == Flat(tr)[j].est + SumFrom(ofs, s, SecOf(pos)) - (tr[s][i].est + 4)
  {
    hide TraceOk, Worst, SumFrom, SumOfs, Ofs;
    var sj, ij := FlatFrom(tr, j);
    InSection(list, tr, sj, ij);
    WorstAt(list, tr, sj, ij);
    WorstAt(list, tr, s, i);
    FlatAt(tr, s, i);
    WorstStep(Flat(tr), k);
    SectionBefore(tr, s, i, sj, ij);
    SumSplit(tr, ofs, s, sj);
  }

  lemma WorstStep(all: seq<Step>, k: nat)
    requires k < |all|
    ensures Worst(all, k + 1) == Worst(all, k) + MaxSize(all[k].op, all[k].n)
  {
  }

  lemma SectionBefore(tr: seq<seq<Step>>, s: nat, i: nat, sj: nat, ij: nat)
    requires s < |tr| && i < |tr[s]| && sj < |tr| && ij < |tr[sj]|
    requires |Flat(tr[..s])| + i < |Flat(tr[..sj])| + ij
    ensures s <= sj
  {
    if sj < s {
      assert tr[..s][..sj] == tr[..sj];
      PrefixLonger(tr[..s], sj, ij);
    }
  }

  /** A step, its neighbours in the section and among all steps. */
  lemma StepAt(list: seq<Op>, tr: seq<seq<Step>>, s: nat, i: nat, k: nat)
    requires SectionsOk(list, tr) && s < |tr| && i < |tr[s]| && k == First(tr, s) + i
    ensures k < |Flat(tr)| && Flat(tr)[k] == tr[s][i] && StepOk(list, tr[s][i])
    ensures i == 0 ==> tr[s][i].op.Begin? && tr[s][i].pos == s * SEC && tr[s][i].est == 0
    ensures i + 1 < |tr[s]| ==> Follows(tr[s][i], tr[s][i + 1]) && !(i + 1 < |tr[s]| && Ends(tr[s][i].op) && !tr[s][i + 1].op.Begin?)
    ensures i + 1 == |tr[s]| ==> Ends(tr[s][i].op) && EndPos(tr[s][i]) == PosAfter(tr[s], s * SEC) && EndEst(tr[s][i]) == Ofs(tr[s])
    ensures EndPos(tr[s][i]) <= PosAfter(tr[s], s * SEC)
    ensures tr[s][i].op.Begin? ==> tr[s][i].pos < PosAfter(tr[s], s * SEC)
  {
    FlatAt(tr, s, i);
    var t := tr[s];
    assert TraceOk(list, t, s * SEC, PosAfter(t, s * SEC), Ofs(t));
    SectionOrdered(list, t, s * SEC, PosAfter(t, s * SEC), Ofs(t), i, |t|);
    hide SectionsOk;
  }

  lemma BranchFacts(list: seq<Op>, t: seq<Step>, pos0: nat, pos: nat, ofs: nat, i: nat)
    requires TraceOk(list, t, pos0, pos, ofs) && i < |t| && IsRel(t[i].op)
    ensures i >= 1 && BranchAfter(t, i) && StepOk(list, t[i])
    ensures 0 < t[i].p < |list| && t[i - 1].op == list[t[i].p - 1]
  {
    hide LastByte, ShrinkOf;
    assert BranchAfter(t, i);
    assert Follows(t[i - 1], t[i]) && StepOk(list, t[i - 1]);
    hide TraceOk;
  }

  /** The byte in front of branch k, as the passes find it in the action list. */
  lemma BranchAt(list: seq<Op>, tr: seq<seq<Step>>, s: nat, i: nat, k: nat)
    requires SectionsOk(list, tr) && s < |tr| && i < |tr[s]| && k == First(tr, s) + i && IsRel(tr[s][i].op)
    ensures 0 < k < |Flat(tr)| && 0 < tr[s][i].p <= |list|
    ensures Candidate(Flat(tr), k) == ShrinkOf(LastByte(list[tr[s][i].p - 1]))
    ensures Candidate(Flat(tr), k) > 0 ==> IsByte(Flat(tr)[k - 1].op)
    ensures Candidate(Flat(tr), k) == 4 ==> k >= 2 && Flat(tr)[k - 2].op == Byte(0x0f)
  {
    hide TraceOk, Flat, LastByte;
    var t := tr[s];
    assert TraceOk(list, t, s * SEC, PosAfter(t, s * SEC), Ofs(t));
    hide SectionsOk;
    BranchFacts(list, t, s * SEC, PosAfter(t, s * SEC), Ofs(t), i);
    FlatAt(tr, s, i);
    FlatAt(tr, s, i - 1);
    if i >= 2 {
      FlatAt(tr, s, i - 2);
    }
  }

  lemma FindTarget(b: map<int, int>, all: seq<Step>, k: nat) returns (j: nat)
    requires k < |all| && RefOk(b, all, k) && Rd(b, all[k].pos) >= 0
    ensures j < |all| && TargetIs(b, all, k, j)
  {
    j :| TargetIs(b, all, k, j);
  }

  /** The sections are complete, and where the positions and offsets say. */
  ghost predicate Placed(list: seq<Op>, tr: seq<seq<Step>>, secPos: seq<nat>, secOfs: seq<nat>) {
    && SectionsOk(list, tr) && |tr| == |secPos| == |secOfs| && Ordered(Flat(tr))
    && (forall q :: 0 <= q < |tr| ==> secPos[q] == PosAfter(tr[q], q * SEC) && secOfs[q] == Ofs(tr[q]))
  }

  /** All that pass 2 keeps while it walks: the sections, and what is linked so far. */
  ghost predicate Linking(list: seq<Op>, tr: seq<seq<Step>>, secPos: seq<nat>, secOfs: seq<nat>,
                          b0: map<int, int>, b: map<int, int>, fin: seq<int>, shr: seq<nat>) {
    && Placed(list, tr, secPos, secOfs)
    && (forall m :: 0 <= m < |Flat(tr)| && IsRef(Flat(tr)[m].op) ==> RefOk(b0, Flat(tr), m))
    && LinkMid(b0, b, Flat(tr), fin, shr)
  }

  /** Pass 2 stands at step i of section s with the shift ofs. */
  ghost predicate Cursor(tr: seq<seq<Step>>, fin: seq<int>, shr: seq<nat>, s: nat, i: nat, pos: nat, ofs: int) {
    && s < |tr| && i < |tr[s]| && |shr| == First(tr, s) + i && |fin| == |shr| + 1
    && pos == tr[s][i].pos && ofs + tr[s][i].est == fin[|shr|]
  }

  /** What pass 2 reads at a step. */
  lemma LinkReads(list: seq<Op>, tr: seq<seq<Step>>, secPos: seq<nat>, secOfs: seq<nat>,
                  b0: map<int, int>, b: map<int, int>, fin: seq<int>, shr: seq<nat>, s: nat, i: nat, pos: nat, ofs: int)
    requires Linking(list, tr, secPos, secOfs, b0, b, fin, shr) && Cursor(tr, fin, shr, s, i, pos, ofs)
    ensures Recd(b, tr[s][i]) && |shr| < |Flat(tr)| && Flat(tr)[|shr|] == tr[s][i] && fin[|shr|] >= 0
    ensures IsRef(tr[s][i].op) ==> Rd(b, pos) == Rd(b0, pos) && RefOk(b0, Flat(tr), |shr|)
  {
    StepAt(list, tr, s, i, |shr|);
    DistanceShrinks(Flat(tr), fin, shr, 0, |shr|);
    assert Recd(b, Flat(tr)[|shr|]);
    hide SectionsOk, Ordered, FinOk, Recd, Fixed, BranchDecided, RefOk;
  }

  /** The value of a label slot, as pass 2 finds it: fixed if it was passed, else estimated. */
  lemma LabelReads(list: seq<Op>, tr: seq<seq<Step>>, secPos: seq<nat>, secOfs: seq<nat>,
                   b0: map<int, int>, b: map<int, int>, fin: seq<int>, shr: seq<nat>, k: nat, j: nat)
    requires Linking(list, tr, secPos, secOfs, b0, b, fin, shr) && k == |shr| < |Flat(tr)| && j < |Flat(tr)|
    requires IsRel(Flat(tr)[k].op) && IsLabel(Flat(tr)[j].op)
    ensures j != k && (Flat(tr)[j].pos > Flat(tr)[k].pos <==> j > k)
    ensures |fin| == k + 1 && Rd(b, Flat(tr)[j].pos) == if j > k then Flat(tr)[j].est else fin[j]
  {
    LabelSide(Flat(tr), k, j);
    assert if j > k then Recd(b, Flat(tr)[j]) else Fixed(b, Flat(tr)[j], fin[j], shr[j]);
    hide SectionsOk, Ordered, BranchDecided, RefOk;
  }

  /** The distance worked out by pass 2 decides the branch. */
  lemma BranchRule(list: seq<Op>, tr: seq<seq<Step>>, secPos: seq<nat>, secOfs: seq<nat>, b0: map<int, int>, b: map<int, int>,
                   fin: seq<int>, shr: seq<nat>, s: nat, i: nat, pos: nat, ofs: int, j: nat, lofs: int, f: int, sv: nat)
    requires Linking(list, tr, secPos, secOfs, b0, b, fin, shr) && Cursor(tr, fin, shr, s, i, pos, ofs)
    requires IsRel(tr[s][i].op) && |shr| < |Flat(tr)| && TargetIs(b0, Flat(tr), |shr|, j)
    requires var lpos := Flat(tr)[j].pos;
      lofs == Rd(b, lpos) + (if lpos > pos then (if SecOf(lpos) <= |secOfs| then SumFrom(secOfs, s, SecOf(lpos)) else 0) else -ofs)
              - (tr[s][i].est + 4)
    requires var c := Candidate(Flat(tr), |shr|); sv == if c > 0 && ShortOk(lofs, c) then c else 0
    ensures BranchDecided(b0, Flat(tr), fin + [f], shr + [sv], |shr|)
  {
    var all, k := Flat(tr), |shr|;
    StepAt(list, tr, s, i, k);
    LabelReads(list, tr, secPos, secOfs, b0, b, fin, shr, k, j);
    if j > k {
      ForwardDistance(list, tr, secOfs, s, i, k, j, all[j].pos);
    }
    hide Linking, SumFrom, Worst, Candidate, Flat, First;
    assert lofs == Distance(all, fin + [f], k, j);
    assert Decided(all, fin + [f], shr + [sv], k, j);
  }

  /** Pass 2 moves on by one step. */
  lemma LinkNext(list: seq<Op>, tr: seq<seq<Step>>, secPos: seq<nat>, secOfs: seq<nat>, b0: map<int, int>, b: map<int, int>,
                 fin: seq<int>, shr: seq<nat>, s: nat, i: nat, pos: nat, ofs: int, sv: nat, f: int, ofs': int)
    requires Linking(list, tr, secPos, secOfs, b0, b, fin, shr) && Cursor(tr, fin, shr, s, i, pos, ofs)
    requires sv <= 4 && (sv > 0 ==> IsRel(tr[s][i].op)) && f == fin[|shr|] + FinSize(tr[s][i], fin[|shr|], sv)
    requires |shr| < |Flat(tr)|
    requires IsRel(tr[s][i].op) ==> BranchDecided(b0, Flat(tr), fin + [f], shr + [sv], |shr|)
    requires ofs' + EndEst(tr[s][i]) == f
    ensures Linking(list, tr, secPos, secOfs, b0, LinkWrite(b, tr[s][i], fin[|shr|], sv), fin + [f], shr + [sv])
    ensures if i + 1 < |tr[s]| then Cursor(tr, fin + [f], shr + [sv], s, i + 1, EndPos(tr[s][i]), ofs')
            else EndPos(tr[s][i]) == secPos[s] && ofs' + secOfs[s] == f && |shr| + 1 == First(tr, s) + |tr[s]|
    ensures i + 1 < |tr[s]| ==> Follows(tr[s][i], tr[s][i + 1])
    ensures i + 1 == |tr[s]| ==> Ends(tr[s][i].op)
  {
    hide Ordered, SectionsOk, FinSize, BranchDecided, LinkWrite, LinkMid;
    StepAt(list, tr, s, i, |shr|);
    LinkStep(b0, b, Flat(tr), fin, shr, sv, f);
  }
}
