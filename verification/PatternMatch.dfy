// The backtracking matcher and its capture state (luajit/src/lib_string.c).

module PatternMatch {
  import opened PatternSpec
  import opened PatternError

  datatype Result = Fail | Found(end: nat) | Raised(error: Error)

  /** The error of a result, if it is one. */
  function FaultOf(r: Result): Fault { if r.Raised? then Fault(r.error) else NoFault }

  /** Captures as they come about while matching at position s. */
  ghost predicate CapsOk(caps: seq<Cap>, s: nat) {
    forall i :: 0 <= i < |caps| ==> caps[i].init <= s && caps[i].len >= -2 && caps[i].init + caps[i].len <= s
  }

  // ----------------------------------------------------- constructs without choice

  /** One way of going on: matching from p at s is matching from p' at s'. */
  ghost predicate SameRuns(src: Text, pat: Text, s: nat, p: nat, caps: seq<Cap>, s': nat, p': nat, caps': seq<Cap>) {
    && (forall reps :: Run(src, pat, s, p, caps, reps) == Run(src, pat, s', p', caps', reps))
    && (forall a, b :: Before(pat, p, a, b) == Before(pat, p', a, b))
  }

  lemma SameMatches(src: Text, pat: Text, s: nat, p: nat, caps: seq<Cap>, s': nat, p': nat, caps': seq<Cap>)
    requires SameRuns(src, pat, s, p, caps, s', p', caps')
    ensures NoMatch(src, pat, s, p, caps) <==> NoMatch(src, pat, s', p', caps')
    ensures forall e, c :: FirstMatch(src, pat, s, p, caps, e, c) <==> FirstMatch(src, pat, s', p', caps', e, c)
  {
    hide Run, Before;
    forall reps, o
      ensures FirstWith(src, pat, s, p, caps, reps, o) <==> FirstWith(src, pat, s', p', caps', reps, o)
    {
    }
    hide FirstWith;
  }

  lemma StartSame(src: Text, pat: Text, s: nat, p: nat, caps: seq<Cap>)
    requires At(pat, p) == OPEN && |caps| < MAXCAPTURES
    ensures At(pat, p + 1) == CLOSE ==> SameRuns(src, pat, s, p, caps, s, p + 2, caps + [Cap(s, CAP_POSITION)])
    ensures At(pat, p + 1) != CLOSE ==> SameRuns(src, pat, s, p, caps, s, p + 1, caps + [Cap(s, CAP_UNFINISHED)])
  {
  }

  lemma EndSame(src: Text, pat: Text, s: nat, p: nat, caps: seq<Cap>)
    requires At(pat, p) == CLOSE && OpenCap(caps, |caps|) >= 0
    ensures var l := OpenCap(caps, |caps|); SameRuns(src, pat, s, p, caps, s, p + 1, caps[l := Cap(caps[l].init, s - caps[l].init)])
  {
  }

  lemma BalanceSame(src: Text, pat: Text, s: nat, p: nat, caps: seq<Cap>)
    requires At(pat, p) == ESC && At(pat, p + 1) == BALANCE && At(pat, p + 2) != 0 && At(pat, p + 3) != 0
    ensures var e := BalanceEnd(src, s, At(pat, p + 2), At(pat, p + 3));
            if e == 0 then NoMatch(src, pat, s, p, caps) else SameRuns(src, pat, s, p, caps, e, p + 4, caps)
  {
  }

  lemma FrontierSame(src: Text, pat: Text, s: nat, p: nat, caps: seq<Cap>)
    requires At(pat, p) == ESC && At(pat, p + 1) == FRONTIER && At(pat, p + 2) == LBRACK && ItemEnd(pat, p + 2) != 0
    ensures var ep := ItemEnd(pat, p + 2);
            if Frontier(src, s, pat, p + 2, ep) then SameRuns(src, pat, s, p, caps, s, ep, caps) else NoMatch(src, pat, s, p, caps)
  {
  }

  lemma CaptureSame(src: Text, pat: Text, s: nat, p: nat, caps: seq<Cap>)
    requires At(pat, p) == ESC && IsDigit(At(pat, p + 1)) && CapIndex(caps, At(pat, p + 1)) >= 0
    ensures var c := caps[CapIndex(caps, At(pat, p + 1))];
            if Repeats(src, c, s) then SameRuns(src, pat, s, p, caps, s + c.len, p + 2, caps) else NoMatch(src, pat, s, p, caps)
  {
  }

  /** The pattern at p is an item: a single character class, perhaps quantified. */
  predicate IsItem(pat: Text, p: nat) {
    var c, d := At(pat, p), At(pat, p + 1);
    && c != 0 && c != OPEN && c != CLOSE && !(c == DOLLAR && d == 0)
    && !(c == ESC && (d == BALANCE || d == FRONTIER || IsDigit(d)))
  }

  lemma ItemSame(src: Text, pat: Text, s: nat, p: nat, caps: seq<Cap>)
    requires IsItem(pat, p) && ItemEnd(pat, p) != 0 && !IsQuant(At(pat, ItemEnd(pat, p)))
    ensures if s < |src| && Single(src[s], pat, p, ItemEnd(pat, p))
            then SameRuns(src, pat, s, p, caps, s + 1, ItemEnd(pat, p), caps) else NoMatch(src, pat, s, p, caps)
  {
  }

  lemma EndOfPattern(src: Text, pat: Text, s: nat, p: nat, caps: seq<Cap>)
    requires At(pat, p) == 0 || (At(pat, p) == DOLLAR && At(pat, p + 1) == 0)
    ensures if At(pat, p) == 0 || s == |src| then FirstMatch(src, pat, s, p, caps, s, caps) else NoMatch(src, pat, s, p, caps)
  {
    if At(pat, p) == 0 || s == |src| {
      assert FirstWith(src, pat, s, p, caps, [], Some(s, caps));
    }
  }

  // ------------------------------------------------------------------ repetitions

  /** The item at p is quantified by op and ends at ep. */
  ghost predicate QuantItem(pat: Text, p: nat, ep: nat, op: nat) {
    IsItem(pat, p) && ep == ItemEnd(pat, p) && ep != 0 && At(pat, ep) == op && IsQuant(op)
  }

  /** A match with k repetitions goes on behind the item. */
  lemma QuantRun(src: Text, pat: Text, s: nat, p: nat, ep: nat, op: nat, caps: seq<Cap>, reps: seq<nat>)
    requires QuantItem(pat, p, ep, op)
    ensures Run(src, pat, s, p, caps, reps)
         == if reps != [] && Allowed(op, reps[0]) && Reps(src, pat, s, p, ep, reps[0])
            then Run(src, pat, s + reps[0], ep + 1, caps, reps[1..]) else None
  {
  }

  lemma QuantBefore(pat: Text, p: nat, ep: nat, op: nat, a: seq<nat>, b: seq<nat>)
    requires QuantItem(pat, p, ep, op)
    ensures Before(pat, p, a, b)
         <==> a != [] && b != []
              && if a[0] == b[0] then Before(pat, ep + 1, a[1..], b[1..]) else if op == MINUS then a[0] < b[0] else a[0] > b[0]
  {
  }

  /** With k repetitions of the item the rest of the pattern does not match. */
  ghost predicate FailsWith(src: Text, pat: Text, s: nat, p: nat, ep: nat, op: nat, caps: seq<Cap>, k: nat) {
    !Allowed(op, k) || !Reps(src, pat, s, p, ep, k) || NoMatch(src, pat, s + k, ep + 1, caps)
  }

  /** Every number of repetitions fails. */
  lemma QuantFails(src: Text, pat: Text, s: nat, p: nat, ep: nat, op: nat, caps: seq<Cap>)
    requires QuantItem(pat, p, ep, op) && forall k: nat :: FailsWith(src, pat, s, p, ep, op, caps, k)
    ensures NoMatch(src, pat, s, p, caps)
  {
    hide Run, QuantItem, Reps, Allowed;
    forall reps
      ensures Run(src, pat, s, p, caps, reps).None?
    {
      QuantRun(src, pat, s, p, ep, op, caps, reps);
      if reps != [] {
        assert FailsWith(src, pat, s, p, ep, op, caps, reps[0]);
      }
    }
  }

  /** k repetitions match, and those that come before fail. */
  lemma QuantFirst(src: Text, pat: Text, s: nat, p: nat, ep: nat, op: nat, caps: seq<Cap>, k: nat, e: nat, caps': seq<Cap>)
    requires QuantItem(pat, p, ep, op) && Allowed(op, k) && Reps(src, pat, s, p, ep, k)
    requires FirstMatch(src, pat, s + k, ep + 1, caps, e, caps')
    requires forall j: nat :: (if op == MINUS then j < k else j > k) ==> FailsWith(src, pat, s, p, ep, op, caps, j)
    ensures FirstMatch(src, pat, s, p, caps, e, caps')
  {
    hide Run, Before, QuantItem, Reps, Allowed;
    var tail :| FirstWith(src, pat, s + k, ep + 1, caps, tail, Some(e, caps'));
    var reps := [k] + tail;
    assert reps[1..] == tail;
    QuantRun(src, pat, s, p, ep, op, caps, reps);
    forall other | Before(pat, p, other, reps)
      ensures Run(src, pat, s, p, caps, other).None?
    {
      QuantBefore(pat, p, ep, op, other, reps);
      QuantRun(src, pat, s, p, ep, op, caps, other);
      if other[0] != k {
        assert FailsWith(src, pat, s, p, ep, op, caps, other[0]);
      }
    }
    assert FirstWith(src, pat, s, p, caps, reps, Some(e, caps'));
  }

  lemma RepsZero(src: Text, pat: Text, s: nat, p: nat, ep: nat)
    requires s <= |src|
    ensures Reps(src, pat, s, p, ep, 0)
  {
  }

  lemma RepsMore(src: Text, pat: Text, s: nat, p: nat, ep: nat, k: nat)
    requires Reps(src, pat, s, p, ep, k)
    ensures s + k < |src| && Single(src[s + k], pat, p, ep) ==> Reps(src, pat, s, p, ep, k + 1)
    ensures !(s + k < |src| && Single(src[s + k], pat, p, ep)) ==> forall j: nat :: j > k ==> !Reps(src, pat, s, p, ep, j)
    ensures forall j: nat :: j < k ==> Reps(src, pat, s, p, ep, j)
  {
    hide Single;
    forall j: nat | j > k && Reps(src, pat, s, p, ep, j)
      ensures s + k < |src| && Single(src[s + k], pat, p, ep)
    {
      assert s <= s + k < s + j;
    }
  }

  lemma RepsShift(src: Text, pat: Text, s: nat, p: nat, ep: nat, k: nat)
    requires s < |src|
    ensures Reps(src, pat, s, p, ep, k + 1) <==> Single(src[s], pat, p, ep) && Reps(src, pat, s + 1, p, ep, k)
  {
    hide Single;
  }

  /** Among the repetitions from s, those in range fail. */
  ghost predicate AllFail(src: Text, pat: Text, s: nat, p: nat, ep: nat, caps: seq<Cap>, lo: nat, hi: int) {
    forall j: nat :: lo <= j && (hi < 0 || j < hi) && Reps(src, pat, s, p, ep, j) ==> NoMatch(src, pat, s + j, ep + 1, caps)
  }

  /** k repetitions from s match, and the rest of the pattern then first matches up to e. */
  ghost predicate MatchesWith(src: Text, pat: Text, s: nat, p: nat, ep: nat, caps: seq<Cap>, k: nat, e: nat, caps': seq<Cap>) {
    Reps(src, pat, s, p, ep, k) && FirstMatch(src, pat, s + k, ep + 1, caps, e, caps')
  }

  lemma StarFails(src: Text, pat: Text, s: nat, p: nat, ep: nat, op: nat, caps: seq<Cap>)
    requires QuantItem(pat, p, ep, op) && AllFail(src, pat, s, p, ep, caps, 0, -1)
    ensures NoMatch(src, pat, s, p, caps)
  {
    hide Run, Before, Reps, NoMatch, QuantItem;
    forall k: nat
      ensures FailsWith(src, pat, s, p, ep, op, caps, k)
    {
    }
    hide AllFail;
    QuantFails(src, pat, s, p, ep, op, caps);
  }

  lemma StarFirst(src: Text, pat: Text, s: nat, p: nat, ep: nat, op: nat, caps: seq<Cap>, k: nat, e: nat, caps': seq<Cap>)
    requires QuantItem(pat, p, ep, op) && Allowed(op, k) && MatchesWith(src, pat, s, p, ep, caps, k, e, caps')
    requires if op == MINUS then AllFail(src, pat, s, p, ep, caps, 0, k) else AllFail(src, pat, s, p, ep, caps, k + 1, -1)
    ensures FirstMatch(src, pat, s, p, caps, e, caps')
  {
    hide Run, Before, Reps, NoMatch, FirstMatch, QuantItem, Allowed;
    forall j: nat | if op == MINUS then j < k else j > k
      ensures FailsWith(src, pat, s, p, ep, op, caps, j)
    {
    }
    hide AllFail;
    QuantFirst(src, pat, s, p, ep, op, caps, k, e, caps');
  }

  /** One or more repetitions without a first one. */
  lemma PlusNone(src: Text, pat: Text, s: nat, p: nat, ep: nat, caps: seq<Cap>)
    requires QuantItem(pat, p, ep, PLUS) && !(s < |src| && Single(src[s], pat, p, ep))
    ensures NoMatch(src, pat, s, p, caps)
  {
    hide Run, Before, NoMatch, QuantItem, Single;
    forall k: nat
      ensures FailsWith(src, pat, s, p, ep, PLUS, caps, k)
    {
    }
    QuantFails(src, pat, s, p, ep, PLUS, caps);
  }

  /** One or more repetitions are a first one and then any number. */
  lemma PlusFails(src: Text, pat: Text, s: nat, p: nat, ep: nat, caps: seq<Cap>)
    requires QuantItem(pat, p, ep, PLUS) && s < |src| && Single(src[s], pat, p, ep)
    requires AllFail(src, pat, s + 1, p, ep, caps, 0, -1)
    ensures NoMatch(src, pat, s, p, caps)
  {
    hide Run, Before, Reps, NoMatch, QuantItem, Single;
    forall k: nat
      ensures FailsWith(src, pat, s, p, ep, PLUS, caps, k)
    {
      if k > 0 {
        RepsShift(src, pat, s, p, ep, k - 1);
      }
    }
    hide AllFail;
    QuantFails(src, pat, s, p, ep, PLUS, caps);
  }

  lemma PlusFirst(src: Text, pat: Text, s: nat, p: nat, ep: nat, caps: seq<Cap>, k: nat, e: nat, caps': seq<Cap>)
    requires QuantItem(pat, p, ep, PLUS) && s < |src| && Single(src[s], pat, p, ep)
    requires MatchesWith(src, pat, s + 1, p, ep, caps, k, e, caps') && AllFail(src, pat, s + 1, p, ep, caps, k + 1, -1)
    ensures FirstMatch(src, pat, s, p, caps, e, caps')
  {
    hide Run, Before, Reps, NoMatch, FirstMatch, QuantItem, Single;
    RepsShift(src, pat, s, p, ep, k);
    forall j: nat | j > k + 1
      ensures FailsWith(src, pat, s, p, ep, PLUS, caps, j)
    {
      RepsShift(src, pat, s, p, ep, j - 1);
    }
    hide AllFail;
    QuantFirst(src, pat, s, p, ep, PLUS, caps, k + 1, e, caps');
  }

  /** An optional item matches: it comes before leaving it out. */
  lemma OptionTaken(src: Text, pat: Text, s: nat, p: nat, ep: nat, caps: seq<Cap>, e: nat, caps': seq<Cap>)
    requires QuantItem(pat, p, ep, QUEST) && s < |src| && Single(src[s], pat, p, ep)
    requires FirstMatch(src, pat, s + 1, ep + 1, caps, e, caps')
    ensures FirstMatch(src, pat, s, p, caps, e, caps')
  {
    hide Run, Before, NoMatch, FirstMatch, QuantItem, Single;
    QuantFirst(src, pat, s, p, ep, QUEST, caps, 1, e, caps');
  }

  /** Matching from p at s0 is settled by matching from p' at s'. */
  ghost predicate Settles(src: Text, pat: Text, s: nat, p: nat, caps: seq<Cap>, s': nat, p': nat, caps': seq<Cap>) {
    && (NoMatch(src, pat, s', p', caps') ==> NoMatch(src, pat, s, p, caps))
    && (forall e, c :: FirstMatch(src, pat, s', p', caps', e, c) ==> FirstMatch(src, pat, s, p, caps, e, c))
  }

  lemma SameSettles(src: Text, pat: Text, s: nat, p: nat, caps: seq<Cap>, s': nat, p': nat, caps': seq<Cap>)
    requires SameRuns(src, pat, s, p, caps, s', p', caps')
    ensures Settles(src, pat, s, p, caps, s', p', caps')
  {
    hide SameRuns, NoMatch, FirstMatch;
    SameMatches(src, pat, s, p, caps, s', p', caps');
  }

  /** An optional item that cannot be taken is left out. */
  lemma OptionLeft(src: Text, pat: Text, s: nat, p: nat, ep: nat, caps: seq<Cap>)
    requires QuantItem(pat, p, ep, QUEST) && s <= |src|
    requires s < |src| && Single(src[s], pat, p, ep) ==> NoMatch(src, pat, s + 1, ep + 1, caps)
    ensures Settles(src, pat, s, p, caps, s, ep + 1, caps)
  {
    hide Run, Before, NoMatch, FirstMatch, QuantItem, Single;
    assert forall j: nat :: j > 0 ==> FailsWith(src, pat, s, p, ep, QUEST, caps, j);
    if NoMatch(src, pat, s, ep + 1, caps) {
      assert FailsWith(src, pat, s, p, ep, QUEST, caps, 0);
      QuantFails(src, pat, s, p, ep, QUEST, caps);
    }
    forall e, c | FirstMatch(src, pat, s, ep + 1, caps, e, c)
      ensures FirstMatch(src, pat, s, p, caps, e, c)
    {
      QuantFirst(src, pat, s, p, ep, QUEST, caps, 0, e, c);
    }
  }

  // ----------------------------------------------------------------------- errors

  /** Going on from p, at call depth d, may raise an error. */
  ghost predicate Risky(pat: Text, p: nat, caps: seq<Cap>, d: nat) {
    !Sound(pat, p, Shape(caps)) || d + Levels(pat, p) > MAX_XLEVEL
  }

  lemma {:induction false} OpenShape(caps: seq<Cap>, i: nat)
    requires i <= |caps|
    ensures OpenCap(Shape(caps), i) == OpenCap(caps, i)
  {
    if i > 0 {
      OpenShape(caps, i - 1);
    }
  }

  lemma StartRisk(pat: Text, s: nat, p: nat, caps: seq<Cap>, d: nat)
    requires At(pat, p) == OPEN
    ensures |caps| >= MAXCAPTURES ==> Risky(pat, p, caps, d)
    ensures At(pat, p + 1) == CLOSE && Risky(pat, p + 2, caps + [Cap(s, CAP_POSITION)], d + 1) ==> Risky(pat, p, caps, d)
    ensures At(pat, p + 1) != CLOSE && Risky(pat, p + 1, caps + [Cap(s, CAP_UNFINISHED)], d + 1) ==> Risky(pat, p, caps, d)
  {
    assert Shape(caps + [Cap(s, CAP_POSITION)]) == Shape(caps) + [Cap(0, CAP_POSITION)];
    assert Shape(caps + [Cap(s, CAP_UNFINISHED)]) == Shape(caps) + [Cap(0, CAP_UNFINISHED)];
  }

  lemma CloseShape(caps: seq<Cap>, l: nat, s: nat)
    requires l < |caps| && CapsOk(caps, s)
    ensures Shape(caps[l := Cap(caps[l].init, s - caps[l].init)]) == Shape(caps)[l := Cap(0, CAP_POSITION)]
  {
  }

  lemma EndRisk(pat: Text, s: nat, p: nat, caps: seq<Cap>, d: nat)
    requires At(pat, p) == CLOSE && CapsOk(caps, s)
    ensures var l := OpenCap(caps, |caps|);
            if l < 0 then Risky(pat, p, caps, d)
            else Risky(pat, p + 1, caps[l := Cap(caps[l].init, s - caps[l].init)], d + 1) ==> Risky(pat, p, caps, d)
  {
    OpenShape(caps, |caps|);
    var l := OpenCap(caps, |caps|);
    if l >= 0 {
      CloseShape(caps, l, s);
    }
    hide Shape, CapsOk;
  }

  lemma BalanceRisk(pat: Text, p: nat, caps: seq<Cap>, d: nat)
    requires At(pat, p) == ESC && At(pat, p + 1) == BALANCE
    ensures At(pat, p + 2) == 0 || At(pat, p + 3) == 0 || Risky(pat, p + 4, caps, d) ==> Risky(pat, p, caps, d)
  {
  }

  lemma FrontierRisk(pat: Text, p: nat, caps: seq<Cap>, d: nat)
    requires At(pat, p) == ESC && At(pat, p + 1) == FRONTIER
    ensures At(pat, p + 2) != LBRACK || ItemEnd(pat, p + 2) == 0 || Risky(pat, ItemEnd(pat, p + 2), caps, d)
        ==> Risky(pat, p, caps, d)
  {
  }

  lemma CaptureRisk(pat: Text, p: nat, caps: seq<Cap>, d: nat)
    requires At(pat, p) == ESC && IsDigit(At(pat, p + 1))
    ensures CapIndex(caps, At(pat, p + 1)) < 0 || Risky(pat, p + 2, caps, d) ==> Risky(pat, p, caps, d)
  {
  }

  lemma ItemRisk(pat: Text, p: nat, caps: seq<Cap>, d: nat)
    requires IsItem(pat, p)
    ensures ItemEnd(pat, p) == 0 ==> Risky(pat, p, caps, d)
    ensures ItemEnd(pat, p) != 0 && !IsQuant(At(pat, ItemEnd(pat, p))) && Risky(pat, ItemEnd(pat, p), caps, d)
        ==> Risky(pat, p, caps, d)
    ensures ItemEnd(pat, p) != 0 && IsQuant(At(pat, ItemEnd(pat, p))) && Risky(pat, ItemEnd(pat, p) + 1, caps, d + 1)
        ==> Risky(pat, p, caps, d)
    ensures ItemEnd(pat, p) != 0 && IsQuant(At(pat, ItemEnd(pat, p))) && Risky(pat, ItemEnd(pat, p) + 1, caps, d)
        ==> Risky(pat, p, caps, d)
  {
  }

  // ------------------------------------------------- which error, construct by construct

  lemma FoundMatch(src: Text, pat: Text, s: nat, p: nat, caps: seq<Cap>, d: nat, r: Result, caps': seq<Cap>)
    requires Settled(src, pat, s, p, caps, d, r, caps')
    ensures r.Fail? ==> NoMatch(src, pat, s, p, caps)
    ensures r.Found? ==> !NoMatch(src, pat, s, p, caps)
  {
    hide Run, Before, Risky;
  }

  lemma StartFault(src: Text, pat: Text, s: nat, p: nat, caps: seq<Cap>, d: nat)
    requires At(pat, p) == OPEN
    ensures FaultFrom(src, pat, s, p, caps, d) == if |caps| >= MAXCAPTURES then Fault(TooManyCaptures)
            else CallFault(src, pat, s, Inside(pat, p), caps + [Opened(pat, s, p)], d)
  {
    hide CallFault;
  }

  lemma CloseFault(src: Text, pat: Text, s: nat, p: nat, caps: seq<Cap>, d: nat)
    requires At(pat, p) == CLOSE
    ensures var l := OpenCap(caps, |caps|);
            FaultFrom(src, pat, s, p, caps, d) == if l < 0 then Fault(BadCapture)
            else CallFault(src, pat, s, p + 1, caps[l := Cap(caps[l].init, s - caps[l].init)], d)
  {
    hide CallFault;
  }

  lemma BalanceFault(src: Text, pat: Text, s: nat, p: nat, caps: seq<Cap>, d: nat)
    requires At(pat, p) == ESC && At(pat, p + 1) == BALANCE
    ensures var e := BalanceEnd(src, s, At(pat, p + 2), At(pat, p + 3));
            FaultFrom(src, pat, s, p, caps, d) == if At(pat, p + 2) == 0 || At(pat, p + 3) == 0 then Fault(Malformed)
            else if e == 0 then NoFault else FaultFrom(src, pat, e, p + 4, caps, d)
  {
    hide BalanceEnd;
  }

  lemma FrontierFault(src: Text, pat: Text, s: nat, p: nat, caps: seq<Cap>, d: nat)
    requires At(pat, p) == ESC && At(pat, p + 1) == FRONTIER
    ensures FaultFrom(src, pat, s, p, caps, d) == if At(pat, p + 2) != LBRACK || ItemEnd(pat, p + 2) == 0 then Fault(Malformed)
            else if Frontier(src, s, pat, p + 2, ItemEnd(pat, p + 2)) then FaultFrom(src, pat, s, ItemEnd(pat, p + 2), caps, d)
            else NoFault
  {
    hide Frontier;
  }

  lemma CaptureFault(src: Text, pat: Text, s: nat, p: nat, caps: seq<Cap>, d: nat)
    requires At(pat, p) == ESC && IsDigit(At(pat, p + 1))
    ensures var l := CapIndex(caps, At(pat, p + 1));
            FaultFrom(src, pat, s, p, caps, d) == if l < 0 then Fault(BadCapture)
            else if Repeats(src, caps[l], s) then FaultFrom(src, pat, s + caps[l].len, p + 2, caps, d) else NoFault
  {
    hide Repeats;
  }

  lemma ItemFaults(src: Text, pat: Text, s: nat, p: nat, caps: seq<Cap>, d: nat)
    requires IsItem(pat, p)
    ensures FaultFrom(src, pat, s, p, caps, d) == if ItemEnd(pat, p) == 0 then Fault(Malformed)
            else QuantFault(src, pat, s, p, ItemEnd(pat, p), caps, d)
  {
    hide QuantFault, ItemEnd;
  }

  lemma EndNoFault(src: Text, pat: Text, s: nat, p: nat, caps: seq<Cap>, d: nat)
    requires At(pat, p) == 0 || (At(pat, p) == DOLLAR && At(pat, p + 1) == 0)
    ensures FaultFrom(src, pat, s, p, caps, d) == NoFault
  {
  }

  lemma CallFaultIs(src: Text, pat: Text, s: nat, p: nat, caps: seq<Cap>, d: nat)
    ensures CallFault(src, pat, s, p, caps, d) == if d + 1 > MAX_XLEVEL then Fault(TooComplex) else FaultFrom(src, pat, s, p, caps, d + 1)
  {
    hide FaultFrom;
  }

  lemma QuestFault(src: Text, pat: Text, s: nat, p: nat, ep: nat, caps: seq<Cap>, d: nat)
    requires p < ep <= |pat| && At(pat, ep) == QUEST
    ensures var m := s < |src| && Single(src[s], pat, p, ep);
            QuantFault(src, pat, s, p, ep, caps, d)
            == if m && CallFault(src, pat, s + 1, ep + 1, caps, d).Fault? then CallFault(src, pat, s + 1, ep + 1, caps, d)
               else if m && !NoMatch(src, pat, s + 1, ep + 1, caps) then NoFault
               else FaultFrom(src, pat, s, ep + 1, caps, d)
  {
    hide CallFault, FaultFrom, NoMatch, Single;
  }

  /** The other items. */
  lemma OtherFault(src: Text, pat: Text, s: nat, p: nat, ep: nat, caps: seq<Cap>, d: nat)
    requires p < ep <= |pat| && At(pat, ep) != QUEST
    ensures var m, op := s < |src| && Single(src[s], pat, p, ep), At(pat, ep);
            QuantFault(src, pat, s, p, ep, caps, d)
            == if op == STAR then GreedyFault(src, pat, s, p, ep, caps, d, Longest(src, pat, s, p, ep))
               else if op == MINUS then LazyFault(src, pat, s, p, ep, caps, d)
               else if !m then NoFault
               else if op == PLUS then GreedyFault(src, pat, s + 1, p, ep, caps, d, Longest(src, pat, s + 1, p, ep))
               else FaultFrom(src, pat, s + 1, ep, caps, d)
  {
    hide GreedyFault, LazyFault, FaultFrom, Single, Longest;
  }

  lemma GreedyStart(src: Text, pat: Text, s0: nat, p: nat, ep: nat, op: nat, s: nat, caps: seq<Cap>, d: nat)
    requires Begins(src, pat, s0, p, ep, op, s)
    ensures p < ep <= |pat|
    ensures FaultFrom(src, pat, s0, p, caps, d) == GreedyFault(src, pat, s, p, ep, caps, d, Longest(src, pat, s, p, ep))
  {
    hide GreedyFault, Longest, FaultFrom, QuantFault, Single, ItemEnd, IsItem;
    ItemFaults(src, pat, s0, p, caps, d);
    OtherFault(src, pat, s0, p, ep, caps, d);
  }

  lemma LazyStart(src: Text, pat: Text, s: nat, p: nat, ep: nat, caps: seq<Cap>, d: nat)
    requires QuantItem(pat, p, ep, MINUS)
    ensures p < ep <= |pat| && FaultFrom(src, pat, s, p, caps, d) == LazyFault(src, pat, s, p, ep, caps, d)
  {
    hide LazyFault, FaultFrom, QuantFault, ItemEnd, IsItem;
    ItemFaults(src, pat, s, p, caps, d);
    OtherFault(src, pat, s, p, ep, caps, d);
  }

  lemma GreedyNext(src: Text, pat: Text, s: nat, p: nat, ep: nat, caps: seq<Cap>, d: nat, k: nat)
    requires p < ep <= |pat|
    ensures var f := CallFault(src, pat, s + k, ep + 1, caps, d);
            GreedyFault(src, pat, s, p, ep, caps, d, k)
            == if f.Fault? then f else if !NoMatch(src, pat, s + k, ep + 1, caps) || k == 0 then NoFault
               else GreedyFault(src, pat, s, p, ep, caps, d, k - 1)
  {
    hide CallFault, NoMatch;
  }

  lemma LazyNext(src: Text, pat: Text, s: nat, p: nat, ep: nat, caps: seq<Cap>, d: nat)
    requires p < ep <= |pat|
    ensures var f := CallFault(src, pat, s, ep + 1, caps, d);
            LazyFault(src, pat, s, p, ep, caps, d)
            == if f.Fault? then f
               else if !NoMatch(src, pat, s, ep + 1, caps) || !(s < |src| && Single(src[s], pat, p, ep)) then NoFault
               else LazyFault(src, pat, s + 1, p, ep, caps, d)
  {
    hide CallFault, NoMatch, Single;
  }

  // ---------------------------------------------------------------- frames of match

  /** What a call that runs at depth d reports for matching from p at s: failure leaves the
      live captures as they were, success is the first way of matching, and an error is due
      to a fault in the pattern or its nesting. */
  ghost predicate Settled(src: Text, pat: Text, s: nat, p: nat, caps: seq<Cap>, d: nat, r: Result, caps': seq<Cap>) {
    match r
    case Fail => caps' == caps && NoMatch(src, pat, s, p, caps)
    case Found(e) => e <= |src| && CapsOk(caps', e) && FirstMatch(src, pat, s, p, caps, e, caps')
    case Raised(_) => Risky(pat, p, caps, d)
  }

  /** Matching from q at t, with the same captures, is all that is left of matching from p at s. */
  ghost predicate Leads(src: Text, pat: Text, s: nat, p: nat, caps: seq<Cap>, d: nat, t: nat, q: nat) {
    Settles(src, pat, s, p, caps, t, q, caps) && (Risky(pat, q, caps, d) ==> Risky(pat, p, caps, d))
  }

  lemma LeadsSelf(src: Text, pat: Text, s: nat, p: nat, caps: seq<Cap>, d: nat)
    ensures Leads(src, pat, s, p, caps, d, s, p)
  {
    hide Risky, NoMatch, FirstMatch;
  }

  lemma LeadsOn(src: Text, pat: Text, s: nat, p: nat, caps: seq<Cap>, d: nat, t: nat, q: nat, t': nat, q': nat)
    requires Leads(src, pat, s, p, caps, d, t, q) && Leads(src, pat, t, q, caps, d, t', q')
    ensures Leads(src, pat, s, p, caps, d, t', q')
  {
    hide Risky, NoMatch, FirstMatch;
  }

  lemma Finish(src: Text, pat: Text, s: nat, p: nat, caps: seq<Cap>, d: nat, t: nat, q: nat, r: Result, caps': seq<Cap>)
    requires Leads(src, pat, s, p, caps, d, t, q) && Settled(src, pat, t, q, caps, d, r, caps')
    ensures Settled(src, pat, s, p, caps, d, r, caps')
  {
    hide Risky, NoMatch, FirstMatch, CapsOk;
  }

  lemma TooDeep(src: Text, pat: Text, s: nat, p: nat, caps: seq<Cap>, d: nat, e: Error, caps': seq<Cap>)
    requires d > MAX_XLEVEL
    ensures Settled(src, pat, s, p, caps, d, Raised(e), caps')
  {
    hide Sound, Levels;
  }

  /** What matchbalance leads to. */
  lemma BalanceLeads(src: Text, pat: Text, s: nat, p: nat, caps: seq<Cap>, d: nat)
    requires At(pat, p) == ESC && At(pat, p + 1) == BALANCE
    ensures if At(pat, p + 2) == 0 || At(pat, p + 3) == 0 then Risky(pat, p, caps, d)
            else
              var e := BalanceEnd(src, s, At(pat, p + 2), At(pat, p + 3));
              if e == 0 then Settled(src, pat, s, p, caps, d, Fail, caps) else Leads(src, pat, s, p, caps, d, e, p + 4)
  {
    BalanceRisk(pat, p, caps, d);
    hide Risky, NoMatch, SameRuns, BalanceEnd, FirstMatch;
    if At(pat, p + 2) != 0 && At(pat, p + 3) != 0 {
      BalanceSame(src, pat, s, p, caps);
      var e := BalanceEnd(src, s, At(pat, p + 2), At(pat, p + 3));
      if e != 0 {
        SameSettles(src, pat, s, p, caps, e, p + 4, caps);
      }
    }
  }

  lemma FrontierLeads(src: Text, pat: Text, s: nat, p: nat, caps: seq<Cap>, d: nat)
    requires At(pat, p) == ESC && At(pat, p + 1) == FRONTIER
    ensures if At(pat, p + 2) != LBRACK || ItemEnd(pat, p + 2) == 0 then Risky(pat, p, caps, d)
            else
              var ep := ItemEnd(pat, p + 2);
              if Frontier(src, s, pat, p + 2, ep) then Leads(src, pat, s, p, caps, d, s, ep)
              else Settled(src, pat, s, p, caps, d, Fail, caps)
  {
    FrontierRisk(pat, p, caps, d);
    hide Risky, NoMatch, SameRuns, Frontier, FirstMatch;
    if At(pat, p + 2) == LBRACK && ItemEnd(pat, p + 2) != 0 {
      FrontierSame(src, pat, s, p, caps);
      var ep := ItemEnd(pat, p + 2);
      if Frontier(src, s, pat, p + 2, ep) {
        SameSettles(src, pat, s, p, caps, s, ep, caps);
      }
    }
  }

  lemma CaptureLeads(src: Text, pat: Text, s: nat, p: nat, caps: seq<Cap>, d: nat)
    requires At(pat, p) == ESC && IsDigit(At(pat, p + 1))
    ensures var l := CapIndex(caps, At(pat, p + 1));
            if l < 0 then Risky(pat, p, caps, d)
            else if Repeats(src, caps[l], s) then Leads(src, pat, s, p, caps, d, s + caps[l].len, p + 2)
            else Settled(src, pat, s, p, caps, d, Fail, caps)
  {
    CaptureRisk(pat, p, caps, d);
    hide Risky, NoMatch, SameRuns, FirstMatch;
    var l := CapIndex(caps, At(pat, p + 1));
    if l >= 0 {
      CaptureSame(src, pat, s, p, caps);
      if Repeats(src, caps[l], s) {
        SameSettles(src, pat, s, p, caps, s + caps[l].len, p + 2, caps);
      }
    }
  }

  lemma ItemLeads(src: Text, pat: Text, s: nat, p: nat, caps: seq<Cap>, d: nat)
    requires IsItem(pat, p) && ItemEnd(pat, p) != 0 && !IsQuant(At(pat, ItemEnd(pat, p)))
    ensures if s < |src| && Single(src[s], pat, p, ItemEnd(pat, p))
            then Leads(src, pat, s, p, caps, d, s + 1, ItemEnd(pat, p))
            else Settled(src, pat, s, p, caps, d, Fail, caps)
  {
    ItemRisk(pat, p, caps, d);
    ItemSame(src, pat, s, p, caps);
    hide Risky, NoMatch, SameRuns, FirstMatch, Single, ItemEnd;
    if s < |src| && Single(src[s], pat, p, ItemEnd(pat, p)) {
      SameSettles(src, pat, s, p, caps, s + 1, ItemEnd(pat, p), caps);
    }
  }

  lemma EndSettled(src: Text, pat: Text, s: nat, p: nat, caps: seq<Cap>, d: nat)
    requires At(pat, p) == 0 || (At(pat, p) == DOLLAR && At(pat, p + 1) == 0)
    requires s <= |src| && CapsOk(caps, s)
    ensures Settled(src, pat, s, p, caps, d, if At(pat, p) == 0 || s == |src| then Found(s) else Fail, caps)
  {
    EndOfPattern(src, pat, s, p, caps);
    hide NoMatch, FirstMatch, CapsOk;
  }

  // ----------------------------------------------------------- frames of expansion

  lemma ExpandRaised(src: Text, pat: Text, s: nat, p: nat, ep: nat, op: nat, caps: seq<Cap>, d: nat, r: Result, caps': seq<Cap>)
    requires QuantItem(pat, p, ep, op) && r.Raised? && Risky(pat, ep + 1, caps, d + 1)
    ensures Settled(src, pat, s, p, caps, d, r, caps')
  {
    ItemRisk(pat, p, caps, d);
    hide Risky, ItemEnd, IsItem;
  }

  /** Where the greedy expansion for the item at p begins: behind a first match for +. */
  ghost predicate Begins(src: Text, pat: Text, s: nat, p: nat, ep: nat, op: nat, s': nat) {
    QuantItem(pat, p, ep, op) && if op == PLUS then s < |src| && Single(src[s], pat, p, ep) && s' == s + 1 else op == STAR && s' == s
  }

  lemma GreedyFails(src: Text, pat: Text, s: nat, p: nat, ep: nat, op: nat, s': nat, caps: seq<Cap>, d: nat)
    requires Begins(src, pat, s, p, ep, op, s') && AllFail(src, pat, s', p, ep, caps, 0, -1)
    ensures Settled(src, pat, s, p, caps, d, Fail, caps)
  {
    hide QuantItem, AllFail, NoMatch, Single;
    if op == PLUS {
      PlusFails(src, pat, s, p, ep, caps);
    } else {
      StarFails(src, pat, s, p, ep, op, caps);
    }
  }

  lemma GreedyFirst(src: Text, pat: Text, s: nat, p: nat, ep: nat, op: nat, s': nat, caps: seq<Cap>, d: nat, k: nat,
                    r: Result, caps': seq<Cap>)
    requires Begins(src, pat, s, p, ep, op, s') && AllFail(src, pat, s', p, ep, caps, k + 1, -1)
    requires Reps(src, pat, s', p, ep, k) && r.Found? && Settled(src, pat, s' + k, ep + 1, caps, d + 1, r, caps')
    ensures Settled(src, pat, s, p, caps, d, r, caps')
  {
    hide QuantItem, AllFail, NoMatch, Single, Reps, FirstMatch, CapsOk;
    if op == PLUS {
      PlusFirst(src, pat, s, p, ep, caps, k, r.end, caps');
    } else {
      StarFirst(src, pat, s, p, ep, op, caps, k, r.end, caps');
    }
  }

  lemma LazyFirst(src: Text, pat: Text, s: nat, p: nat, ep: nat, caps: seq<Cap>, d: nat, k: nat, r: Result, caps': seq<Cap>)
    requires QuantItem(pat, p, ep, MINUS) && AllFail(src, pat, s, p, ep, caps, 0, k)
    requires Reps(src, pat, s, p, ep, k) && r.Found? && Settled(src, pat, s + k, ep + 1, caps, d + 1, r, caps')
    ensures Settled(src, pat, s, p, caps, d, r, caps')
  {
    hide QuantItem, AllFail, NoMatch, Single, Reps, FirstMatch, CapsOk;
    StarFirst(src, pat, s, p, ep, MINUS, caps, k, r.end, caps');
  }

  lemma LazyFails(src: Text, pat: Text, s: nat, p: nat, ep: nat, caps: seq<Cap>, d: nat, k: nat)
    requires QuantItem(pat, p, ep, MINUS) && AllFail(src, pat, s, p, ep, caps, 0, k + 1) && Reps(src, pat, s, p, ep, k)
    requires !(s + k < |src| && Single(src[s + k], pat, p, ep))
    ensures Settled(src, pat, s, p, caps, d, Fail, caps)
  {
    hide QuantItem, NoMatch, Single, Reps;
    RepsMore(src, pat, s, p, ep, k);
    StarFails(src, pat, s, p, ep, MINUS, caps);
  }

  lemma FailsBelow(src: Text, pat: Text, s: nat, p: nat, ep: nat, caps: seq<Cap>, k: nat)
    requires AllFail(src, pat, s, p, ep, caps, k + 1, -1) && NoMatch(src, pat, s + k, ep + 1, caps)
    ensures AllFail(src, pat, s, p, ep, caps, k, -1)
  {
    hide NoMatch, Reps;
  }

  lemma FailsAbove(src: Text, pat: Text, s: nat, p: nat, ep: nat, caps: seq<Cap>, k: nat)
    requires AllFail(src, pat, s, p, ep, caps, 0, k) && NoMatch(src, pat, s + k, ep + 1, caps)
    ensures AllFail(src, pat, s, p, ep, caps, 0, k + 1)
  {
    hide NoMatch, Reps;
  }

  /** No more than k repetitions are possible. */
  lemma FailsBeyond(src: Text, pat: Text, s: nat, p: nat, ep: nat, caps: seq<Cap>, k: nat)
    requires Reps(src, pat, s, p, ep, k) && !(s + k < |src| && Single(src[s + k], pat, p, ep))
    ensures AllFail(src, pat, s, p, ep, caps, k + 1, -1)
  {
    hide NoMatch, Single, Reps;
    RepsMore(src, pat, s, p, ep, k);
  }

  lemma PlusSettled(src: Text, pat: Text, s: nat, p: nat, ep: nat, caps: seq<Cap>, d: nat)
    requires QuantItem(pat, p, ep, PLUS) && !(s < |src| && Single(src[s], pat, p, ep))
    ensures Settled(src, pat, s, p, caps, d, Fail, caps)
  {
    hide NoMatch, Single, QuantItem;
    PlusNone(src, pat, s, p, ep, caps);
  }

  lemma OptionLeads(src: Text, pat: Text, s: nat, p: nat, ep: nat, caps: seq<Cap>, d: nat)
    requires QuantItem(pat, p, ep, QUEST) && s <= |src|
    requires s < |src| && Single(src[s], pat, p, ep) ==> NoMatch(src, pat, s + 1, ep + 1, caps)
    ensures Leads(src, pat, s, p, caps, d, s, ep + 1)
  {
    ItemRisk(pat, p, caps, d);
    hide Risky, Settles, Single, NoMatch;
    OptionLeft(src, pat, s, p, ep, caps);
  }

  lemma OptionSettled(src: Text, pat: Text, s: nat, p: nat, ep: nat, caps: seq<Cap>, d: nat, r: Result, caps': seq<Cap>)
    requires QuantItem(pat, p, ep, QUEST) && s < |src| && Single(src[s], pat, p, ep)
    requires r.Found? && Settled(src, pat, s + 1, ep + 1, caps, d + 1, r, caps')
    ensures Settled(src, pat, s, p, caps, d, r, caps')
  {
    hide CapsOk, FirstMatch, QuantItem, Single;
    OptionTaken(src, pat, s, p, ep, caps, r.end, caps');
  }

  // ------------------------------------------------------------ frames of captures

  /** The capture that the parenthesis at p opens at s, and where the pattern goes on. */
  function Opened(pat: Text, s: nat, p: nat): Cap {
    Cap(s, if At(pat, p + 1) == CLOSE then CAP_POSITION else CAP_UNFINISHED)
  }

  function Inside(pat: Text, p: nat): nat { if At(pat, p + 1) == CLOSE then p + 2 else p + 1 }

  lemma StartFull(src: Text, pat: Text, s: nat, p: nat, caps: seq<Cap>, d: nat, r: Result, caps': seq<Cap>)
    requires At(pat, p) == OPEN && |caps| >= MAXCAPTURES && r.Raised?
    ensures Settled(src, pat, s, p, caps, d, r, caps')
  {
    StartRisk(pat, s, p, caps, d);
    hide Risky;
  }

  lemma StartSettled(src: Text, pat: Text, s: nat, p: nat, caps: seq<Cap>, d: nat, r: Result, caps': seq<Cap>)
    requires At(pat, p) == OPEN && |caps| < MAXCAPTURES
    requires Settled(src, pat, s, Inside(pat, p), caps + [Opened(pat, s, p)], d + 1, r, caps')
    ensures Settled(src, pat, s, p, caps, d, r, if r.Fail? then caps else caps')
  {
    StartRisk(pat, s, p, caps, d);
    StartSame(src, pat, s, p, caps);
    hide Risky, SameRuns, NoMatch, FirstMatch, CapsOk;
    SameMatches(src, pat, s, p, caps, s, Inside(pat, p), caps + [Opened(pat, s, p)]);
  }

  lemma EndFault(src: Text, pat: Text, s: nat, p: nat, caps: seq<Cap>, d: nat, r: Result, caps': seq<Cap>)
    requires At(pat, p) == CLOSE && CapsOk(caps, s) && OpenCap(caps, |caps|) < 0 && r.Raised?
    ensures Settled(src, pat, s, p, caps, d, r, caps')
  {
    EndRisk(pat, s, p, caps, d);
    hide Risky, CapsOk;
  }

  lemma EndClosed(src: Text, pat: Text, s: nat, p: nat, caps: seq<Cap>, d: nat, closed: seq<Cap>, r: Result, caps': seq<Cap>)
    requires At(pat, p) == CLOSE && CapsOk(caps, s) && OpenCap(caps, |caps|) >= 0
    requires var l := OpenCap(caps, |caps|); closed == caps[l := Cap(caps[l].init, s - caps[l].init)]
    requires Settled(src, pat, s, p + 1, closed, d + 1, r, caps')
    ensures Settled(src, pat, s, p, caps, d, r, if r.Fail? then caps else caps')
  {
    EndRisk(pat, s, p, caps, d);
    EndSame(src, pat, s, p, caps);
    hide Risky, SameRuns, NoMatch, FirstMatch, CapsOk;
    SameMatches(src, pat, s, p, caps, s, p + 1, closed);
  }

  // ------------------------------------------------------------------- small steps

  lemma CapsLater(caps: seq<Cap>, s: nat, t: nat)
    requires CapsOk(caps, s) && s <= t
    ensures CapsOk(caps, t)
  {
  }

  lemma CapsOpened(caps: seq<Cap>, s: nat, what: int)
    requires CapsOk(caps, s) && -2 <= what <= 0
    ensures CapsOk(caps + [Cap(s, what)], s)
  {
  }

  lemma CapsClosed(caps: seq<Cap>, s: nat, l: nat)
    requires CapsOk(caps, s) && l < |caps|
    ensures CapsOk(caps[l := Cap(caps[l].init, s - caps[l].init)], s)
  {
  }

  lemma RaisedSettled(src: Text, pat: Text, s: nat, p: nat, caps: seq<Cap>, d: nat, e: Error, caps': seq<Cap>)
    requires Risky(pat, p, caps, d)
    ensures Settled(src, pat, s, p, caps, d, Raised(e), caps')
  {
    hide Risky;
  }

  lemma RaisedRisk(src: Text, pat: Text, s: nat, p: nat, caps: seq<Cap>, d: nat, r: Result, caps': seq<Cap>)
    requires r.Raised? && Settled(src, pat, s, p, caps, d, r, caps')
    ensures Risky(pat, p, caps, d)
  {
    hide Risky;
  }

  lemma FailKeeps(src: Text, pat: Text, s: nat, p: nat, caps: seq<Cap>, d: nat, caps': seq<Cap>)
    requires Settled(src, pat, s, p, caps, d, Fail, caps')
    ensures caps' == caps && NoMatch(src, pat, s, p, caps)
  {
    hide NoMatch;
  }

  lemma ItemFault(src: Text, pat: Text, s: nat, p: nat, caps: seq<Cap>, d: nat, caps': seq<Cap>)
    requires IsItem(pat, p) && ItemEnd(pat, p) == 0
    ensures Settled(src, pat, s, p, caps, d, Raised(Malformed), caps')
  {
    ItemRisk(pat, p, caps, d);
    hide Risky, ItemEnd;
  }

  lemma FrontierIs(src: Text, s: nat, pat: Text, p: nat, ep: nat)
    requires s <= |src| && ep > 0
    ensures Frontier(src, s, pat, p, ep)
        <==> !InBracket(if s == 0 then 0 else src[s - 1], pat, p, ep - 1) && InBracket(At(src, s), pat, p, ep - 1)
  {
    hide InBracket;
  }

  lemma OptionTried(src: Text, pat: Text, s: nat, p: nat, ep: nat, caps: seq<Cap>, d: nat, r: Result, caps': seq<Cap>)
    requires QuantItem(pat, p, ep, QUEST) && s < |src| && Single(src[s], pat, p, ep)
    requires Settled(src, pat, s + 1, ep + 1, caps, d + 1, r, caps')
    ensures if r.Fail? then caps' == caps && NoMatch(src, pat, s + 1, ep + 1, caps) else Settled(src, pat, s, p, caps, d, r, caps')
  {
    hide Risky, NoMatch, FirstMatch, Single, QuantItem;
    if r.Found? {
      OptionSettled(src, pat, s, p, ep, caps, d, r, caps');
    } else if r.Raised? {
      ExpandRaised(src, pat, s, p, ep, QUEST, caps, d, r, caps');
    }
  }

  lemma BeginsItem(src: Text, pat: Text, s: nat, p: nat, ep: nat, op: nat, s': nat)
    requires Begins(src, pat, s, p, ep, op, s')
    ensures QuantItem(pat, p, ep, op) && (At(pat, p) == LBRACK ==> ep > 0)
  {
  }

  lemma ItemBracket(pat: Text, p: nat, ep: nat, op: nat)
    requires QuantItem(pat, p, ep, op)
    ensures At(pat, p) == LBRACK ==> ep > 0
  {
  }

  lemma RepsNext(src: Text, pat: Text, s: nat, p: nat, ep: nat, k: nat)
    requires Reps(src, pat, s, p, ep, k) && s + k < |src| && Single(src[s + k], pat, p, ep)
    ensures Reps(src, pat, s, p, ep, k + 1)
  {
    hide Single;
  }

  lemma RepsFewer(src: Text, pat: Text, s: nat, p: nat, ep: nat, k: nat)
    requires Reps(src, pat, s, p, ep, k) && k > 0
    ensures Reps(src, pat, s, p, ep, k - 1)
  {
    hide Single;
  }

  lemma FailsNone(src: Text, pat: Text, s: nat, p: nat, ep: nat, caps: seq<Cap>)
    ensures AllFail(src, pat, s, p, ep, caps, 0, 0)
  {
  }

  // ------------------------------------------------------------------ the matcher

  class MatchState {
    const src: Text
    var level: nat
    var depth: nat
    const capture: array<Cap>

    ghost predicate Valid()
      reads this, capture
    {
      capture.Length == MAXCAPTURES && level <= MAXCAPTURES
    }

    /** The live captures. */
    ghost function Caps(): seq<Cap>
      requires Valid()
      reads this, capture
    {
      capture[..level]
    }

    constructor (src: Text)
      ensures this.src == src && Valid() && fresh(capture) && Caps() == [] && depth == 0
    {
      this.src := src;
      level, depth := 0, 0;
      capture := new Cap[MAXCAPTURES](_ => Cap(0, 0));
    }

    /** capture_to_close: the innermost unfinished capture, or -1 for an error. */
    method CaptureToClose() returns (l: int)
      requires Valid()
      ensures l == OpenCap(Caps(), level)
    {
      l := level - 1;
      while l >= 0 && capture[l].len != CAP_UNFINISHED
        invariant -1 <= l < level
        invariant forall j :: l < j < level ==> Caps()[j].len != CAP_UNFINISHED
      {
        l := l - 1;
      }
      OpenCapIs(Caps(), level, l);
    }

    /** match: the first way of matching from p at s, or none. */
    method Match(pat: Text, s: nat, p: nat) returns (r: Result)
      requires Valid() && s <= |src| && p <= |pat| && CapsOk(Caps(), s)
      modifies this, capture
      ensures Valid() && Settled(src, pat, s, p, old(Caps()), old(depth) + 1, r, Caps())
      ensures FaultOf(r) == CallFault(src, pat, s, p, old(Caps()), old(depth))
      ensures r.Raised? || depth == old(depth)
      decreases |pat| - p, 3
    {
      hide Settled, Leads, Risky, CapsOk, ItemEnd, CallFault, FaultFrom;
      ghost var caps, d := Caps(), depth + 1;
      CallFaultIs(src, pat, s, p, caps, depth);
      depth := depth + 1;
      if depth > MAX_XLEVEL {
        TooDeep(src, pat, s, p, caps, d, TooComplex, Caps());
        return Raised(TooComplex);
      }
      var t: nat, q: nat := s, p;
      LeadsSelf(src, pat, s, p, caps, d);
      while true
        invariant Valid() && Caps() == caps && depth == d && t <= |src| && p <= q <= |pat| && CapsOk(caps, t)
        invariant Leads(src, pat, s, p, caps, d, t, q)
        invariant FaultFrom(src, pat, s, p, caps, d) == FaultFrom(src, pat, t, q, caps, d)
        decreases |pat| - q
      {
        if At(pat, q) == OPEN {
          if At(pat, q + 1) == CLOSE {
            r := StartCapture(pat, t, q + 2, CAP_POSITION, q);
          } else {
            r := StartCapture(pat, t, q + 1, CAP_UNFINISHED, q);
          }
        } else if At(pat, q) == CLOSE {
          r := EndCapture(pat, t, q + 1);
        } else if At(pat, q) == 0 || (At(pat, q) == DOLLAR && At(pat, q + 1) == 0) {
          EndSettled(src, pat, t, q, caps, d);
          EndNoFault(src, pat, t, q, caps, d);
          r := if At(pat, q) == 0 || t == |src| then Found(t) else Fail;
        } else {
          var goOn, t', q';
          if At(pat, q) == ESC && (At(pat, q + 1) == BALANCE || At(pat, q + 1) == FRONTIER || IsDigit(At(pat, q + 1))) {
            goOn, r, t', q' := Escape(pat, t, q);
          } else {
            goOn, r, t', q' := PatternItem(pat, t, q);
          }
          if goOn {
            LeadsOn(src, pat, s, p, caps, d, t, q, t', q');
            CapsLater(caps, t, t');
            t, q := t', q';
            continue;
          }
        }
        Finish(src, pat, s, p, caps, d, t, q, r, Caps());
        break;
      }
      if !r.Raised? {
        depth := depth - 1;
      }
    }

    /** The escapes %b, %f and %1 to %9 at p in match: where to go on, or the outcome. */
    method Escape(pat: Text, s: nat, p: nat) returns (goOn: bool, r: Result, s': nat, p': nat)
      requires Valid() && s <= |src| && p <= |pat| && CapsOk(Caps(), s)
      requires At(pat, p) == ESC && (At(pat, p + 1) == BALANCE || At(pat, p + 1) == FRONTIER || IsDigit(At(pat, p + 1)))
      ensures goOn ==> s <= s' <= |src| && p < p' <= |pat| && Leads(src, pat, s, p, Caps(), depth, s', p')
      ensures !goOn ==> Settled(src, pat, s, p, Caps(), depth, r, Caps())
      ensures FaultFrom(src, pat, s, p, Caps(), depth) == if goOn then FaultFrom(src, pat, s', p', Caps(), depth) else FaultOf(r)
    {
      hide Settled, Leads, Risky, CapsOk, BalanceEnd, Repeats, Frontier, InBracket, ItemEnd, CapIndex, FaultFrom;
      ghost var caps, d := Caps(), depth;
      goOn, r, s', p' := false, Fail, s, p;
      if At(pat, p + 1) == BALANCE {
        BalanceLeads(src, pat, s, p, caps, d);
        BalanceFault(src, pat, s, p, caps, d);
        if At(pat, p + 2) == 0 || At(pat, p + 3) == 0 {
          r := Raised(Malformed);
          RaisedSettled(src, pat, s, p, caps, d, Malformed, caps);
        } else {
          s' := MatchBalance(src, s, pat, p + 2);
          goOn, p' := s' != 0, p + 4;
        }
      } else if At(pat, p + 1) == FRONTIER {
        FrontierLeads(src, pat, s, p, caps, d);
        FrontierFault(src, pat, s, p, caps, d);
        p' := 0;
        if At(pat, p + 2) == LBRACK {
          p' := ClassEnd(pat, p + 2);
        }
        if p' == 0 {
          r := Raised(Malformed);
          RaisedSettled(src, pat, s, p, caps, d, Malformed, caps);
        } else {
          var previous := if s == 0 then 0 else src[s - 1];
          var before := MatchBracketClass(previous, pat, p + 2, p' - 1);
          var after := MatchBracketClass(At(src, s), pat, p + 2, p' - 1);
          FrontierIs(src, s, pat, p + 2, p');
          goOn := !before && after;
        }
      } else {
        CaptureLeads(src, pat, s, p, caps, d);
        CaptureFault(src, pat, s, p, caps, d);
        r := MatchCapture(s, At(pat, p + 1));
        if r.Found? {
          goOn, s', p' := true, r.end, p + 2;
        } else if r.Raised? {
          RaisedSettled(src, pat, s, p, caps, d, BadCapture, caps);
        }
      }
    }

    /** The default case of match, an item at p: where to go on, or the outcome. */
    method PatternItem(pat: Text, s: nat, p: nat) returns (goOn: bool, r: Result, s': nat, p': nat)
      requires Valid() && s <= |src| && p <= |pat| && CapsOk(Caps(), s) && IsItem(pat, p)
      modifies this, capture
      ensures Valid() && (r.Raised? || depth == old(depth))
      ensures goOn ==> s <= s' <= |src| && p < p' <= |pat| && Caps() == old(Caps()) && depth == old(depth)
                       && Leads(src, pat, s, p, Caps(), depth, s', p')
      ensures !goOn ==> Settled(src, pat, s, p, old(Caps()), old(depth), r, Caps())
      ensures FaultFrom(src, pat, s, p, old(Caps()), old(depth))
           == if goOn then FaultFrom(src, pat, s', p', old(Caps()), old(depth)) else FaultOf(r)
      decreases |pat| - p, 1
    {
      hide Settled, Leads, Risky, CapsOk, ItemEnd, Single, NoMatch, CallFault, FaultFrom, QuantFault, GreedyFault, LazyFault, Longest;
      ghost var caps, d := Caps(), depth;
      ItemFaults(src, pat, s, p, caps, d);
      goOn, r, s', p' := false, Fail, s, p;
      var ep := ClassEnd(pat, p);
      if ep == 0 {
        r := Raised(Malformed);
        ItemFault(src, pat, s, p, caps, d, caps);
        return;
      }
      var m := s < |src|;
      if m {
        m := SingleMatch(src[s], pat, p, ep);
      }
      CapsLater(caps, s, s + 1);
      if At(pat, ep) != QUEST {
        OtherFault(src, pat, s, p, ep, caps, d);
      }
      if At(pat, ep) == QUEST {
        QuestFault(src, pat, s, p, ep, caps, d);
        if m {
          r := Match(pat, s + 1, ep + 1);
          FoundMatch(src, pat, s + 1, ep + 1, caps, d + 1, r, Caps());
          OptionTried(src, pat, s, p, ep, caps, d, r, Caps());
        }
        if !m || r.Fail? {
          OptionLeads(src, pat, s, p, ep, caps, d);
          goOn, p' := true, ep + 1;
        }
      } else if At(pat, ep) == STAR {
        r := MaxExpand(pat, s, p, ep, STAR, s);
      } else if At(pat, ep) == PLUS {
        if m {
          r := MaxExpand(pat, s + 1, p, ep, PLUS, s);
        } else {
          PlusSettled(src, pat, s, p, ep, caps, d);
        }
      } else if At(pat, ep) == MINUS {
        r := MinExpand(pat, s, p, ep);
      } else {
        ItemLeads(src, pat, s, p, caps, d);
        if m {
          goOn, s', p' := true, s + 1, ep;
        }
      }
    }

    /** start_capture, for the opening parenthesis at q. */
    method StartCapture(pat: Text, s: nat, p: nat, what: int, ghost q: nat) returns (r: Result)
      requires Valid() && s <= |src| && p <= |pat| && CapsOk(Caps(), s)
      requires At(pat, q) == OPEN && p == Inside(pat, q) && Cap(s, what) == Opened(pat, s, q)
      modifies this, capture
      ensures Valid() && Settled(src, pat, s, q, old(Caps()), old(depth), r, Caps())
      ensures FaultOf(r) == FaultFrom(src, pat, s, q, old(Caps()), old(depth))
      ensures r.Raised? || depth == old(depth)
      decreases |pat| - p, 4
    {
      hide Settled, CapsOk, CallFault, FaultFrom;
      ghost var caps := Caps();
      StartFault(src, pat, s, q, caps, depth);
      if level >= MAXCAPTURES {
        StartFull(src, pat, s, q, caps, depth, Raised(TooManyCaptures), Caps());
        return Raised(TooManyCaptures);
      }
      capture[level] := Cap(s, what);
      level := level + 1;
      assert Caps() == caps + [Cap(s, what)];
      CapsOpened(caps, s, what);
      r := Match(pat, s, p);
      StartSettled(src, pat, s, q, caps, old(depth), r, Caps());
      if r.Fail? {
        FailKeeps(src, pat, s, p, caps + [Cap(s, what)], old(depth) + 1, Caps());
        level := level - 1;
        assert Caps() == caps;
      }
    }

    /** end_capture, for the closing parenthesis before p. */
    method EndCapture(pat: Text, s: nat, p: nat) returns (r: Result)
      requires Valid() && s <= |src| && 0 < p <= |pat| && CapsOk(Caps(), s) && At(pat, p - 1) == CLOSE
      modifies this, capture
      ensures Valid() && Settled(src, pat, s, p - 1, old(Caps()), old(depth), r, Caps())
      ensures FaultOf(r) == FaultFrom(src, pat, s, p - 1, old(Caps()), old(depth))
      ensures r.Raised? || depth == old(depth)
      decreases |pat| - p, 4
    {
      hide Settled, CapsOk, CallFault, FaultFrom;
      ghost var caps := Caps();
      CloseFault(src, pat, s, p - 1, caps, depth);
      var l := CaptureToClose();
      if l < 0 {
        EndFault(src, pat, s, p - 1, caps, depth, Raised(BadCapture), Caps());
        return Raised(BadCapture);
      }
      capture[l] := Cap(capture[l].init, s - capture[l].init);
      ghost var closed := caps[l := Cap(caps[l].init, s - caps[l].init)];
      assert Caps() == closed;
      CapsClosed(caps, s, l);
      r := Match(pat, s, p);
      EndClosed(src, pat, s, p - 1, caps, old(depth), closed, r, Caps());
      if r.Fail? {
        FailKeeps(src, pat, s, p, closed, old(depth) + 1, Caps());
        capture[l] := Cap(capture[l].init, CAP_UNFINISHED);
        assert caps[l].len == CAP_UNFINISHED;
        assert Caps() == caps;
      }
    }

    /** max_expand: as many repetitions as possible come first. s0 is where the item begins. */
    method MaxExpand(pat: Text, s: nat, p: nat, ep: nat, ghost op: nat, ghost s0: nat) returns (r: Result)
      requires Valid() && s <= |src| && p < ep < |pat| && CapsOk(Caps(), s) && Begins(src, pat, s0, p, ep, op, s)
      modifies this, capture
      ensures Valid() && Settled(src, pat, s0, p, old(Caps()), old(depth), r, Caps())
      ensures FaultOf(r) == FaultFrom(src, pat, s0, p, old(Caps()), old(depth))
      ensures r.Raised? || depth == old(depth)
      decreases |pat| - p, 0
    {
      hide Settled, CapsOk, Reps, Single, AllFail, QuantItem, Begins, NoMatch, CallFault, FaultFrom, GreedyFault, Longest;
      ghost var caps, d := Caps(), depth;
      var i: int := 0;
      RepsZero(src, pat, s, p, ep);
      BeginsItem(src, pat, s0, p, ep, op, s);
      GreedyStart(src, pat, s0, p, ep, op, s, caps, d);
      while true
        invariant Valid() && Caps() == caps && depth == d
        invariant 0 <= i && s + i <= |src| && Reps(src, pat, s, p, ep, i)
        decreases |src| - s - i
      {
        var m := s + i < |src|;
        if m {
          m := SingleMatch(src[s + i], pat, p, ep);
        }
        if !m {
          FailsBeyond(src, pat, s, p, ep, caps, i);
          LongestIs(src, pat, s, p, ep, i);
          break;
        }
        RepsNext(src, pat, s, p, ep, i);
        i := i + 1;
      }
      while i >= 0
        invariant FaultFrom(src, pat, s0, p, caps, d) == if i >= 0 then GreedyFault(src, pat, s, p, ep, caps, d, i) else NoFault
        invariant Valid() && Caps() == caps && depth == d && -1 <= i && s + i <= |src|
        invariant AllFail(src, pat, s, p, ep, caps, (i + 1) as nat, -1) && (i >= 0 ==> Reps(src, pat, s, p, ep, i))
      {
        CapsLater(caps, s, s + i);
        r := Match(pat, s + i, ep + 1);
        GreedyNext(src, pat, s, p, ep, caps, d, i);
        FoundMatch(src, pat, s + i, ep + 1, caps, d + 1, r, Caps());
        if r.Found? {
          GreedyFirst(src, pat, s0, p, ep, op, s, caps, d, i, r, Caps());
          return;
        }
        if r.Raised? {
          RaisedRisk(src, pat, s + i, ep + 1, caps, d + 1, r, Caps());
          ExpandRaised(src, pat, s0, p, ep, op, caps, d, r, Caps());
          return;
        }
        FailKeeps(src, pat, s + i, ep + 1, caps, d + 1, Caps());
        FailsBelow(src, pat, s, p, ep, caps, i);
        if i > 0 {
          RepsFewer(src, pat, s, p, ep, i);
        }
        i := i - 1;
      }
      GreedyFails(src, pat, s0, p, ep, op, s, caps, d);
      r := Fail;
    }

    /** min_expand: as few repetitions as possible come first. */
    method MinExpand(pat: Text, s: nat, p: nat, ep: nat) returns (r: Result)
      requires Valid() && s <= |src| && p < ep < |pat| && CapsOk(Caps(), s) && QuantItem(pat, p, ep, MINUS)
      modifies this, capture
      ensures Valid() && Settled(src, pat, s, p, old(Caps()), old(depth), r, Caps())
      ensures FaultOf(r) == FaultFrom(src, pat, s, p, old(Caps()), old(depth))
      ensures r.Raised? || depth == old(depth)
      decreases |pat| - p, 0
    {
      hide Settled, CapsOk, Reps, Single, AllFail, QuantItem, NoMatch, CallFault, FaultFrom, LazyFault;
      ghost var caps, d := Caps(), depth;
      LazyStart(src, pat, s, p, ep, caps, d);
      var t := s;
      RepsZero(src, pat, s, p, ep);
      FailsNone(src, pat, s, p, ep, caps);
      while true
        invariant Valid() && Caps() == caps && depth == d && s <= t <= |src|
        invariant AllFail(src, pat, s, p, ep, caps, 0, t - s) && Reps(src, pat, s, p, ep, t - s)
        invariant FaultFrom(src, pat, s, p, caps, d) == LazyFault(src, pat, t, p, ep, caps, d)
        decreases |src| - t
      {
        CapsLater(caps, s, t);
        r := Match(pat, t, ep + 1);
        LazyNext(src, pat, t, p, ep, caps, d);
        FoundMatch(src, pat, t, ep + 1, caps, d + 1, r, Caps());
        if r.Found? {
          LazyFirst(src, pat, s, p, ep, caps, d, t - s, r, Caps());
          return;
        }
        if r.Raised? {
          RaisedRisk(src, pat, t, ep + 1, caps, d + 1, r, Caps());
          ExpandRaised(src, pat, s, p, ep, MINUS, caps, d, r, Caps());
          return;
        }
        FailKeeps(src, pat, t, ep + 1, caps, d + 1, Caps());
        FailsAbove(src, pat, s, p, ep, caps, t - s);
        var m := t < |src|;
        if m {
          ItemBracket(pat, p, ep, MINUS);
          m := SingleMatch(src[t], pat, p, ep);
        }
        if !m {
          LazyFails(src, pat, s, p, ep, caps, d, t - s);
          return;
        }
        RepsNext(src, pat, s, p, ep, t - s);
        t := t + 1;
      }
    }

    /** check_capture and match_capture: the text of a finished capture once more. A position
        capture, whose length is taken as unsigned, is longer than any subject. */
    method MatchCapture(s: nat, digit: nat) returns (r: Result)
      requires Valid() && s <= |src| && CapsOk(Caps(), s)
      ensures var l := CapIndex(Caps(), digit);
              r == if l < 0 then Raised(BadCapture)
                   else if Repeats(src, Caps()[l], s) then Found(s + Caps()[l].len) else Fail
      ensures r.Found? ==> s <= r.end <= |src|
    {
      var l := digit - 49;
      if l < 0 || l >= level || capture[l].len == CAP_UNFINISHED {
        return Raised(BadCapture);
      }
      assert capture[l] == Caps()[l];
      var c := capture[l];
      if c.len >= 0 && |src| - s >= c.len && src[c.init..c.init + c.len] == src[s..s + c.len] {
        return Found(s + c.len);
      }
      r := Fail;
    }
  }

  lemma OpenCapIs(caps: seq<Cap>, n: nat, l: int)
    requires n <= |caps| && -1 <= l < n && (l >= 0 ==> caps[l].len == CAP_UNFINISHED)
    requires forall j :: l < j < n ==> caps[j].len != CAP_UNFINISHED
    ensures l == OpenCap(caps, n)
  {
    var m := OpenCap(caps, n);
  }

  /** classend: 0 stands for the error of a malformed pattern. */
  method ClassEnd(pat: Text, p: nat) returns (ep: nat)
    requires At(pat, p) != 0
    ensures ep == ItemEnd(pat, p)
  {
    if At(pat, p) == ESC {
      if At(pat, p + 1) == 0 {
        return 0;
      }
      return p + 2;
    } else if At(pat, p) == LBRACK {
      var q := p + 1;
      if At(pat, q) == CARET {
        q := q + 1;
      }
      while true
        invariant BracketEnd(pat, q) == ItemEnd(pat, p)
        decreases if q <= |pat| then |pat| - q else 0
      {
        if At(pat, q) == 0 {
          return 0;
        }
        if At(pat, q) == ESC && At(pat, q + 1) != 0 {
          q := q + 2;
        } else {
          q := q + 1;
        }
        if At(pat, q) == RBRACK {
          return q + 1;
        }
      }
    } else {
      return p + 1;
    }
  }

  /** matchbracketclass */
  method MatchBracketClass(c: nat, pat: Text, p: nat, ec: nat) returns (r: bool)
    ensures r == InBracket(c, pat, p, ec)
  {
    var sig, q := true, p + 1;
    if At(pat, q) == CARET {
      sig := false;
      q := q + 1;
    }
    hide Hits, AnyHit;
    while q < ec
      invariant InBracket(c, pat, p, ec) == (AnyHit(c, Elements(pat, q, ec)) == sig)
      decreases ec - q
    {
      var e;
      var next;
      if At(pat, q) == ESC {
        e, next := Class(At(pat, q + 1)), q + 2;
      } else if At(pat, q + 1) == MINUS && q + 2 < ec {
        e, next := Range(At(pat, q), At(pat, q + 2)), q + 3;
      } else {
        e, next := Range(At(pat, q), At(pat, q)), q + 1;
      }
      AnyHitCons(c, e, Elements(pat, next, ec));
      if Hits(c, e) {
        return sig;
      }
      q := next;
    }
    NoHit(c);
    r := !sig;
  }

  lemma AnyHitCons(c: nat, e: Element, els: seq<Element>)
    ensures AnyHit(c, [e] + els) <==> Hits(c, e) || AnyHit(c, els)
  {
    if Hits(c, e) {
      assert e in [e] + els;
    }
    if AnyHit(c, els) {
      var f :| f in els && Hits(c, f);
      assert f in [e] + els;
    }
    hide Hits;
  }

  lemma NoHit(c: nat)
    ensures !AnyHit(c, [])
  {
  }

  /** singlematch */
  method SingleMatch(c: nat, pat: Text, p: nat, ep: nat) returns (r: bool)
    requires At(pat, p) == LBRACK ==> ep > 0
    ensures r == Single(c, pat, p, ep)
  {
    if At(pat, p) == DOT {
      return true;
    } else if At(pat, p) == ESC {
      return MatchClass(c, At(pat, p + 1));
    } else if At(pat, p) == LBRACK {
      r := MatchBracketClass(c, pat, p, ep - 1);
    } else {
      return At(pat, p) == c;
    }
  }

  /** matchbalance, for the opener and closer at p: 0 if the string is not balanced. */
  method MatchBalance(src: Text, s: nat, pat: Text, p: nat) returns (r: nat)
    requires At(pat, p) != 0 && At(pat, p + 1) != 0 && s <= |src|
    ensures r == BalanceEnd(src, s, At(pat, p), At(pat, p + 1)) && (r != 0 ==> s < r <= |src|)
  {
    if At(src, s) != At(pat, p) {
      return 0;
    }
    var b, e := At(pat, p), At(pat, p + 1);
    var cont, t := 1, s + 1;
    while t < |src|
      invariant s < t && (t <= |src| || t == s + 1)
      invariant cont == Nesting(src, s, t, b, e) && cont > 0
      invariant forall u :: s + 1 <= u <= t ==> Nesting(src, s, u, b, e) != 0
    {
      if src[t] == e {
        cont := cont - 1;
        if cont == 0 {
          ClosedIs(src, s, s + 1, b, e, t + 1);
          return t + 1;
        }
      } else if src[t] == b {
        cont := cont + 1;
      }
      t := t + 1;
    }
    NeverClosed(src, s, s + 1, b, e);
    r := 0;
  }

  lemma {:induction false} ClosedIs(src: Text, s: nat, t: nat, b: nat, e: nat, r: nat)
    requires 0 < t <= r <= |src| && Nesting(src, s, r, b, e) == 0 && forall u :: t <= u < r ==> Nesting(src, s, u, b, e) != 0
    ensures ClosedAt(src, s, t, b, e) == r
    decreases r - t
  {
    if t < r {
      ClosedIs(src, s, t + 1, b, e, r);
    }
  }

  lemma {:induction false} NeverClosed(src: Text, s: nat, t: nat, b: nat, e: nat)
    requires 0 < t && forall u :: t <= u <= |src| ==> Nesting(src, s, u, b, e) != 0
    ensures ClosedAt(src, s, t, b, e) == 0
    decreases if t <= |src| then |src| + 1 - t else 0
  {
    if t <= |src| {
      NeverClosed(src, s, t + 1, b, e);
    }
  }
}
