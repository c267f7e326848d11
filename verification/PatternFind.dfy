// Searching for a pattern or a plain string (luajit/src/lib_string.c).

module PatternFind {
  import opened PatternSpec
  import opened PatternError
  import opened PatternMatch

  /** A match never ends before it starts. */
  lemma {:induction false} RunForward(src: Text, pat: Text, s: nat, p: nat, caps: seq<Cap>, reps: seq<nat>)
    requires Run(src, pat, s, p, caps, reps).Some?
    ensures s <= Run(src, pat, s, p, caps, reps).end
    decreases if p <= |pat| then |pat| + 1 - p else 0
  {
    var c, d := At(pat, p), At(pat, p + 1);
    if c == 0 || (c == DOLLAR && d == 0) {
    } else if c == OPEN {
      if d == CLOSE {
        RunForward(src, pat, s, p + 2, caps + [Cap(s, CAP_POSITION)], reps);
      } else {
        RunForward(src, pat, s, p + 1, caps + [Cap(s, CAP_UNFINISHED)], reps);
      }
    } else if c == CLOSE {
      var l := OpenCap(caps, |caps|);
      RunForward(src, pat, s, p + 1, caps[l := Cap(caps[l].init, s - caps[l].init)], reps);
    } else if c == ESC && d == BALANCE {
      RunForward(src, pat, BalanceEnd(src, s, At(pat, p + 2), At(pat, p + 3)), p + 4, caps, reps);
    } else if c == ESC && d == FRONTIER {
      RunForward(src, pat, s, ItemEnd(pat, p + 2), caps, reps);
    } else if c == ESC && IsDigit(d) {
      RunForward(src, pat, s + caps[CapIndex(caps, d)].len, p + 2, caps, reps);
    } else {
      var ep := ItemEnd(pat, p);
      if IsQuant(At(pat, ep)) {
        RunForward(src, pat, s + reps[0], ep + 1, caps, reps[1..]);
      } else {
        RunForward(src, pat, s + 1, ep, caps, reps);
      }
    }
  }

  lemma FirstForward(src: Text, pat: Text, s: nat, p: nat, caps: seq<Cap>, e: nat, caps': seq<Cap>)
    requires FirstMatch(src, pat, s, p, caps, e, caps')
    ensures s <= e
  {
    hide Run, Before;
    var reps :| FirstWith(src, pat, s, p, caps, reps, Some(e, caps'));
    RunForward(src, pat, s, p, caps, reps);
  }

  /** No match starts from lo up to but excluding hi. */
  ghost predicate NoStart(src: Text, pat: Text, p: nat, lo: nat, hi: nat) {
    forall u :: lo <= u < hi ==> NoMatch(src, pat, u, p, [])
  }

  /** The leftmost start from lo on that matches, with the first way of matching there. */
  ghost predicate Leftmost(src: Text, pat: Text, p: nat, lo: nat, start: nat, e: nat, caps: seq<Cap>) {
    && lo <= start <= e <= |src|
    && NoStart(src, pat, p, lo, start)
    && FirstMatch(src, pat, start, p, [], e, caps)
  }

  /** There is only one leftmost match. */
  lemma LeftmostUnique(src: Text, pat: Text, p: nat, lo: nat, s: nat, e: nat, c: seq<Cap>, t: nat, f: nat, d: seq<Cap>)
    requires Leftmost(src, pat, p, lo, s, e, c) && Leftmost(src, pat, p, lo, t, f, d)
    ensures s == t && e == f && c == d
  {
    hide NoMatch, FirstMatch;
    FirstUnique(src, pat, s, p, [], e, c, e, c);
    FirstUnique(src, pat, t, p, [], f, d, f, d);
    if s == t {
      FirstUnique(src, pat, s, p, [], e, c, f, d);
    }
  }

  /** No attempt from lo up to but excluding hi raises an error. */
  ghost predicate Quiet(src: Text, pat: Text, p: nat, lo: nat, hi: nat) {
    forall u :: lo <= u < hi ==> CallFault(src, pat, u, p, [], 0).NoFault?
  }

  /** The attempts before start fail without an error, and the one at start raises error e. */
  ghost predicate FaultsFirst(src: Text, pat: Text, p: nat, lo: nat, start: nat, e: Error) {
    && lo <= start && NoStart(src, pat, p, lo, start) && Quiet(src, pat, p, lo, start)
    && CallFault(src, pat, start, p, [], 0) == Fault(e)
  }

  lemma QuietMore(src: Text, pat: Text, p: nat, lo: nat, hi: nat)
    requires Quiet(src, pat, p, lo, hi) && CallFault(src, pat, hi, p, [], 0).NoFault?
    ensures Quiet(src, pat, p, lo, hi + 1)
  {
    hide CallFault;
  }

  lemma NoStartMore(src: Text, pat: Text, p: nat, lo: nat, hi: nat)
    requires NoStart(src, pat, p, lo, hi) && NoMatch(src, pat, hi, p, [])
    ensures NoStart(src, pat, p, lo, hi + 1)
  {
    hide NoMatch;
  }

  lemma FreshCaps(s: nat)
    ensures CapsOk([], s)
  {
  }

  /** What one attempt at a start, with no captures yet, establishes. */
  lemma Attempt(src: Text, pat: Text, s: nat, p: nat, lo: nat, r: Result, caps: seq<Cap>)
    requires lo <= s && NoStart(src, pat, p, lo, s) && Settled(src, pat, s, p, [], 1, r, caps)
    requires Quiet(src, pat, p, lo, s) && FaultOf(r) == CallFault(src, pat, s, p, [], 0)
    ensures match r
            case Fail => NoStart(src, pat, p, lo, s + 1)
            case Found(e) => Leftmost(src, pat, p, lo, s, e, caps)
            case Raised(e) => Risky(pat, p, [], 1) && FaultsFirst(src, pat, p, lo, s, e)
    ensures !r.Raised? ==> Quiet(src, pat, p, lo, s + 1)
  {
    hide NoMatch, FirstMatch, Risky, CapsOk, NoStart, CallFault, Quiet;
    if !r.Raised? {
      QuietMore(src, pat, p, lo, s);
    }
    match r
    case Fail => NoStartMore(src, pat, p, lo, s);
    case Found(e) => FirstForward(src, pat, s, p, [], e, caps);
    case Raised(_) =>
  }

  /** Where a pattern begins, behind its anchor. */
  function Body(pat: Text): nat { if At(pat, 0) == CARET then 1 else 0 }

  /** The pattern search of str_find_aux: from init on, or at init only if the pattern is
      anchored. */
  method Search(ms: MatchState, pat: Text, init: nat) returns (start: nat, r: Result)
    requires ms.Valid() && init <= |ms.src|
    modifies ms, ms.capture
    ensures ms.Valid()
    ensures match r
            case Fail => NoStart(ms.src, pat, Body(pat), init, if At(pat, 0) == CARET then init + 1 else |ms.src| + 1)
            case Found(e) => Leftmost(ms.src, pat, Body(pat), init, start, e, ms.Caps())
                             && (At(pat, 0) == CARET ==> start == init)
            case Raised(e) => Risky(pat, Body(pat), [], 1) && FaultsFirst(ms.src, pat, Body(pat), init, start, e)
    ensures !r.Raised? ==> Quiet(ms.src, pat, Body(pat), init, start + 1)
  {
    hide NoMatch, FirstMatch, Risky, CapsOk, NoStart, Leftmost, Settled, Quiet, CallFault, FaultsFirst;
    var anchor := At(pat, 0) == CARET;
    var p := if anchor then 1 else 0;
    start := init;
    NoStartYet(ms.src, pat, p, init);
    while true
      invariant ms.Valid() && init <= start <= |ms.src| && NoStart(ms.src, pat, p, init, start)
      invariant Quiet(ms.src, pat, p, init, start)
      invariant anchor ==> start == init
      decreases |ms.src| - start
    {
      ms.level, ms.depth := 0, 0;
      FreshCaps(start);
      assert ms.Caps() == [];
      r := ms.Match(pat, start, p);
      Attempt(ms.src, pat, start, p, init, r, ms.Caps());
      if !r.Fail? || start == |ms.src| || anchor {
        return;
      }
      start := start + 1;
    }
  }

  lemma NoStartYet(src: Text, pat: Text, p: nat, lo: nat)
    ensures NoStart(src, pat, p, lo, lo) && Quiet(src, pat, p, lo, lo)
  {
  }

  /** One step of string.gmatch: the leftmost match from pos on, and where to look for the
      next one. */
  method GmatchNext(ms: MatchState, pat: Text, pos: nat) returns (start: nat, r: Result, pos': nat)
    requires ms.Valid()
    modifies ms, ms.capture
    ensures ms.Valid()
    ensures match r
            case Fail => NoStart(ms.src, pat, 0, pos, |ms.src| + 1)
            case Found(e) => Leftmost(ms.src, pat, 0, pos, start, e, ms.Caps()) && pos < pos' && e <= pos' <= e + 1
            case Raised(e) => Risky(pat, 0, [], 1) && FaultsFirst(ms.src, pat, 0, pos, start, e)
  {
    hide NoMatch, FirstMatch, Risky, CapsOk, NoStart, Settled, Quiet, CallFault, FaultsFirst;
    start, pos', r := pos, pos, Fail;
    NoStartYet(ms.src, pat, 0, pos);
    while start <= |ms.src|
      invariant ms.Valid() && pos <= start && (start <= |ms.src| + 1 || start == pos) && NoStart(ms.src, pat, 0, pos, start)
      invariant r.Fail? && Quiet(ms.src, pat, 0, pos, start)
    {
      ms.level, ms.depth := 0, 0;
      FreshCaps(start);
      assert ms.Caps() == [];
      r := ms.Match(pat, start, 0);
      Attempt(ms.src, pat, start, 0, pos, r, ms.Caps());
      if r.Found? {
        pos' := if r.end == start then r.end + 1 else r.end;
        return;
      }
      if r.Raised? {
        return;
      }
      start := start + 1;
    }
    NoStartBeyond(ms.src, pat, 0, pos, start);
  }

  lemma NoStartBeyond(src: Text, pat: Text, p: nat, lo: nat, hi: nat)
    requires NoStart(src, pat, p, lo, hi) && (hi > |src|)
    ensures NoStart(src, pat, p, lo, |src| + 1)
  {
    hide NoMatch;
  }

  /** A pattern without faults and shorter than the nesting limit raises no error. */
  lemma ShortSoundSafe(pat: Text, p: nat)
    requires p <= |pat| < MAX_XLEVEL && Sound(pat, p, [])
    ensures !Risky(pat, p, [], 1)
  {
    LevelsBound(pat, p);
    assert Shape([]) == [];
  }

  // ---------------------------------------------------------------- errors at the start

  /** A malformed first item, and a back reference in front of all captures. */
  lemma FirstItemFault(src: Text, pat: Text, s: nat, p: nat)
    ensures IsItem(pat, p) && ItemEnd(pat, p) == 0 ==> CallFault(src, pat, s, p, [], 0) == Fault(Malformed)
    ensures At(pat, p) == ESC && IsDigit(At(pat, p + 1)) ==> CallFault(src, pat, s, p, [], 0) == Fault(BadCapture)
  {
  }

  /** One parenthesis more than there may be captures. */
  lemma {:induction false} ManyOpens(src: Text, pat: Text, s: nat, p: nat, caps: seq<Cap>, d: nat)
    requires |caps| <= MAXCAPTURES && d + MAXCAPTURES - |caps| < MAX_XLEVEL
    requires forall q :: p <= q <= p + MAXCAPTURES - |caps| ==> At(pat, q) == OPEN
    ensures CallFault(src, pat, s, p, caps, d) == Fault(TooManyCaptures)
    decreases MAXCAPTURES - |caps|
  {
    CallFaultIs(src, pat, s, p, caps, d);
    StartFault(src, pat, s, p, caps, d + 1);
    if |caps| < MAXCAPTURES {
      assert At(pat, p + 1) == OPEN;
      ManyOpens(src, pat, s, p + 1, caps + [Opened(pat, s, p)], d + 1);
    }
    hide CallFault, FaultFrom;
  }

  /** As many repetitions in a row as calls may nest. */
  lemma {:induction false} ManyStars(src: Text, pat: Text, s: nat, p: nat, caps: seq<Cap>, d: nat)
    requires d <= MAX_XLEVEL
    requires forall i :: 0 <= i < MAX_XLEVEL - d ==> At(pat, p + 2 * i) == DOT && At(pat, p + 2 * i + 1) == STAR
    ensures CallFault(src, pat, s, p, caps, d) == Fault(TooComplex)
    decreases MAX_XLEVEL - d
  {
    CallFaultIs(src, pat, s, p, caps, d);
    if d < MAX_XLEVEL {
      assert At(pat, p + 2 * 0) == DOT && At(pat, p + 2 * 0 + 1) == STAR;
      GreedyStart(src, pat, s, p, p + 1, STAR, s, caps, d + 1);
      var k := Longest(src, pat, s, p, p + 1);
      GreedyNext(src, pat, s, p, p + 1, caps, d + 1, k);
      forall i | 0 <= i < MAX_XLEVEL - (d + 1)
        ensures At(pat, p + 2 + 2 * i) == DOT && At(pat, p + 2 + 2 * i + 1) == STAR
      {
        assert At(pat, p + 2 * (i + 1)) == DOT && At(pat, p + 2 * (i + 1) + 1) == STAR;
      }
      ManyStars(src, pat, s + k, p + 2, caps, d + 1);
    }
    hide CallFault, FaultFrom, GreedyFault, Longest;
  }

  // ------------------------------------------------------------------- plain search

  /** The plain string occurs at i. */
  predicate Occurs(hay: Text, needle: Text, i: nat) {
    i + |needle| <= |hay| && hay[i..i + |needle|] == needle
  }

  /** memchr: the first c from lo up to hi, or -1. */
  method IndexOf(hay: Text, c: nat, lo: nat, hi: nat) returns (i: int)
    requires lo <= hi <= |hay|
    ensures i >= 0 ==> lo <= i < hi && hay[i] == c && forall j :: lo <= j < i ==> hay[j] != c
    ensures i < 0 ==> forall j :: lo <= j < hi ==> hay[j] != c
  {
    i := lo;
    while i < hi
      invariant lo <= i <= hi && forall j :: lo <= j < i ==> hay[j] != c
    {
      if hay[i] == c {
        return;
      }
      i := i + 1;
    }
    i := -1;
  }

  lemma OccursHead(hay: Text, needle: Text, i: nat)
    requires needle != []
    ensures Occurs(hay, needle, i)
        <==> i + |needle| <= |hay| && hay[i] == needle[0] && hay[i + 1..i + |needle|] == needle[1..]
  {
    if i + |needle| <= |hay| {
      assert hay[i..i + |needle|][1..] == hay[i + 1..i + |needle|];
      assert needle == [needle[0]] + needle[1..];
      assert hay[i..i + |needle|] == [hay[i]] + hay[i + 1..i + |needle|];
    }
  }

  /** lmemfind: the first occurrence of a plain string, or -1. */
  method PlainFind(hay: Text, needle: Text) returns (i: int)
    ensures i >= 0 ==> Occurs(hay, needle, i) && forall j: nat :: j < i ==> !Occurs(hay, needle, j)
    ensures i < 0 ==> i == -1 && forall j: nat :: !Occurs(hay, needle, j)
  {
    if |needle| == 0 {
      return 0;
    } else if |needle| > |hay| {
      return -1;
    }
    var s1, l1 := 0, |hay| - (|needle| - 1);
    while l1 > 0
      invariant 0 <= s1 && 0 <= l1 && s1 + l1 == |hay| - (|needle| - 1)
      invariant forall j: nat :: j < s1 ==> !Occurs(hay, needle, j)
      decreases l1
    {
      var init := IndexOf(hay, needle[0], s1, s1 + l1);
      forall j: nat | s1 <= j < (if init >= 0 then init else |hay| + 1)
        ensures !Occurs(hay, needle, j)
      {
        OccursHead(hay, needle, j);
      }
      if init < 0 {
        return -1;
      }
      OccursHead(hay, needle, init);
      if hay[init + 1..init + |needle|] == needle[1..] {
        return init;
      }
      l1 := l1 - (init + 1 - s1);
      s1 := init + 1;
    }
    i := -1;
  }
}
