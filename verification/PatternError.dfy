// Which patterns make the matcher raise an error, and which error it is
// (luajit/src/lib_string.c).

module PatternError {
  import opened PatternSpec

  datatype Error = TooComplex | Malformed | BadCapture | TooManyCaptures

  datatype Fault = NoFault | Fault(error: Error)

  /** LJ_MAX_XLEVEL */
  const MAX_XLEVEL := 200

  /** The error of a call of match for p at s, made at call depth d. */
  ghost function CallFault(src: Text, pat: Text, s: nat, p: nat, caps: seq<Cap>, d: nat): Fault
    decreases if p <= |pat| then |pat| + 1 - p else 0, 3, 0
  {
    if d + 1 > MAX_XLEVEL then Fault(TooComplex) else FaultFrom(src, pat, s, p, caps, d + 1)
  }

  /** The error that going on from p at s within a call at depth d leads to. Alternatives are
      tried in order, the next one only if there is no match with the one before. */
  ghost function FaultFrom(src: Text, pat: Text, s: nat, p: nat, caps: seq<Cap>, d: nat): Fault
    decreases if p <= |pat| then |pat| + 1 - p else 0, 2, 0
  {
    var c, c' := At(pat, p), At(pat, p + 1);
    if c == 0 || (c == DOLLAR && c' == 0) then NoFault
    else if c == OPEN then
      if |caps| >= MAXCAPTURES then Fault(TooManyCaptures)
      else if c' == CLOSE then CallFault(src, pat, s, p + 2, caps + [Cap(s, CAP_POSITION)], d)
      else CallFault(src, pat, s, p + 1, caps + [Cap(s, CAP_UNFINISHED)], d)
    else if c == CLOSE then
      var l := OpenCap(caps, |caps|);
      if l < 0 then Fault(BadCapture)
      else CallFault(src, pat, s, p + 1, caps[l := Cap(caps[l].init, s - caps[l].init)], d)
    else if c == ESC && c' == BALANCE then
      if At(pat, p + 2) == 0 || At(pat, p + 3) == 0 then Fault(Malformed)
      else
        var e := BalanceEnd(src, s, At(pat, p + 2), At(pat, p + 3));
        if e == 0 then NoFault else FaultFrom(src, pat, e, p + 4, caps, d)
    else if c == ESC && c' == FRONTIER then
      if At(pat, p + 2) != LBRACK || ItemEnd(pat, p + 2) == 0 then Fault(Malformed)
      else if Frontier(src, s, pat, p + 2, ItemEnd(pat, p + 2)) then FaultFrom(src, pat, s, ItemEnd(pat, p + 2), caps, d)
      else NoFault
    else if c == ESC && IsDigit(c') then
      var l := CapIndex(caps, c');
      if l < 0 then Fault(BadCapture)
      else if Repeats(src, caps[l], s) then FaultFrom(src, pat, s + caps[l].len, p + 2, caps, d)
      else NoFault
    else if ItemEnd(pat, p) == 0 then Fault(Malformed)
    else QuantFault(src, pat, s, p, ItemEnd(pat, p), caps, d)
  }

  /** The item from p up to ep, with its quantifier if it has one. */
  ghost function QuantFault(src: Text, pat: Text, s: nat, p: nat, ep: nat, caps: seq<Cap>, d: nat): Fault
    requires p < ep <= |pat|
    decreases |pat| + 1 - p, 1, 0
  {
    var m := s < |src| && Single(src[s], pat, p, ep);
    var op := At(pat, ep);
    if op == QUEST then
      var f := if m then CallFault(src, pat, s + 1, ep + 1, caps, d) else NoFault;
      if f.Fault? then f
      else if m && !NoMatch(src, pat, s + 1, ep + 1, caps) then NoFault
      else FaultFrom(src, pat, s, ep + 1, caps, d)
    else if op == STAR then GreedyFault(src, pat, s, p, ep, caps, d, Longest(src, pat, s, p, ep))
    else if op == PLUS then
      if m then GreedyFault(src, pat, s + 1, p, ep, caps, d, Longest(src, pat, s + 1, p, ep)) else NoFault
    else if op == MINUS then LazyFault(src, pat, s, p, ep, caps, d)
    else if m then FaultFrom(src, pat, s + 1, ep, caps, d)
    else NoFault
  }

  /** How many characters from s on the item matches. */
  function Longest(src: Text, pat: Text, s: nat, p: nat, ep: nat): nat
    decreases if s <= |src| then |src| - s else 0
  {
    if s < |src| && Single(src[s], pat, p, ep) then 1 + Longest(src, pat, s + 1, p, ep) else 0
  }

  /** max_expand with k repetitions and fewer. */
  ghost function GreedyFault(src: Text, pat: Text, s: nat, p: nat, ep: nat, caps: seq<Cap>, d: nat, k: nat): Fault
    requires p < ep <= |pat|
    decreases |pat| + 1 - p, 0, k
  {
    var f := CallFault(src, pat, s + k, ep + 1, caps, d);
    if f.Fault? then f
    else if !NoMatch(src, pat, s + k, ep + 1, caps) || k == 0 then NoFault
    else GreedyFault(src, pat, s, p, ep, caps, d, k - 1)
  }

  /** min_expand from s on. */
  ghost function LazyFault(src: Text, pat: Text, s: nat, p: nat, ep: nat, caps: seq<Cap>, d: nat): Fault
    requires p < ep <= |pat|
    decreases |pat| + 1 - p, 0, if s <= |src| then |src| - s else 0
  {
    var f := CallFault(src, pat, s, ep + 1, caps, d);
    if f.Fault? then f
    else if !NoMatch(src, pat, s, ep + 1, caps) || !(s < |src| && Single(src[s], pat, p, ep)) then NoFault
    else LazyFault(src, pat, s + 1, p, ep, caps, d)
  }

  lemma {:induction false} LongestIs(src: Text, pat: Text, s: nat, p: nat, ep: nat, k: nat)
    requires Reps(src, pat, s, p, ep, k) && !(s + k < |src| && Single(src[s + k], pat, p, ep))
    ensures Longest(src, pat, s, p, ep) == k
    decreases k
  {
    if k > 0 {
      LongestIs(src, pat, s + 1, p, ep, k - 1);
    }
  }
}
