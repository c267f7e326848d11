// What a Lua pattern means: which ways of matching there are, and which one comes
// first (luajit/src/lib_string.c, luajit/src/lj_char.c).

module PatternSpec {

  const ESC := 37        // %
  const OPEN := 40       // (
  const CLOSE := 41      // )
  const DOLLAR := 36     // $
  const STAR := 42       // *
  const PLUS := 43       // +
  const MINUS := 45      // -
  const DOT := 46        // .
  const QUEST := 63      // ?
  const LBRACK := 91     // [
  const RBRACK := 93     // ]
  const CARET := 94      // ^
  const ZERO := 48       // 0
  const BALANCE := 98    // b
  const FRONTIER := 102  // f

  const CAP_UNFINISHED := -1
  const CAP_POSITION := -2
  const MAXCAPTURES := 32

  type Text = seq<nat>

  /** Strings end in a zero byte. */
  function At(t: Text, i: nat): nat { if i < |t| then t[i] else 0 }

  // ------------------------------------------------------------ character classes

  predicate IsDigit(c: nat) { 48 <= c <= 57 }
  predicate IsUpper(c: nat) { 65 <= c <= 90 }
  predicate IsLower(c: nat) { 97 <= c <= 122 }
  predicate IsAlpha(c: nat) { IsUpper(c) || IsLower(c) }
  predicate IsAlnum(c: nat) { IsAlpha(c) || IsDigit(c) }
  predicate IsXdigit(c: nat) { IsDigit(c) || 65 <= c <= 70 || 97 <= c <= 102 }
  predicate IsCntrl(c: nat) { c < 32 || c == 127 }
  predicate IsSpace(c: nat) { 9 <= c <= 13 || c == 32 }
  predicate IsPunct(c: nat) { 33 <= c <= 47 || 58 <= c <= 64 || 91 <= c <= 96 || 123 <= c <= 126 }
  predicate IsGraph(c: nat) { IsAlnum(c) || IsPunct(c) }

  /** The class that a letter stands for, if any: the low five bits select it. */
  predicate HasClass(cl: nat) { 64 <= cl < 128 && cl % 32 in {1, 3, 4, 7, 12, 16, 19, 21, 23, 24} }

  predicate InClass(c: nat, cl: nat) {
    match cl % 32
    case 1 => IsAlpha(c)
    case 3 => IsCntrl(c)
    case 4 => IsDigit(c)
    case 7 => IsGraph(c)
    case 12 => IsLower(c)
    case 16 => IsPunct(c)
    case 19 => IsSpace(c)
    case 21 => IsUpper(c)
    case 23 => IsAlnum(c)
    case 24 => IsXdigit(c)
    case _ => false
  }

  /** match_class: lower-case letters stand for a class, upper-case ones for its complement. */
  predicate MatchClass(c: nat, cl: nat) {
    if HasClass(cl) then (if cl >= 96 then InClass(c, cl) else !InClass(c, cl))
    else if cl == 122 then c == 0
    else if cl == 90 then c != 0
    else cl == c
  }

  // ---------------------------------------------------------------- bracket sets

  datatype Element = Class(cl: nat) | Range(lo: nat, hi: nat)

  predicate Hits(c: nat, e: Element) { if e.Class? then MatchClass(c, e.cl) else e.lo <= c <= e.hi }

  /** The elements of a bracket set from position p up to its closing bracket ec. */
  function Elements(pat: Text, p: nat, ec: nat): seq<Element>
    decreases ec - p
  {
    if p >= ec then []
    else if At(pat, p) == ESC then [Class(At(pat, p + 1))] + Elements(pat, p + 2, ec)
    else if At(pat, p + 1) == MINUS && p + 2 < ec then [Range(At(pat, p), At(pat, p + 2))] + Elements(pat, p + 3, ec)
    else [Range(At(pat, p), At(pat, p))] + Elements(pat, p + 1, ec)
  }

  predicate AnyHit(c: nat, els: seq<Element>) { exists e :: e in els && Hits(c, e) }

  /** The set from the bracket at p up to the closing bracket ec holds c. */
  predicate InBracket(c: nat, pat: Text, p: nat, ec: nat) {
    if At(pat, p + 1) == CARET then !AnyHit(c, Elements(pat, p + 2, ec)) else AnyHit(c, Elements(pat, p + 1, ec))
  }

  /** singlematch: the item from p up to ep matches c. */
  predicate Single(c: nat, pat: Text, p: nat, ep: nat) {
    if At(pat, p) == DOT then true
    else if At(pat, p) == ESC then MatchClass(c, At(pat, p + 1))
    else if At(pat, p) == LBRACK then ep > 0 && InBracket(c, pat, p, ep - 1)
    else At(pat, p) == c
  }

  /** Where the set ends whose elements start at p; 0 if the closing bracket is missing. */
  function BracketEnd(pat: Text, p: nat): (e: nat)
    ensures e != 0 ==> p + 2 <= e <= |pat|
    decreases if p < |pat| then |pat| - p else 0
  {
    if At(pat, p) == 0 then 0
    else
      var q := if At(pat, p) == ESC && At(pat, p + 1) != 0 then p + 2 else p + 1;
      if At(pat, q) == RBRACK then q + 1 else BracketEnd(pat, q)
  }

  /** classend: where the item at p ends; 0 if the pattern is malformed. */
  function ItemEnd(pat: Text, p: nat): (e: nat)
    requires At(pat, p) != 0
    ensures e != 0 ==> p < e <= |pat|
  {
    if At(pat, p) == ESC then if At(pat, p + 1) == 0 then 0 else p + 2
    else if At(pat, p) == LBRACK then BracketEnd(pat, if At(pat, p + 1) == CARET then p + 2 else p + 1)
    else p + 1
  }

  // ------------------------------------------------------------- balanced strings

  /** How many openers b are left unclosed by closers e before t, the one at s included. */
  function Nesting(src: Text, s: nat, t: nat, b: nat, e: nat): int
    decreases t
  {
    if t <= s + 1 then 1
    else Nesting(src, s, t - 1, b, e) + if At(src, t - 1) == e then -1 else if At(src, t - 1) == b then 1 else 0
  }

  /** Where the opener at s is closed for the first time, looking from t on; 0 if nowhere. */
  function ClosedAt(src: Text, s: nat, t: nat, b: nat, e: nat): (r: nat)
    ensures r != 0 ==> t <= r <= |src| && Nesting(src, s, r, b, e) == 0 && forall u :: t <= u < r ==> Nesting(src, s, u, b, e) != 0
    ensures r == 0 ==> forall u :: t <= u <= |src| ==> u == 0 || Nesting(src, s, u, b, e) != 0
    decreases if t <= |src| then |src| + 1 - t else 0
  {
    if t > |src| then 0
    else if t > 0 && Nesting(src, s, t, b, e) == 0 then t
    else ClosedAt(src, s, t + 1, b, e)
  }

  /** matchbalance */
  function BalanceEnd(src: Text, s: nat, b: nat, e: nat): nat {
    if At(src, s) != b then 0 else ClosedAt(src, s, s + 1, b, e)
  }

  // ------------------------------------------------------------------- captures

  datatype Cap = Cap(init: nat, len: int)

  /** The innermost unfinished capture below i, or -1. */
  function OpenCap(caps: seq<Cap>, i: nat): (l: int)
    requires i <= |caps|
    ensures -1 <= l < i
    ensures l >= 0 ==> caps[l].len == CAP_UNFINISHED
    ensures forall j :: l < j < i ==> caps[j].len != CAP_UNFINISHED
  {
    if i == 0 then -1 else if caps[i - 1].len == CAP_UNFINISHED then i - 1 else OpenCap(caps, i - 1)
  }

  /** The capture that %1 to %9 refer to, or -1 if there is none that is finished. */
  function CapIndex(caps: seq<Cap>, digit: nat): int {
    var l := digit - 49;
    if 0 <= l < |caps| && caps[l].len != CAP_UNFINISHED then l else -1
  }

  /** The subject repeats the captured text at s. A position capture has no text, and its
      length, taken as unsigned, exceeds every subject. */
  predicate Repeats(src: Text, c: Cap, s: nat) {
    && c.len >= 0 && s + c.len <= |src| && c.init + c.len <= |src|
    && src[c.init..c.init + c.len] == src[s..s + c.len]
  }

  // --------------------------------------------------------------- ways of matching

  datatype Outcome = None | Some(end: nat, caps: seq<Cap>)

  predicate IsQuant(op: nat) { op == QUEST || op == STAR || op == PLUS || op == MINUS }

  /** The item from p up to ep matches each of the k characters from s. */
  ghost predicate Reps(src: Text, pat: Text, s: nat, p: nat, ep: nat, k: nat) {
    s + k <= |src| && forall i :: s <= i < s + k ==> Single(src[i], pat, p, ep)
  }

  /** How often a quantified item may match. */
  predicate Allowed(op: nat, k: nat) { (op == QUEST ==> k <= 1) && (op == PLUS ==> k >= 1) }

  predicate Frontier(src: Text, s: nat, pat: Text, p: nat, ep: nat) {
    ep > 0 && !InBracket(if s == 0 then 0 else At(src, s - 1), pat, p, ep - 1) && InBracket(At(src, s), pat, p, ep - 1)
  }

  /** Matches the pattern from p against the subject from s, given how often each
      quantified item is to match, in pattern order. */
  ghost function Run(src: Text, pat: Text, s: nat, p: nat, caps: seq<Cap>, reps: seq<nat>): Outcome
    decreases if p <= |pat| then |pat| + 1 - p else 0
  {
    var c, d := At(pat, p), At(pat, p + 1);
    if c == 0 || (c == DOLLAR && d == 0) then
      if reps == [] && (c == 0 || s == |src|) then Some(s, caps) else None
    else if c == OPEN then
      if |caps| >= MAXCAPTURES then None
      else if d == CLOSE then Run(src, pat, s, p + 2, caps + [Cap(s, CAP_POSITION)], reps)
      else Run(src, pat, s, p + 1, caps + [Cap(s, CAP_UNFINISHED)], reps)
    else if c == CLOSE then
      var l := OpenCap(caps, |caps|);
      if l < 0 then None else Run(src, pat, s, p + 1, caps[l := Cap(caps[l].init, s - caps[l].init)], reps)
    else if c == ESC && d == BALANCE then
      if At(pat, p + 2) == 0 || At(pat, p + 3) == 0 then None
      else
        var e := BalanceEnd(src, s, At(pat, p + 2), At(pat, p + 3));
        if e == 0 then None else Run(src, pat, e, p + 4, caps, reps)
    else if c == ESC && d == FRONTIER then
      if At(pat, p + 2) != LBRACK || ItemEnd(pat, p + 2) == 0 then None
      else
        var ep := ItemEnd(pat, p + 2);
        if Frontier(src, s, pat, p + 2, ep) then Run(src, pat, s, ep, caps, reps) else None
    else if c == ESC && IsDigit(d) then
      var l := CapIndex(caps, d);
      if l >= 0 && Repeats(src, caps[l], s) then Run(src, pat, s + caps[l].len, p + 2, caps, reps) else None
    else if ItemEnd(pat, p) == 0 then None
    else
      var ep := ItemEnd(pat, p);
      if IsQuant(At(pat, ep)) then
        if reps != [] && Allowed(At(pat, ep), reps[0]) && Reps(src, pat, s, p, ep, reps[0])
        then Run(src, pat, s + reps[0], ep + 1, caps, reps[1..]) else None
      else if s < |src| && Single(src[s], pat, p, ep) then Run(src, pat, s + 1, ep, caps, reps) else None
  }

  /** Repetitions a come before b: at the first item where they differ, a has more, or
      fewer if the item is lazy. */
  ghost predicate Before(pat: Text, p: nat, a: seq<nat>, b: seq<nat>)
    decreases if p <= |pat| then |pat| + 1 - p else 0
  {
    var c, d := At(pat, p), At(pat, p + 1);
    if c == 0 || (c == DOLLAR && d == 0) then false
    else if c == OPEN then Before(pat, if d == CLOSE then p + 2 else p + 1, a, b)
    else if c == CLOSE then Before(pat, p + 1, a, b)
    else if c == ESC && d == BALANCE then At(pat, p + 2) != 0 && At(pat, p + 3) != 0 && Before(pat, p + 4, a, b)
    else if c == ESC && d == FRONTIER then
      At(pat, p + 2) == LBRACK && ItemEnd(pat, p + 2) != 0 && Before(pat, ItemEnd(pat, p + 2), a, b)
    else if c == ESC && IsDigit(d) then Before(pat, p + 2, a, b)
    else if ItemEnd(pat, p) == 0 then false
    else
      var ep := ItemEnd(pat, p);
      if !IsQuant(At(pat, ep)) then Before(pat, ep, a, b)
      else if a == [] || b == [] then false
      else if a[0] == b[0] then Before(pat, ep + 1, a[1..], b[1..])
      else if At(pat, ep) == MINUS then a[0] < b[0] else a[0] > b[0]
  }

  /** No way of matching works. */
  ghost predicate NoMatch(src: Text, pat: Text, s: nat, p: nat, caps: seq<Cap>) {
    forall reps :: Run(src, pat, s, p, caps, reps).None?
  }

  /** With these repetitions the match succeeds, and with no earlier ones. */
  ghost predicate FirstWith(src: Text, pat: Text, s: nat, p: nat, caps: seq<Cap>, reps: seq<nat>, o: Outcome) {
    && Run(src, pat, s, p, caps, reps) == o
    && forall other :: Before(pat, p, other, reps) ==> Run(src, pat, s, p, caps, other).None?
  }

  /** The first way of matching ends at e with the given captures. */
  ghost predicate FirstMatch(src: Text, pat: Text, s: nat, p: nat, caps: seq<Cap>, e: nat, caps': seq<Cap>) {
    exists reps :: FirstWith(src, pat, s, p, caps, reps, Some(e, caps'))
  }

  // --------------------------------------------------------------- faultless patterns

  /** Captures reduced to whether they are finished. */
  function Shape(caps: seq<Cap>): (r: seq<Cap>)
    ensures |r| == |caps|
  {
    seq(|caps|, i requires 0 <= i < |caps| => Cap(0, if caps[i].len == CAP_UNFINISHED then CAP_UNFINISHED else CAP_POSITION))
  }

  /** From p on the pattern has no fault, given which captures are finished. */
  predicate Sound(pat: Text, p: nat, shape: seq<Cap>)
    decreases if p <= |pat| then |pat| + 1 - p else 0
  {
    var c, d := At(pat, p), At(pat, p + 1);
    if c == 0 || (c == DOLLAR && d == 0) then true
    else if c == OPEN then
      |shape| < MAXCAPTURES
      && if d == CLOSE then Sound(pat, p + 2, shape + [Cap(0, CAP_POSITION)])
         else Sound(pat, p + 1, shape + [Cap(0, CAP_UNFINISHED)])
    else if c == CLOSE then
      var l := OpenCap(shape, |shape|);
      l >= 0 && Sound(pat, p + 1, shape[l := Cap(0, CAP_POSITION)])
    else if c == ESC && d == BALANCE then At(pat, p + 2) != 0 && At(pat, p + 3) != 0 && Sound(pat, p + 4, shape)
    else if c == ESC && d == FRONTIER then
      At(pat, p + 2) == LBRACK && ItemEnd(pat, p + 2) != 0 && Sound(pat, ItemEnd(pat, p + 2), shape)
    else if c == ESC && IsDigit(d) then CapIndex(shape, d) >= 0 && Sound(pat, p + 2, shape)
    else ItemEnd(pat, p) != 0 && Sound(pat, if IsQuant(At(pat, ItemEnd(pat, p))) then ItemEnd(pat, p) + 1 else ItemEnd(pat, p), shape)
  }

  /** How many captures and quantified items follow from p on. */
  function Levels(pat: Text, p: nat): (n: nat)
    decreases if p <= |pat| then |pat| + 1 - p else 0
  {
    var c, d := At(pat, p), At(pat, p + 1);
    if c == 0 || (c == DOLLAR && d == 0) then 0
    else if c == OPEN then 1 + Levels(pat, if d == CLOSE then p + 2 else p + 1)
    else if c == CLOSE then 1 + Levels(pat, p + 1)
    else if c == ESC && d == BALANCE then if At(pat, p + 2) == 0 || At(pat, p + 3) == 0 then 0 else Levels(pat, p + 4)
    else if c == ESC && d == FRONTIER then
      if At(pat, p + 2) != LBRACK || ItemEnd(pat, p + 2) == 0 then 0 else Levels(pat, ItemEnd(pat, p + 2))
    else if c == ESC && IsDigit(d) then Levels(pat, p + 2)
    else if ItemEnd(pat, p) == 0 then 0
    else if IsQuant(At(pat, ItemEnd(pat, p))) then 1 + Levels(pat, ItemEnd(pat, p) + 1)
    else Levels(pat, ItemEnd(pat, p))
  }

  /** No more levels than characters. */
  lemma {:induction false} LevelsBound(pat: Text, p: nat)
    requires p <= |pat|
    ensures Levels(pat, p) <= |pat| - p
    decreases |pat| + 1 - p
  {
    var c, d := At(pat, p), At(pat, p + 1);
    if c == 0 || (c == DOLLAR && d == 0) {
    } else if c == OPEN {
      LevelsBound(pat, if d == CLOSE then p + 2 else p + 1);
    } else if c == CLOSE {
      LevelsBound(pat, p + 1);
    } else if c == ESC && d == BALANCE {
      if At(pat, p + 2) != 0 && At(pat, p + 3) != 0 {
        LevelsBound(pat, p + 4);
      }
    } else if c == ESC && d == FRONTIER {
      if At(pat, p + 2) == LBRACK && ItemEnd(pat, p + 2) != 0 {
        LevelsBound(pat, ItemEnd(pat, p + 2));
      }
    } else if c == ESC && IsDigit(d) {
      LevelsBound(pat, p + 2);
    } else if ItemEnd(pat, p) != 0 {
      var ep := ItemEnd(pat, p);
      LevelsBound(pat, if IsQuant(At(pat, ep)) then ep + 1 else ep);
    }
  }

  // ------------------------------------------------------------------ the order

  /** Of two different ways that work, one comes first. */
  lemma {:induction false} Ordered(src: Text, pat: Text, s: nat, p: nat, caps: seq<Cap>, a: seq<nat>, b: seq<nat>)
    requires Run(src, pat, s, p, caps, a).Some? && Run(src, pat, s, p, caps, b).Some?
    ensures a == b || Before(pat, p, a, b) || Before(pat, p, b, a)
    decreases if p <= |pat| then |pat| + 1 - p else 0
  {
    var c, d := At(pat, p), At(pat, p + 1);
    if c == 0 || (c == DOLLAR && d == 0) {
    } else if c == OPEN {
      if d == CLOSE {
        Ordered(src, pat, s, p + 2, caps + [Cap(s, CAP_POSITION)], a, b);
      } else {
        Ordered(src, pat, s, p + 1, caps + [Cap(s, CAP_UNFINISHED)], a, b);
      }
    } else if c == CLOSE {
      var l := OpenCap(caps, |caps|);
      Ordered(src, pat, s, p + 1, caps[l := Cap(caps[l].init, s - caps[l].init)], a, b);
    } else if c == ESC && d == BALANCE {
      Ordered(src, pat, BalanceEnd(src, s, At(pat, p + 2), At(pat, p + 3)), p + 4, caps, a, b);
    } else if c == ESC && d == FRONTIER {
      Ordered(src, pat, s, ItemEnd(pat, p + 2), caps, a, b);
    } else if c == ESC && IsDigit(d) {
      Ordered(src, pat, s + caps[CapIndex(caps, d)].len, p + 2, caps, a, b);
    } else {
      var ep := ItemEnd(pat, p);
      if !IsQuant(At(pat, ep)) {
        Ordered(src, pat, s + 1, ep, caps, a, b);
      } else if a[0] == b[0] {
        Ordered(src, pat, s + a[0], ep + 1, caps, a[1..], b[1..]);
        assert a == [a[0]] + a[1..] && b == [b[0]] + b[1..];
      }
    }
  }

  /** There is only one first match. */
  lemma FirstUnique(src: Text, pat: Text, s: nat, p: nat, caps: seq<Cap>, e: nat, c: seq<Cap>, f: nat, d: seq<Cap>)
    requires FirstMatch(src, pat, s, p, caps, e, c) && FirstMatch(src, pat, s, p, caps, f, d)
    ensures e == f && c == d && !NoMatch(src, pat, s, p, caps)
  {
    hide Run, Before;
    var a :| FirstWith(src, pat, s, p, caps, a, Some(e, c));
    var b :| FirstWith(src, pat, s, p, caps, b, Some(f, d));
    Ordered(src, pat, s, p, caps, a, b);
  }
}
