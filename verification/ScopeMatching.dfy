/** Matching the scope records of a profile log, which may start and stop in the middle of nested scopes. */
module ScopeMatching {
  const STACK_MAX := 64

  datatype Kind = Begin | End | Other

  const NONE := -1

  function Delta(k: Kind): int { if k.Begin? then 1 else if k.End? then -1 else 0 }

  /** The nesting before record `i`. */
  function Depth(ks: seq<Kind>, i: nat): int
    requires i <= |ks|
  {
    if i == 0 then 0 else Depth(ks, i - 1) + Delta(ks[i - 1])
  }

  /** The deepest point below the start among the first `i` records. */
  function Lowest(ks: seq<Kind>, i: nat): int
    requires i <= |ks|
  {
    if i == 0 then 0 else if Depth(ks, i) < Lowest(ks, i - 1) then Depth(ks, i) else Lowest(ks, i - 1)
  }

  // ---- the reference: count brackets forward from the begin --------------------------------------------------

  /** The first position from `i` on at which `open` brackets have been closed, or `NONE`. */
  function Closing(ks: seq<Kind>, i: nat, open: nat): (e: int)
    requires i <= |ks| && open > 0
    ensures e == NONE || i <= e < |ks|
    decreases |ks| - i
  {
    if i == |ks| then NONE
    else if ks[i].Begin? then Closing(ks, i + 1, open + 1)
    else if ks[i].End? && open == 1 then i
    else Closing(ks, i + 1, if ks[i].End? then open - 1 else open)
  }

  /** The end that belongs to the begin at `b`. */
  function EndOf(ks: seq<Kind>, b: nat): int
    requires b < |ks|
  {
    Closing(ks, b + 1, 1)
  }

  // ---- matching by depth ---------------------------------------------------------------------------------------

  /** `e` closes `b`: it comes back to the depth of `b`, and nothing between does. */
  ghost predicate Match(ks: seq<Kind>, b: nat, e: nat) {
    b < e < |ks| && ks[b].Begin? && ks[e].End? && Depth(ks, e + 1) == Depth(ks, b) &&
    forall k :: b < k <= e ==> Depth(ks, k) > Depth(ks, b)
  }

  /** Counting forward from a begin finds exactly the matching end. */
  lemma {:induction false} ClosingMatches(ks: seq<Kind>, b: nat, i: nat, open: nat)
    requires b < i <= |ks| && ks[b].Begin? && open > 0 && Depth(ks, i) == Depth(ks, b) + open
    requires forall k :: b < k <= i ==> Depth(ks, k) > Depth(ks, b)
    ensures var e := Closing(ks, i, open);
      if e == NONE then forall k :: b < k <= |ks| ==> Depth(ks, k) > Depth(ks, b) else Match(ks, b, e)
    decreases |ks| - i
  {
    if i < |ks| {
      assert Depth(ks, i + 1) == Depth(ks, i) + Delta(ks[i]);
      if ks[i].Begin? {
        ClosingMatches(ks, b, i + 1, open + 1);
      } else if !(ks[i].End? && open == 1) {
        ClosingMatches(ks, b, i + 1, if ks[i].End? then open - 1 else open);
      }
    }
  }

  lemma EndOfMatches(ks: seq<Kind>, b: nat)
    requires b < |ks| && ks[b].Begin?
    ensures EndOf(ks, b) == NONE ==> forall e :: !Match(ks, b, e)
    ensures EndOf(ks, b) != NONE ==> Match(ks, b, EndOf(ks, b))
  {
    assert Depth(ks, b + 1) == Depth(ks, b) + 1;
    ClosingMatches(ks, b, b + 1, 1);
  }

  lemma Above(ks: seq<Kind>, b: nat, e: nat, k: nat)
    requires Match(ks, b, e) && k <= |ks|
    ensures b < k <= e ==> Depth(ks, k) > Depth(ks, b)
  {
  }

  lemma MatchUnique(ks: seq<Kind>, b: nat, e: nat, f: nat)
    requires Match(ks, b, e) && Match(ks, b, f)
    ensures e == f
  {
    Above(ks, b, f, e + 1);
    Above(ks, b, e, f + 1);
  }

  // ---- what a stack slot holds -----------------------------------------------------------------------------------

  /** The latest begin before `i` at depth `d`: slots are overwritten by begins and never cleared. */
  function LastBegin(ks: seq<Kind>, i: nat, d: int): (b: int)
    requires i <= |ks|
    ensures b == NONE || 0 <= b < i
  {
    if i == 0 then NONE
    else if ks[i - 1].Begin? && Depth(ks, i - 1) == d then i - 1
    else LastBegin(ks, i - 1, d)
  }

  lemma {:induction false} LastBeginIs(ks: seq<Kind>, i: nat, d: int)
    requires i <= |ks|
    ensures var b := LastBegin(ks, i, d);
      (b != NONE ==> ks[b].Begin? && Depth(ks, b) == d) &&
      forall k :: b < k < i && 0 <= k ==> !(ks[k].Begin? && Depth(ks, k) == d)
  {
    if i > 0 && !(ks[i - 1].Begin? && Depth(ks, i - 1) == d) { LastBeginIs(ks, i - 1, d); }
  }

  /** From the latest begin at depth `d` until an end comes back to it, the depth stays above `d`. */
  lemma {:induction false} StaysAbove(ks: seq<Kind>, b: int, i: nat, d: int, k: nat)
    requires i < |ks| && ks[i].End? && Depth(ks, i + 1) == d && -1 <= b < k <= i
    requires b != NONE ==> Depth(ks, b) == d && ks[b].Begin?
    requires forall j :: b < j < i && 0 <= j ==> !(ks[j].Begin? && Depth(ks, j) == d)
    ensures Depth(ks, k) > d
    decreases i - k
  {
    if k < i {
      StaysAbove(ks, b, i, d, k + 1);
      assert Depth(ks, k + 1) == Depth(ks, k) + Delta(ks[k]);
    }
  }

  /** A slot that was never cleared still holds the right begin: the end matches it, and no other begin. */
  lemma SlotIsMatch(ks: seq<Kind>, i: nat)
    requires i < |ks| && ks[i].End?
    ensures var b := LastBegin(ks, i, Depth(ks, i + 1));
      (b != NONE ==> Match(ks, b, i)) && forall c: nat :: Match(ks, c, i) ==> c == b
  {
    var d := Depth(ks, i + 1);
    var b := LastBegin(ks, i, d);
    LastBeginIs(ks, i, d);
    forall k: nat | b < k <= i ensures Depth(ks, k) > d { StaysAbove(ks, b, i, d, k); }
    forall c: nat | Match(ks, c, i) ensures c == b {
      if b != NONE { Above(ks, c, i, b); }
    }
  }

  /** Which end was found for `b` among the first `i` records. */
  ghost predicate Found(ks: seq<Kind>, i: nat, b: nat, e: int)
    requires i <= |ks|
  {
    if e == NONE then forall f: nat :: f < i ==> !Match(ks, b, f) else 0 <= e < i && Match(ks, b, e)
  }

  /** Every slot that a begin writes or an end reads is inside the stack. */
  ghost predicate WithinStack(ks: seq<Kind>) { forall i :: 0 <= i < |ks| ==> InStack(ks, i) }

  ghost predicate InStack(ks: seq<Kind>, i: nat)
    requires i < |ks|
  {
    && (ks[i].Begin? ==> -STACK_MAX <= Depth(ks, i) < STACK_MAX)
    && (ks[i].End? ==> -STACK_MAX <= Depth(ks, i + 1) < STACK_MAX)
  }

  /** As many begins in a row as the upper half of the stack has slots are within it, and no more. */
  lemma Nested(n: nat)
    ensures WithinStack(seq(n, _ => Begin)) <==> n <= STACK_MAX
  {
    var ks := seq(n, _ => Begin);
    forall i | 0 <= i <= n ensures Depth(ks, i) == i { AllBegins(ks, i); }
    if n > STACK_MAX { assert !InStack(ks, STACK_MAX); }
  }

  lemma {:induction false} AllBegins(ks: seq<Kind>, i: nat)
    requires i <= |ks| && forall j :: 0 <= j < |ks| ==> ks[j].Begin?
    ensures Depth(ks, i) == i
  {
    if i > 0 { AllBegins(ks, i - 1); }
  }

  lemma FoundStep(ks: seq<Kind>, i: nat, b: nat, e: int)
    requires i < |ks| && Found(ks, i, b, e)
    ensures !Match(ks, b, i) ==> Found(ks, i + 1, b, e)
    ensures Match(ks, b, i) ==> Found(ks, i + 1, b, i)
  {
    hide Match;
    if e == NONE && !Match(ks, b, i) {
      forall f: nat | f < i + 1 ensures !Match(ks, b, f) { }
    }
  }

  lemma FoundAll(ks: seq<Kind>, b: nat, e: int)
    requires b < |ks| && ks[b].Begin? && Found(ks, |ks|, b, e)
    ensures e == EndOf(ks, b)
  {
    EndOfMatches(ks, b);
    if e != NONE && EndOf(ks, b) != NONE { MatchUnique(ks, b, e, EndOf(ks, b)); }
  }

  /**
   * First pass: the end of every scope, and the lowest nesting. A record that would reach outside the stack is an
   * overrun; what the source does from there is undefined, and the model stops.
   */
  method FindScopeEnds(ks: seq<Kind>) returns (ends: array<int>, minNesting: int, overrun: bool)
    ensures fresh(ends) && ends.Length == |ks| && (overrun <==> !WithinStack(ks))
    ensures !overrun ==> minNesting == Lowest(ks, |ks|)
    ensures !overrun ==> forall b :: 0 <= b < |ks| ==> ends[b] == if ks[b].Begin? then EndOf(ks, b) else NONE
  {
    overrun := false;
    ends := new int[|ks|](_ => NONE);
    var stack := new int[2 * STACK_MAX](_ => NONE);
    var nesting := 0;
    minNesting := 0;
    for i := 0 to |ks|
      invariant nesting == Depth(ks, i) && minNesting == Lowest(ks, i)
      invariant forall d :: -STACK_MAX <= d < STACK_MAX ==> stack[d + STACK_MAX] == LastBegin(ks, i, d)
      invariant forall b :: 0 <= b < |ks| ==> Found(ks, i, b, ends[b])
      invariant !overrun && forall j :: 0 <= j < i ==> InStack(ks, j)
    {
      forall b | 0 <= b < |ks|
        ensures !Match(ks, b, i) ==> Found(ks, i + 1, b, ends[b])
        ensures Match(ks, b, i) ==> Found(ks, i + 1, b, i)
      {
        FoundStep(ks, i, b, ends[b]);
      }
      match ks[i] {
        case Begin =>
          if !(-STACK_MAX <= nesting < STACK_MAX) {
            assert !InStack(ks, i);
            return ends, minNesting, true;
          }
          assert InStack(ks, i);
          stack[nesting + STACK_MAX] := i;
          nesting := nesting + 1;
        case End =>
          nesting := nesting - 1;
          if nesting < minNesting {
            minNesting := nesting;
          }
          assert nesting == Depth(ks, i + 1) && ks[i].End?;
          if !(-STACK_MAX <= nesting < STACK_MAX) {
            assert !InStack(ks, i);
            return ends, minNesting, true;
          }
          assert InStack(ks, i);
          var slot := stack[nesting + STACK_MAX];
          SlotIsMatch(ks, i);
          if slot != NONE {
            ends[slot] := i;
          }
        case Other =>
          assert InStack(ks, i);
      }
    }
    forall b | 0 <= b < |ks| ensures ends[b] == if ks[b].Begin? then EndOf(ks, b) else NONE {
      if ks[b].Begin? { FoundAll(ks, b, ends[b]); }
    }
  }

  /** The depth at which a record is shown: a begin and its content at the nesting before, an end after it. */
  function Shown(ks: seq<Kind>, i: nat): int
    requires i < |ks|
  {
    (if ks[i].End? then Depth(ks, i + 1) else Depth(ks, i)) - Lowest(ks, |ks|)
  }

  lemma {:induction false} LowestBounds(ks: seq<Kind>, i: nat, k: nat)
    requires k <= i <= |ks|
    ensures Lowest(ks, i) <= Depth(ks, k)
    decreases i
  {
    if k < i { LowestBounds(ks, i - 1, k); }
  }

  /** A scope's two records are shown at the same depth, and its content deeper. */
  lemma MatchedShownAlike(ks: seq<Kind>, b: nat)
    requires b < |ks| && ks[b].Begin? && EndOf(ks, b) != NONE
    ensures Shown(ks, b) == Shown(ks, EndOf(ks, b))
    ensures forall k :: b < k < EndOf(ks, b) ==> Shown(ks, k) > Shown(ks, b)
  {
    EndOfMatches(ks, b);
    var e := EndOf(ks, b);
    forall k | b < k < e ensures Shown(ks, k) > Shown(ks, b) {
      assert Depth(ks, k) > Depth(ks, b) && Depth(ks, k + 1) > Depth(ks, b);
    }
  }

  /** Second pass: the depth at which each record is printed, which is never negative. */
  method DisplayDepths(ks: seq<Kind>, minNesting: int) returns (depths: seq<nat>)
    requires minNesting == Lowest(ks, |ks|)
    ensures |depths| == |ks| && forall i :: 0 <= i < |ks| ==> depths[i] == Shown(ks, i)
  {
    depths := [];
    var nesting := -minNesting;
    for i := 0 to |ks|
      invariant nesting == Depth(ks, i) - minNesting && |depths| == i
      invariant forall k :: 0 <= k < i ==> depths[k] == Shown(ks, k)
    {
      LowestBounds(ks, |ks|, i);
      LowestBounds(ks, |ks|, i + 1);
      match ks[i] {
        case Begin =>
          depths := depths + [nesting];
          nesting := nesting + 1;
        case End =>
          nesting := nesting - 1;
          depths := depths + [nesting];
        case Other =>
          depths := depths + [nesting];
      }
    }
  }
}
