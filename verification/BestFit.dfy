/** Why the two search loops of the tree allocator end on a least fitting size. */
module BestFit {
  import opened Words
  import opened Tries

  /** No size of `t` exceeds `s`. */
  ghost predicate AtMost(t: Trie, s: nat) {
    forall r: nat :: Has(t, r) ==> r <= s
  }

  /** All sizes of `t` are at least `b`. */
  ghost predicate AtLeast(t: Trie, b: nat) {
    forall r: nat :: Has(t, r) ==> b <= r
  }

  /** The candidate after a node has been looked at (0 stands for no candidate). */
  function Better(best: nat, size: nat, nb: nat): nat {
    if size >= nb && (best == 0 || size < best) then size else best
  }

  /**
   * A fitting size `s` is still accounted for: the candidate is no larger, or `s` lies in the subtree being
   * descended, or the deepest untaken right subtree holds `s` or only sizes up to `s`.
   */
  ghost predicate Covered(s: nat, best: nat, cur: Trie, rst: Trie) {
    || 0 < best <= s
    || Has(cur, s)
    || (rst.Node? && (Has(rst, s) || AtMost(rst, s)))
  }

  function NextRight(cur: Trie, right: bool, rst: Trie): Trie
    requires cur.Node?
  {
    if !right && cur.right.Node? then cur.right else rst
  }

  lemma DescendStep(cur: Trie, lo: nat, k: nat, nb: nat, best: nat, rst: Trie, s: nat)
    requires cur.Node? && WF(cur, lo, k) && lo <= nb < lo + Pow2(k) && cur.size != nb && k > 0
    requires AtLeast(rst, lo + Pow2(k))
    requires 0 < nb <= s && Covered(s, best, cur, rst)
    ensures var right := GoesRight(lo, k, nb);
            Covered(s, Better(best, cur.size, nb), Child(cur, right), NextRight(cur, right, rst))
  {
    Pow2Step(k - 1);
    hide Pow2;
    var best' := Better(best, cur.size, nb);
    if 0 < best <= s || cur.size == s {
      assert 0 < best' <= s;
    } else if GoesRight(lo, k, nb) {
      if Has(cur.left, s) { SizeInRange(cur.left, lo, k - 1, s); }
    } else if cur.right.Node? && !Has(cur.left, s) && !Has(cur.right, s) {
      assert Has(rst, rst.size);
      forall r: nat | Has(cur.right, r) ensures r <= s {
        SizeInRange(cur.right, lo + Pow2(k - 1), k - 1, r);
      }
      assert AtMost(cur.right, s);
    } else {
      assert Has(cur.left, s) || Has(cur.right, s) || cur.right == Nil;
    }
  }

  lemma NextRightAbove(cur: Trie, lo: nat, k: nat, nb: nat, rst: Trie)
    requires cur.Node? && WF(cur, lo, k) && lo <= nb < lo + Pow2(k) && k > 0
    requires AtLeast(rst, lo + Pow2(k))
    ensures AtLeast(NextRight(cur, GoesRight(lo, k, nb), rst), Half(lo, k, nb) + Pow2(k - 1))
  {
    Pow2Step(k - 1);
    forall r: nat | Has(cur.right, r) ensures lo + Pow2(k - 1) <= r {
      SizeInRange(cur.right, lo + Pow2(k - 1), k - 1, r);
    }
  }

  /** The candidate is no larger than `s`, or the subtree on the leftmost path still bounds it. */
  ghost predicate Bounded(s: nat, best: nat, cur: Trie) {
    0 < best <= s || (cur.Node? && (Has(cur, s) || AtMost(cur, s)))
  }

  function Leftmost(t: Trie): Trie
    requires t.Node?
  {
    if t.left.Node? then t.left else t.right
  }

  lemma LeftmostStep(cur: Trie, lo: nat, k: nat, nb: nat, best: nat, s: nat)
    requires cur.Node? && WF(cur, lo, k)
    requires AtLeast(cur, nb) || 0 < best == nb
    requires 0 < nb <= s && Bounded(s, best, cur)
    ensures Bounded(s, Better(best, cur.size, nb), Leftmost(cur))
  {
    assert Has(cur, cur.size);
    if 0 < best <= s {
    } else if cur.size <= s {
    } else if cur.left.Node? && Has(cur.right, s) {
      SizeInRange(cur.right, lo + Pow2(k - 1), k - 1, s);
      forall r: nat | Has(cur.left, r) ensures r <= s {
        SizeInRange(cur.left, lo, k - 1, r);
      }
      assert AtMost(cur.left, s);
    } else {
      assert Has(cur, s);
      assert Has(cur.left, s) || Has(cur.right, s);
      assert Has(Leftmost(cur), s);
    }
  }

  lemma LeftmostPart(cur: Trie, lo: nat, k: nat, nb: nat) returns (lo': nat, k': nat)
    requires cur.Node? && WF(cur, lo, k)
    ensures WF(Leftmost(cur), lo', k')
    ensures AtLeast(cur, nb) ==> AtLeast(Leftmost(cur), nb)
    ensures forall s: nat :: Has(Leftmost(cur), s) ==> Has(cur, s)
  {
    forall s: nat | Has(Leftmost(cur), s) ensures Has(cur, s) {}
    if cur.left.Node? {
      lo', k' := lo, k - 1;
    } else if k > 0 {
      lo', k' := lo + Pow2(k - 1), k - 1;
    } else {
      lo', k' := lo, k;
    }
  }

  // ---- all sizes at once -------------------------------------------------------------------------------

  /** Every fitting size of `t` is accounted for while descending. */
  ghost predicate CoveredAll(t: Trie, nb: nat, best: nat, cur: Trie, rst: Trie) {
    forall s: nat :: Has(t, s) && s >= nb ==> Covered(s, best, cur, rst)
  }

  ghost predicate BoundedAll(t: Trie, nb: nat, best: nat, cur: Trie) {
    forall s: nat :: Has(t, s) && s >= nb ==> Bounded(s, best, cur)
  }

  lemma DescendAll(t: Trie, cur: Trie, lo: nat, k: nat, nb: nat, best: nat, rst: Trie)
    requires cur.Node? && WF(cur, lo, k) && lo <= nb < lo + Pow2(k) && cur.size != nb && 0 < nb
    requires AtLeast(rst, lo + Pow2(k)) && CoveredAll(t, nb, best, cur, rst)
    ensures k > 0
    ensures var right := GoesRight(lo, k, nb);
            && CoveredAll(t, nb, Better(best, cur.size, nb), Child(cur, right), NextRight(cur, right, rst))
            && AtLeast(NextRight(cur, right, rst), Half(lo, k, nb) + Pow2(k - 1))
  {
    hide Covered, Has, AtLeast, AtMost;
    if k == 0 { Pow2Zero(); assert false; }
    NextRightAbove(cur, lo, k, nb, rst);
    var right := GoesRight(lo, k, nb);
    forall s: nat | Has(t, s) && s >= nb
      ensures Covered(s, Better(best, cur.size, nb), Child(cur, right), NextRight(cur, right, rst))
    {
      DescendStep(cur, lo, k, nb, best, rst, s);
    }
  }

  /** The descent has run out of nodes: the deepest untaken right subtree bounds what is left. */
  lemma DescentEnds(t: Trie, nb: nat, best: nat, rst: Trie)
    requires CoveredAll(t, nb, best, Nil, rst)
    ensures BoundedAll(t, nb, best, rst)
  {
  }

  lemma ExactFit(t: Trie, nb: nat, cur: Trie)
    requires 0 < nb
    ensures BoundedAll(t, nb, nb, cur)
  {
  }

  lemma LeftmostAll(t: Trie, cur: Trie, lo: nat, k: nat, nb: nat, best: nat)
    requires cur.Node? && WF(cur, lo, k) && 0 < nb
    requires AtLeast(cur, nb) || best == nb
    requires BoundedAll(t, nb, best, cur)
    ensures BoundedAll(t, nb, Better(best, cur.size, nb), Leftmost(cur))
  {
    hide Bounded, Has, AtLeast, AtMost;
    forall s: nat | Has(t, s) && s >= nb ensures Bounded(s, Better(best, cur.size, nb), Leftmost(cur)) {
      LeftmostStep(cur, lo, k, nb, best, s);
    }
  }

  // ---- unsigned arithmetic of the comparisons -----------------------------------------------------------

  /** `trem < rsize` on wrapped differences means: the node fits and is smaller than the candidate. */
  lemma WrappedCompare(size: nat, nb: nat, best: nat)
    requires 0 < size < W64 && 0 < nb < W64 && best < W64 && (best == 0 || best >= nb)
    ensures (Sub64(size, nb) < Sub64(best, nb)) <==> size >= nb && (best == 0 || size < best)
  {
  }
}
