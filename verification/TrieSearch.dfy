/** The pointer walks of the tree bins: looking up a size, finding the replacement leaf, and the best-fit search. */
module TrieSearch {
  import opened Words
  import opened BinIndex
  import opened Memory
  import opened Tries
  import opened BestFit
  import opened TrieLinks

  /** The head words of the chunks of `t` hold their sizes. */
  ghost predicate HeadsIn(m: Mem, t: Trie, bs: map<int, nat>) {
    forall x :: In(t, x) && x in bs ==> SizeOf(Head(m, x)) == bs[x]
  }

  /** The tree node of a trie shows the size of the trie's root. */
  lemma RootSize(m: Mem, t: Trie, a: int, par: int, idx: int, bs: map<int, nat>)
    requires t.Node? && Rep(m, t, a, par, idx) && Typed(t, bs) && HeadsIn(m, t, bs)
    ensures SizeOf(Head(m, a)) == t.size && In(t, a) && a != 0 && t.ring != [] && a == t.ring[0]
  {
    hide Head, SizeOf;
    assert a in t.ring;
    assert In(t, a);
  }

  lemma ChildFacts(m: Mem, t: Trie, a: int, par: int, idx: int, bs: map<int, nat>, right: bool)
    requires t.Node? && Rep(m, t, a, par, idx) && Typed(t, bs) && HeadsIn(m, t, bs)
    ensures var c := Child(t, right);
            && Rep(m, c, Kid(m, a, right), a, idx) && Typed(c, bs) && HeadsIn(m, c, bs)
            && (Kid(m, a, right) == 0 <==> c.Nil?)
  {
    hide Head, SizeOf, NodeOk;
    forall x | In(Child(t, right), x) ensures In(t, x) {}
    RootIn(m, Child(t, right), Kid(m, a, right), a, idx);
  }

  /** The search loop of insert_large_chunk: stops at the node of the size, or above the hole for it. */
  method FindPlace(m: Mem, root: int, s: nat, i: nat, ghost t: Trie, ghost par: int, ghost bs: map<int, nat>)
    returns (n: int, right: bool, found: bool)
    requires MIN_LARGE_SIZE <= s < W64 && i == TreeIndex(s) && t.Node?
    requires WF(t, RangeBase(i), FreeBits(i)) && Typed(t, bs) && Rep(m, t, root, par, i) && HeadsIn(m, t, bs)
    ensures var sub := SubAt(t, RangeBase(i), FreeBits(i), s);
            && (found ==> sub.Node? && sub.ring != [] && n == sub.ring[0])
            && (!found ==>
                  sub.Nil? && t.size != s && FreeBits(i) > 0 && Above(t, RangeBase(i), FreeBits(i), s) == (n, right))
  {
    hide Pow2, WF, Typed, Rep, Has, In, SubAt, Above, TreeIndex, RangeBase, FreeBits, Shl64, SizeOf, Head, Kid,
         HeadsIn, LeftShift, KeyAt;
    KeyOfSize(s, i);
    var key: nat := Shl64(s, LeftShift(i));
    ghost var lo0: nat, k0: nat := RangeBase(i), FreeBits(i);
    ghost var cur: Trie, lo: nat, k: nat, up: int := t, lo0, k0, par;
    n, right, found := root, false, false;
    RootSize(m, t, root, par, i, bs);
    while true
      invariant cur.Node? && WF(cur, lo, k) && Typed(cur, bs) && Rep(m, cur, n, up, i) && HeadsIn(m, cur, bs)
      invariant lo <= s < lo + Pow2(k) && KeyAt(key, s, lo, k)
      invariant SubAt(cur, lo, k, s) == SubAt(t, lo0, k0, s)
      invariant (cur == t && lo == lo0 && k == k0) || (t.size != s && k0 > 0)
      invariant cur.size != s && k > 0 ==> t.size != s && k0 > 0 && Above(t, lo0, k0, s) == Above(cur, lo, k, s)
      decreases k
    {
      RootSize(m, cur, n, up, i, bs);
      if SizeOf(Head(m, n)) != s {
        NodeElsewhere(cur, lo, k, s);
        KeyStep(s, lo, k, key);
        StepDown(cur, lo, k, s, Nil);
        ChildRange(cur, lo, k, s);
        right := key / (W64 / 2) == 1;
        ChildFacts(m, cur, n, up, i, bs, right);
        AboveStep(cur, lo, k, s);
        var c := Kid(m, n, right);
        key := Shl64(key, 1);
        ghost var d := Child(cur, right);
        PlaceAt(d, Half(lo, k, s), k - 1, s);
        if c != 0 {
          cur, lo, k, up := d, Half(lo, k, s), k - 1, n;
          n := c;
        } else {
          return;
        }
      } else {
        PlaceAt(cur, lo, k, s);
        found := true;
        return;
      }
    }
  }

  lemma NodeElsewhere(t: Trie, lo: nat, k: nat, s: nat)
    requires t.Node? && t.size != s && WF(t, lo, k) && lo <= s < lo + Pow2(k)
    ensures k > 0
  {
  }

  lemma PlaceAt(t: Trie, lo: nat, k: nat, s: nat)
    ensures t.Nil? || t.size == s ==> SubAt(t, lo, k, s) == t
  {
  }

  lemma AboveStep(t: Trie, lo: nat, k: nat, s: nat)
    requires t.Node? && t.size != s && k > 0 && WF(t, lo, k)
    ensures var right, h := GoesRight(lo, k, s), Half(lo, k, s);
            var c := Child(t, right);
            && t.ring != []
            && (c.Nil? || c.size == s ==> Above(t, lo, k, s) == (t.ring[0], right))
            && (c.Node? && c.size != s && k > 1 ==> WF(c, h, k - 1) && Above(t, lo, k, s) == Above(c, h, k - 1, s))
  {
  }

  /** The descent of unlink_large_chunk to the rightmost leaf below `x`. */
  method FindLeaf(m: Mem, x: int, ghost t: Trie, ghost par: int, ghost idx: int) returns (r: int, q: int, right: bool)
    requires t.Node? && Rep(m, t, x, par, idx)
    ensures Leaf(t) <==> r == 0
    ensures !Leaf(t) ==> LastLeaf(t).ring != [] && r == LastLeaf(t).ring[0] && (q, right) == LeafAbove(t)
  {
    hide Kid, NodeOk;
    right := true;
    q := x;
    r := Kid(m, x, true);
    RootIn(m, t, x, par, idx);
    RootIn(m, t.right, Kid(m, x, true), x, idx);
    RootIn(m, t.left, Kid(m, x, false), x, idx);
    if r == 0 {
      right := false;
      r := Kid(m, x, false);
    }
    if r != 0 {
      ghost var cur := Child(t, right);
      while Kid(m, r, true) != 0 || Kid(m, r, false) != 0
        invariant cur.Node? && Rep(m, cur, r, q, idx) && LastLeaf(t) == LastLeaf(cur)
        invariant Leaf(cur) ==> LeafAbove(t) == (q, right)
        invariant !Leaf(cur) ==> LeafAbove(t) == LeafAbove(cur)
        decreases cur
      {
        RootIn(m, cur, r, q, idx);
        RootIn(m, cur.right, Kid(m, r, true), r, idx);
        RootIn(m, cur.left, Kid(m, r, false), r, idx);
        right := Kid(m, r, true) != 0;
        q := r;
        r := Kid(m, q, right);
        cur := Child(cur, right);
      }
      RootIn(m, cur, r, q, idx);
      RootIn(m, cur.right, Kid(m, r, true), r, idx);
      RootIn(m, cur.left, Kid(m, r, false), r, idx);
    }
  }

  // ---- best fit ------------------------------------------------------------------------------------------

  /** `v` is a chunk of `t` that fits, of size `best`; or there is no candidate yet. */
  ghost predicate Candidate(v: int, best: nat, nb: nat, t: Trie, bs: map<int, nat>) {
    && (v == 0 <==> best == 0)
    && (v != 0 ==> In(t, v) && v in bs && bs[v] == best && best >= nb)
  }

  ghost predicate SizesFit(t: Trie) {
    forall s: nat :: Has(t, s) ==> 0 < s < W64
  }

  ghost predicate Inside(c: Trie, t: Trie) {
    (forall x :: In(c, x) ==> In(t, x)) && (forall s: nat :: Has(c, s) ==> Has(t, s))
  }

  lemma InsideChild(c: Trie, t: Trie, right: bool)
    requires c.Node? && Inside(c, t) && SizesFit(c)
    ensures Inside(Child(c, right), t) && SizesFit(Child(c, right)) && 0 < c.size < W64
  {
    assert Has(c, c.size);
    forall x | In(Child(c, right), x) ensures In(t, x) { assert In(c, x); }
    forall s: nat | Has(Child(c, right), s) ensures Has(t, s) && 0 < s < W64 { assert Has(c, s); }
  }

  lemma Consider(m: Mem, cur: Trie, a: int, par: int, idx: int, nb: nat, v: int, best: nat, t: Trie, bs: map<int, nat>)
    requires cur.Node? && Rep(m, cur, a, par, idx) && Typed(cur, bs) && HeadsIn(m, cur, bs) && Inside(cur, t)
    requires SizesFit(cur)
    requires 0 < nb < W64 && best < W64 && Candidate(v, best, nb, t, bs)
    ensures SizeOf(Head(m, a)) == cur.size && a != 0 && cur.size > 0
    ensures Sub64(cur.size, nb) < Sub64(best, nb) <==> Better(best, cur.size, nb) != best
    ensures Better(best, cur.size, nb) != best ==> Better(best, cur.size, nb) == cur.size
    ensures Better(best, cur.size, nb) < W64
    ensures Better(best, cur.size, nb) != best ==> Candidate(a, cur.size, nb, t, bs)
    ensures Sub64(cur.size, nb) == 0 <==> cur.size == nb
  {
    hide Head, SizeOf;
    RootSize(m, cur, a, par, idx, bs);
    assert Has(cur, cur.size) && a in cur.ring;
    WrappedCompare(cur.size, nb, best);
  }

  /** The first loop of tmalloc_large: walk towards `nb`, remembering the deepest untaken right subtree. */
  method DescendForSize(m: Mem, root: int, nb: nat, idx: nat, ghost t: Trie, ghost par: int, ghost bs: map<int, nat>)
    returns (v: int, rsize: nat, n: int, ghost best: nat, ghost cur: Trie, ghost lo: nat, ghost k: nat, ghost up: int)
    requires MIN_LARGE_SIZE <= nb < W64 && idx == TreeIndex(nb) && t.Node? && SizesFit(t)
    requires WF(t, RangeBase(idx), FreeBits(idx)) && Typed(t, bs) && Rep(m, t, root, par, idx) && HeadsIn(m, t, bs)
    ensures Candidate(v, best, nb, t, bs) && best < W64 && rsize == Sub64(best, nb)
    ensures Rep(m, cur, n, up, idx) && WF(cur, lo, k) && Typed(cur, bs) && HeadsIn(m, cur, bs)
    ensures Inside(cur, t) && SizesFit(cur)
    ensures (AtLeast(cur, nb) || best == nb) && BoundedAll(t, nb, best, cur)
  {
    hide Pow2, WF, Typed, Rep, Has, In, TreeIndex, RangeBase, FreeBits, Shl64, SizeOf, Head, Kid, HeadsIn, LeftShift,
         KeyAt,
         Sub64, Better, AtLeast, CoveredAll, BoundedAll, Inside, SizesFit, Candidate;
    KeyOfSize(nb, idx);
    v, rsize, n, best := 0, Sub64(0, nb), root, 0;
    cur, lo, k, up := t, RangeBase(idx), FreeBits(idx), par;
    var sizebits: nat := Shl64(nb, LeftShift(idx));
    var rst := 0;
    ghost var rt: Trie, rlo: nat, rk: nat, rup: int := Nil, 0, 0, 0;
    StartDescent(m, t, lo, k, nb, bs, idx);
    while true
      invariant cur.Node? && Rep(m, cur, n, up, idx) && WF(cur, lo, k) && Typed(cur, bs) && HeadsIn(m, cur, bs)
      invariant Inside(cur, t) && SizesFit(cur)
      invariant lo <= nb < lo + Pow2(k) && KeyAt(sizebits, nb, lo, k)
      invariant Rep(m, rt, rst, rup, idx) && WF(rt, rlo, rk) && Typed(rt, bs) && HeadsIn(m, rt, bs)
      invariant Inside(rt, t) && SizesFit(rt)
      invariant Candidate(v, best, nb, t, bs) && best < W64 && rsize == Sub64(best, nb) && best != nb
      invariant AtLeast(rt, lo + Pow2(k)) && CoveredAll(t, nb, best, cur, rt)
      decreases k
    {
      Consider(m, cur, n, up, idx, nb, v, best, t, bs);
      CandidateFits(v, best, nb, t, bs);
      var trem := Sub64(SizeOf(Head(m, n)), nb);
      ghost var best0 := best;
      if trem < rsize {
        v := n;
        rsize := trem;
        best := cur.size;
        if rsize == 0 {
          ExactFit(t, nb, cur);
          return;
        }
      }
      if cur.size == nb { ExactIsBetter(best0, nb); assert false; }
      DescendAll(t, cur, lo, k, nb, best0, rt);
      ghost var right := GoesRight(lo, k, nb);
      KeyStep(nb, lo, k, sizebits);
      ChildFacts(m, cur, n, up, idx, bs, true);
      ChildFacts(m, cur, n, up, idx, bs, right);
      SiblingRoots(m, cur, n, up, idx, lo, k, bs);
      InsideChild(cur, t, true);
      InsideChild(cur, t, right);
      ChildRange(cur, lo, k, nb);
      RightRange(cur, lo, k);
      var r := Kid(m, n, true);
      ghost var n0 := n;
      n := Kid(m, n, sizebits / (W64 / 2) == 1);
      if r != 0 && r != n {
        rst, rt, rlo, rk, rup := r, cur.right, lo + Pow2(k - 1), k - 1, n0;
      }
      cur, lo, k, up := Child(cur, right), Half(lo, k, nb), k - 1, n0;
      if n == 0 {
        n := rst;
        DescentEnds(t, nb, best, rt);
        FloorIsEnough(rt, lo + Pow2(k), nb);
        cur, lo, k, up := rt, rlo, rk, rup;
        return;
      }
      sizebits := Shl64(sizebits, 1);
    }
  }

  lemma StartDescent(m: Mem, t: Trie, lo: nat, k: nat, nb: nat, bs: map<int, nat>, idx: nat)
    requires lo <= nb < lo + Pow2(k) && 0 < nb
    ensures Inside(t, t) && Rep(m, Nil, 0, 0, idx) && WF(Nil, 0, 0) && Typed(Nil, bs) && HeadsIn(m, Nil, bs)
    ensures Inside(Nil, t) && SizesFit(Nil) && Candidate(0, 0, nb, t, bs) && AtLeast(Nil, lo + Pow2(k))
    ensures CoveredAll(t, nb, 0, t, Nil)
  {
  }

  lemma CandidateFits(v: int, best: nat, nb: nat, t: Trie, bs: map<int, nat>)
    requires Candidate(v, best, nb, t, bs)
    ensures best == 0 || best >= nb
  {
  }

  lemma ExactIsBetter(best: nat, nb: nat)
    requires best != nb && (best == 0 || best > nb)
    ensures Better(best, nb, nb) != best
  {
  }

  lemma SiblingRoots(m: Mem, t: Trie, a: int, par: int, idx: int, lo: nat, k: nat, bs: map<int, nat>)
    requires t.Node? && WF(t, lo, k) && Typed(t, bs) && Rep(m, t, a, par, idx)
    ensures Kid(m, a, true) != 0 ==> Kid(m, a, false) != Kid(m, a, true)
  {
    RootIn(m, t.right, Kid(m, a, true), a, idx);
    RootsDiffer(m, t, a, par, idx, lo, k, bs, true);
  }

  lemma RightRange(t: Trie, lo: nat, k: nat)
    requires t.Node? && WF(t, lo, k) && k > 0
    ensures WF(t.right, lo + Pow2(k - 1), k - 1)
  {
  }

  lemma FloorIsEnough(t: Trie, b: nat, nb: nat)
    requires AtLeast(t, b) && nb <= b
    ensures AtLeast(t, nb)
  {
  }

  /** The last loop of tmalloc_large: follow leftmost children and keep the smallest fit. */
  method LeftmostFit(
    m: Mem, start: int, v0: int, rsize0: nat, nb: nat, ghost best0: nat, ghost t: Trie, ghost cur0: Trie,
    ghost lo0: nat, ghost k0: nat, ghost up0: int, ghost idx: int, ghost bs: map<int, nat>
  )
    returns (v: int, rsize: nat, ghost best: nat)
    requires 0 < nb < W64 && best0 < W64 && Candidate(v0, best0, nb, t, bs) && rsize0 == Sub64(best0, nb)
    requires Rep(m, cur0, start, up0, idx) && WF(cur0, lo0, k0) && Typed(cur0, bs) && HeadsIn(m, cur0, bs)
    requires Inside(cur0, t) && SizesFit(cur0)
    requires (AtLeast(cur0, nb) || best0 == nb) && BoundedAll(t, nb, best0, cur0)
    ensures Candidate(v, best, nb, t, bs) && best < W64 && rsize == Sub64(best, nb)
    ensures BoundedAll(t, nb, best, Nil)
    ensures best0 != 0 || cur0.Node? ==> best != 0
  {
    hide WF, Typed, Rep, Has, In, SizeOf, Head, Kid, HeadsIn, Sub64, Better, AtLeast, BoundedAll, Inside, SizesFit,
         Candidate;
    var n := start;
    v, rsize, best := v0, rsize0, best0;
    ghost var cur: Trie, lo: nat, k: nat, up: int := cur0, lo0, k0, up0;
    while n != 0
      invariant Rep(m, cur, n, up, idx) && WF(cur, lo, k) && Typed(cur, bs) && HeadsIn(m, cur, bs)
      invariant Inside(cur, t) && SizesFit(cur)
      invariant Candidate(v, best, nb, t, bs) && best < W64 && rsize == Sub64(best, nb)
      invariant (AtLeast(cur, nb) || best == nb) && BoundedAll(t, nb, best, cur)
      invariant best0 != 0 ==> best != 0
      decreases cur
    {
      RootIn(m, cur, n, up, idx);
      Consider(m, cur, n, up, idx, nb, v, best, t, bs);
      LeftmostAll(t, cur, lo, k, nb, best);
      StillExact(best, cur.size, nb);
      var trem := Sub64(SizeOf(Head(m, n)), nb);
      if trem < rsize {
        rsize := trem;
        v := n;
        best := cur.size;
      }
      ghost var lo', k' := LeftmostPart(cur, lo, k, nb);
      ChildFacts(m, cur, n, up, idx, bs, false);
      ChildFacts(m, cur, n, up, idx, bs, true);
      InsideChild(cur, t, false);
      InsideChild(cur, t, true);
      up := n;
      n := if Kid(m, n, false) != 0 then Kid(m, n, false) else Kid(m, n, true);
      cur, lo, k := Leftmost(cur), lo', k';
    }
    RootIn(m, cur, n, up, idx);
    if cur0.Node? && best0 == 0 { SomethingFits(cur0, t, nb, best); }
  }

  lemma SomethingFits(cur: Trie, t: Trie, nb: nat, best: nat)
    requires cur.Node? && Inside(cur, t) && AtLeast(cur, nb) && BoundedAll(t, nb, best, Nil)
    ensures best != 0
  {
    assert Has(cur, cur.size);
    assert Has(t, cur.size);
    assert Bounded(cur.size, best, Nil);
  }

  lemma CandidateZero(v: int, best: nat, nb: nat, t: Trie, bs: map<int, nat>)
    requires Candidate(v, best, nb, t, bs)
    ensures v == 0 <==> best == 0
  {
  }

  lemma StillExact(best: nat, size: nat, nb: nat)
    ensures best == nb ==> Better(best, size, nb) == nb || nb == 0
  {
  }
}
