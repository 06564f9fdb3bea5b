/** Circular doubly linked lists of chunks, used by small bins and by the rings of equal-sized chunks. */
module Rings {
  import opened Memory
  import opened Tries

  function Next(i: nat, n: nat): (r: nat)
    requires i < n
    ensures r < n
  {
    if i + 1 == n then 0 else i + 1
  }

  function Prev(i: nat, n: nat): (r: nat)
    requires i < n
    ensures r < n
  {
    if i == 0 then n - 1 else i - 1
  }

  /** The ring is a circular doubly linked list. */
  ghost predicate RingOk(m: Mem, ring: seq<int>) {
    && (forall i {:trigger Fd(m, ring[i])} :: 0 <= i < |ring| ==> Fd(m, ring[i]) == ring[Next(i, |ring|)])
    && (forall i {:trigger Bk(m, ring[i])} :: 0 <= i < |ring| ==> Bk(m, ring[i]) == ring[Prev(i, |ring|)])
  }

  lemma RingFrame(m: Mem, m': Mem, ring: seq<int>)
    requires RingOk(m, ring)
    requires forall x :: x in ring ==> Fd(m, x) == Fd(m', x) && Bk(m, x) == Bk(m', x)
    ensures RingOk(m', ring)
  {
    hide Fd, Bk;
    forall i | 0 <= i < |ring| ensures Fd(m, ring[i]) == Fd(m', ring[i]) && Bk(m, ring[i]) == Bk(m', ring[i]) {
      assert ring[i] in ring;
    }
  }

  /** Links `x` in right after the head of the ring. */
  lemma RingInsert(m: Mem, m': Mem, ring: seq<int>, x: int)
    requires ring != [] && NoDup(ring) && x !in ring && RingOk(m, ring)
    requires var t, f := ring[0], Fd(m, ring[0]);
             && Fd(m', t) == x && Bk(m', f) == x && Fd(m', x) == f && Bk(m', x) == t
             && (forall y :: y in ring && y != t ==> Fd(m', y) == Fd(m, y))
             && (forall y :: y in ring && y != f ==> Bk(m', y) == Bk(m, y))
    ensures RingOk(m', [ring[0], x] + ring[1..])
  {
    hide Fd, Bk;
    var n := |ring|;
    var ring' := [ring[0], x] + ring[1..];
    assert ring[0] in ring && Fd(m, ring[0]) == ring[Next(0, n)];
    forall i | 0 <= i < |ring'|
      ensures Fd(m', ring'[i]) == ring'[Next(i, n + 1)] && Bk(m', ring'[i]) == ring'[Prev(i, n + 1)]
    {
      if i == 0 {
        if n > 1 { assert Bk(m', ring[0]) == Bk(m, ring[0]) == ring[n - 1]; }
      } else if i > 1 {
        var y := ring[i - 1];
        assert y in ring && ring'[i] == y && y != ring[0];
        assert Fd(m', y) == Fd(m, y) == ring[Next(i - 1, n)];
        if i > 2 { assert y != ring[1] && Bk(m', y) == Bk(m, y) == ring[i - 2]; }
      }
    }
  }

  /** Takes a chunk other than the head out of the ring. */
  lemma RingDelete(m: Mem, m': Mem, ring: seq<int>, p: nat)
    requires 0 < p < |ring| && NoDup(ring) && RingOk(m, ring)
    requires var f, r := Fd(m, ring[p]), Bk(m, ring[p]);
             && Bk(m', f) == r && Fd(m', r) == f
             && (forall y :: y in ring && y != r ==> Fd(m', y) == Fd(m, y))
             && (forall y :: y in ring && y != f ==> Bk(m', y) == Bk(m, y))
    ensures RingOk(m', ring[..p] + ring[p + 1..])
  {
    hide Fd, Bk;
    var n := |ring|;
    var ring' := ring[..p] + ring[p + 1..];
    hide Next, Prev, Skip, NoDup, RingOk;
    RingAt(m, ring, p);
    SkipIndices(ring, p);
    forall i | 0 <= i < n - 1
      ensures Fd(m', ring'[i]) == ring'[Next(i, n - 1)] && Bk(m', ring'[i]) == ring'[Prev(i, n - 1)]
    {
      DeleteStep(m, m', ring, p, i);
    }
    RingOkIntro(m', ring');
  }

  lemma RingAt(m: Mem, ring: seq<int>, p: nat)
    requires 0 < p < |ring| && RingOk(m, ring)
    ensures Fd(m, ring[p]) == ring[Next(p, |ring|)] && Bk(m, ring[p]) == ring[p - 1]
  {
  }

  lemma SkipIndices(ring: seq<int>, p: nat)
    requires 0 < p < |ring|
    ensures forall i :: 0 <= i < |ring| - 1 ==> (ring[..p] + ring[p + 1..])[i] == ring[Skip(i, p)]
  {
  }

  lemma RingOkIntro(m: Mem, ring: seq<int>)
    requires forall i {:trigger Fd(m, ring[i])} {:trigger Bk(m, ring[i])} :: 0 <= i < |ring| ==>
      Fd(m, ring[i]) == ring[Next(i, |ring|)] && Bk(m, ring[i]) == ring[Prev(i, |ring|)]
    ensures RingOk(m, ring)
  {
  }

  function Skip(i: nat, p: nat): (r: nat)
    ensures r <= i + 1
  {
    if i < p then i else i + 1
  }

  lemma SkipSteps(i: nat, p: nat, n: nat)
    requires 0 < p < n && i < n - 1
    ensures Skip(Next(i, n - 1), p) == if i == p - 1 then Next(p, n) else Next(Skip(i, p), n)
    ensures Skip(Prev(i, n - 1), p) == if Skip(i, p) == Next(p, n) then p - 1 else Prev(Skip(i, p), n)
  {
  }

  lemma DeleteStep(m: Mem, m': Mem, ring: seq<int>, p: nat, i: nat)
    requires 0 < p < |ring| && NoDup(ring) && RingOk(m, ring) && i < |ring| - 1
    requires var n := |ring|;
             var f, r := ring[Next(p, n)], ring[p - 1];
             && Bk(m', f) == r && Fd(m', r) == f
             && (forall y :: y in ring && y != r ==> Fd(m', y) == Fd(m, y))
             && (forall y :: y in ring && y != f ==> Bk(m', y) == Bk(m, y))
    ensures var n := |ring|;
            && Fd(m', ring[Skip(i, p)]) == ring[Skip(Next(i, n - 1), p)]
            && Bk(m', ring[Skip(i, p)]) == ring[Skip(Prev(i, n - 1), p)]
  {
    hide Fd, Bk;
    var n := |ring|;
    SkipSteps(i, p, n);
    var j := Skip(i, p);
    assert ring[j] in ring;
    assert Fd(m, ring[j]) == ring[Next(j, n)] && Bk(m, ring[j]) == ring[Prev(j, n)];
    if j != p - 1 { assert ring[j] != ring[p - 1]; }
    if j != Next(p, n) { assert ring[j] != ring[Next(p, n)]; }
  }

  /** Takes the head out; its `bk` neighbour becomes the head. */
  lemma RingBehead(m: Mem, m': Mem, ring: seq<int>)
    requires |ring| > 1 && NoDup(ring) && RingOk(m, ring)
    requires var f, r := Fd(m, ring[0]), Bk(m, ring[0]);
             && Bk(m', f) == r && Fd(m', r) == f
             && (forall y :: y in ring && y != r ==> Fd(m', y) == Fd(m, y))
             && (forall y :: y in ring && y != f ==> Bk(m', y) == Bk(m, y))
    ensures RingOk(m', [ring[|ring| - 1]] + ring[1..|ring| - 1])
  {
    hide Fd, Bk;
    var n := |ring|;
    var ring' := [ring[n - 1]] + ring[1..n - 1];
    var f, r := ring[1], ring[n - 1];
    assert Fd(m, ring[0]) == f && Bk(m, ring[0]) == r;
    forall i | 0 <= i < |ring'|
      ensures Fd(m', ring'[i]) == ring'[Next(i, n - 1)] && Bk(m', ring'[i]) == ring'[Prev(i, n - 1)]
    {
      var j := if i == 0 then n - 1 else i;
      var y := ring[j];
      assert ring'[i] == y && y in ring;
      assert Fd(m, y) == ring[Next(j, n)] && Bk(m, y) == ring[Prev(j, n)];
      if y != r { assert j != n - 1; }
      if y != f { assert j != 1; }
    }
  }
}

/** How a trie is laid out in memory, and which link updates carry one trie into another. */
module TrieLinks {
  import opened Words
  import opened Memory
  import opened Tries
  import opened Rings

  /** The chunks of one size: the first hangs in the tree, the others have neither parent nor children. */
  ghost predicate NodeOk(m: Mem, ring: seq<int>, par: int, idx: int) {
    && ring != []
    && RingOk(m, ring)
    && Parent(m, ring[0]) == par
    && (forall i :: 0 <= i < |ring| ==> ring[i] != 0 && Index(m, ring[i]) == idx)
    && (forall i :: 1 <= i < |ring| ==>
          Parent(m, ring[i]) == 0 && Kid(m, ring[i], false) == 0 && Kid(m, ring[i], true) == 0)
  }

  /** Pointer `a` is the root of trie `t`. */
  ghost predicate Rep(m: Mem, t: Trie, a: int, par: int, idx: int)
    decreases t
  {
    if t.Nil? then a == 0
    else
      && NodeOk(m, t.ring, par, idx) && a == t.ring[0]
      && Rep(m, t.left, Kid(m, a, false), a, idx)
      && Rep(m, t.right, Kid(m, a, true), a, idx)
  }

  ghost predicate AllApart(t: Trie) {
    forall x, y :: In(t, x) && In(t, y) && x != y ==> Apart(x, y)
  }

  // ---- framing -------------------------------------------------------------------------------------------

  lemma NodeFrame(m: Mem, m': Mem, ring: seq<int>, par: int, idx: int)
    requires NodeOk(m, ring, par, idx)
    requires forall x :: x in ring ==> SameLinks(m, m', x)
    ensures NodeOk(m', ring, par, idx)
  {
    hide Fd, Bk, Kid, Parent, Index;
    AllFields(m, m', ring);
    RingFrame(m, m', ring);
  }

  lemma AllFields(m: Mem, m': Mem, ring: seq<int>)
    requires forall x :: x in ring ==> SameLinks(m, m', x)
    ensures forall x :: x in ring ==> Fd(m, x) == Fd(m', x) && Bk(m, x) == Bk(m', x)
    ensures forall i {:trigger Index(m', ring[i])} :: 0 <= i < |ring| ==> Index(m, ring[i]) == Index(m', ring[i])
    ensures forall i {:trigger Parent(m', ring[i])} :: 0 <= i < |ring| ==> Parent(m, ring[i]) == Parent(m', ring[i])
    ensures forall i, r {:trigger Kid(m', ring[i], r)} :: 0 <= i < |ring| ==> Kid(m, ring[i], r) == Kid(m', ring[i], r)
  {
    hide Fd, Bk, Kid, Parent, Index;
    forall i | 0 <= i < |ring| ensures SameLinks(m, m', ring[i]) { assert ring[i] in ring; }
  }

  lemma {:induction false} RepFrame(m: Mem, m': Mem, t: Trie, a: int, par: int, idx: int)
    requires Rep(m, t, a, par, idx)
    requires forall x :: In(t, x) ==> SameLinks(m, m', x)
    ensures Rep(m', t, a, par, idx)
    decreases t
  {
    if t.Node? {
      forall x | x in t.ring ensures SameLinks(m, m', x) { assert In(t, x); }
      forall x | In(t.left, x) ensures SameLinks(m, m', x) { assert In(t, x); }
      forall x | In(t.right, x) ensures SameLinks(m, m', x) { assert In(t, x); }
      assert a in t.ring;
      hide In, Fd, Bk, Index, Parent;
      NodeFrame(m, m', t.ring, par, idx);
      RepFrame(m, m', t.left, Kid(m, a, false), a, idx);
      RepFrame(m, m', t.right, Kid(m, a, true), a, idx);
    }
  }

  // ---- grafting a new subtree --------------------------------------------------------------------------

  /** The node whose child pointer leads to the place of `s`, and on which side. */
  ghost function Above(t: Trie, lo: nat, k: nat, s: nat): (int, bool)
    requires t.Node? && t.size != s && k > 0 && WF(t, lo, k)
    decreases t
  {
    var right := GoesRight(lo, k, s);
    var c := Child(t, right);
    if c.Nil? || c.size == s || k == 1 then (t.ring[0], right) else Above(c, Half(lo, k, s), k - 1, s)
  }

  lemma {:induction false} AboveIsOutside(t: Trie, lo: nat, k: nat, s: nat, bs: map<int, nat>)
    requires t.Node? && t.size != s && k > 0 && WF(t, lo, k) && lo <= s < lo + Pow2(k) && Typed(t, bs)
    ensures In(t, Above(t, lo, k, s).0) && !In(SubAt(t, lo, k, s), Above(t, lo, k, s).0)
    decreases t
  {
    var right := GoesRight(lo, k, s);
    var c, h := Child(t, right), Half(lo, k, s);
    ChildRange(t, lo, k, s);
    RingsApart(t, lo, k, bs, t.ring[0]);
    hide Pow2, Has;
    if !(c.Nil? || c.size == s || k == 1) {
      AboveIsOutside(c, h, k - 1, s, bs);
    }
  }

  /** All links of `q` but the child pointer on one side. */
  ghost predicate SameButKid(m: Mem, m': Mem, q: int, right: bool) {
    && Fd(m, q) == Fd(m', q) && Bk(m, q) == Bk(m', q)
    && Kid(m, q, !right) == Kid(m', q, !right)
    && Parent(m, q) == Parent(m', q) && Index(m, q) == Index(m', q)
  }

  lemma NodeFields(m: Mem, m': Mem, ring: seq<int>, right: bool)
    requires ring != [] && NoDup(ring)
    requires forall x :: x in ring && x != ring[0] ==> SameLinks(m, m', x)
    requires SameButKid(m, m', ring[0], right)
    ensures forall x :: x in ring ==> Fd(m, x) == Fd(m', x) && Bk(m, x) == Bk(m', x)
    ensures forall i {:trigger Index(m', ring[i])} :: 0 <= i < |ring| ==> Index(m, ring[i]) == Index(m', ring[i])
    ensures forall i {:trigger Parent(m', ring[i])} :: 0 <= i < |ring| ==> Parent(m, ring[i]) == Parent(m', ring[i])
    ensures forall i, r {:trigger Kid(m', ring[i], r)} :: 1 <= i < |ring| ==> Kid(m, ring[i], r) == Kid(m', ring[i], r)
  {
    hide Fd, Bk, Kid, Parent, Index;
    forall i | 1 <= i < |ring| ensures SameLinks(m, m', ring[i]) { assert ring[i] in ring && ring[i] != ring[0]; }
  }

  lemma NodeFrameKid(m: Mem, m': Mem, ring: seq<int>, par: int, idx: int, right: bool)
    requires NodeOk(m, ring, par, idx) && NoDup(ring)
    requires forall x :: x in ring && x != ring[0] ==> SameLinks(m, m', x)
    requires SameButKid(m, m', ring[0], right)
    ensures NodeOk(m', ring, par, idx)
  {
    hide Fd, Bk, Kid, Parent, Index;
    NodeFields(m, m', ring, right);
    RingFrame(m, m', ring);
  }

  lemma GraftAtChild(m: Mem, m': Mem, t: Trie, a: int, par: int, idx: int, lo: nat, k: nat, right: bool, c: Trie,
                     bs: map<int, nat>)
    requires t.Node? && WF(t, lo, k) && Typed(t, bs) && Rep(m, t, a, par, idx)
    requires Rep(m', c, Kid(m', a, right), a, idx)
    requires SameButKid(m, m', a, right)
    requires forall x :: (x in t.ring && x != a) || In(Child(t, !right), x) ==> SameLinks(m, m', x)
    ensures Rep(m', WithChild(t, right, c), a, par, idx)
  {
    NodeFrameKid(m, m', t.ring, par, idx, right);
    hide Pow2, Has, In, NodeOk;
    RepFrame(m, m', Child(t, !right), Kid(m, a, !right), a, idx);
  }

  lemma {:induction false} Graft(m: Mem, m': Mem, t: Trie, a: int, par: int, idx: int, lo: nat, k: nat, s: nat,
                                 sub: Trie, bs: map<int, nat>)
    requires t.Node? && t.size != s && k > 0 && WF(t, lo, k) && lo <= s < lo + Pow2(k) && Typed(t, bs)
    requires Rep(m, t, a, par, idx)
    requires var (q, right) := Above(t, lo, k, s);
             && Rep(m', sub, Kid(m', q, right), q, idx)
             && SameButKid(m, m', q, right)
             && forall x :: In(t, x) && !In(SubAt(t, lo, k, s), x) && x != q ==> SameLinks(m, m', x)
    ensures Rep(m', Replace(t, lo, k, s, sub), a, par, idx)
    decreases t
  {
    hide Pow2, Has, In, Typed, Replace, SubAt, WF, SameLinks, SameButKid, NodeOk;
    var right, h := GoesRight(lo, k, s), Half(lo, k, s);
    var c := Child(t, right);
    var (q, qr) := Above(t, lo, k, s);
    ChildRange(t, lo, k, s);
    StepDown(t, lo, k, s, sub);
    AboveIsOutside(t, lo, k, s, bs);
    GraftOutside(m, m', t, lo, k, s, bs);
    if c.Nil? || c.size == s || k == 1 {
      PlaceReached(c, h, k - 1, s, sub);
      GraftAtChild(m, m', t, a, par, idx, lo, k, right, sub, bs);
    } else {
      TypedChild(t, bs, right);
      InChild(t, right);
      Graft(m, m', c, Kid(m, a, right), a, idx, h, k - 1, s, sub, bs);
      GraftAtChild(m, m', t, a, par, idx, lo, k, right, Replace(c, h, k - 1, s, sub), bs);
    }
  }

  lemma TypedChild(t: Trie, bs: map<int, nat>, right: bool)
    requires t.Node? && Typed(t, bs)
    ensures Typed(Child(t, right), bs)
  {
  }

  lemma InChild(t: Trie, right: bool)
    requires t.Node?
    ensures forall x :: In(Child(t, right), x) ==> In(t, x)
  {
  }

  lemma PlaceReached(c: Trie, h: nat, k: nat, s: nat, sub: Trie)
    requires c.Nil? || c.size == s || k == 0
    ensures SubAt(c, h, k, s) == c && Replace(c, h, k, s, sub) == sub
  {
  }

  /** What a graft below `t` leaves alone at `t` itself and on its other side. */
  lemma GraftOutside(m: Mem, m': Mem, t: Trie, lo: nat, k: nat, s: nat, bs: map<int, nat>)
    requires t.Node? && t.size != s && k > 0 && WF(t, lo, k) && lo <= s < lo + Pow2(k) && Typed(t, bs)
    requires var (q, right) := Above(t, lo, k, s);
             && SameButKid(m, m', q, right)
             && forall x :: In(t, x) && !In(SubAt(t, lo, k, s), x) && x != q ==> SameLinks(m, m', x)
    ensures var right := GoesRight(lo, k, s);
            && SameButKid(m, m', t.ring[0], right)
            && (forall x :: (x in t.ring && x != t.ring[0]) || In(Child(t, !right), x) ==> SameLinks(m, m', x))
            && (var c := Child(t, right);
                !(c.Nil? || c.size == s || k == 1) ==> Kid(m', t.ring[0], right) == Kid(m, t.ring[0], right))
  {
    var right, h := GoesRight(lo, k, s), Half(lo, k, s);
    var c := Child(t, right);
    var (q, qr) := Above(t, lo, k, s);
    hide Pow2, Has, Replace, SubAt, Fd, Bk, Kid, Parent, Index;
    ChildRange(t, lo, k, s);
    StepDown(t, lo, k, s, c);
    forall x | x in t.ring || In(Child(t, !right), x) ensures In(t, x) && !In(SubAt(t, lo, k, s), x) {
      RingsApart(t, lo, k, bs, x);
      SubAtIn(c, h, k - 1, s, x);
    }
    if !(c.Nil? || c.size == s || k == 1) {
      AboveIsOutside(c, h, k - 1, s, bs);
      RingsApart(t, lo, k, bs, t.ring[0]);
      assert t.ring[0] in t.ring && SameLinks(m, m', t.ring[0]);
    }
    RingsApart(t, lo, k, bs, q);
  }

  /** The subtree at the place of `s` hangs from the node above it. */
  lemma {:induction false} PlaceRep(
    m: Mem, t: Trie, a: int, par: int, idx: int, lo: nat, k: nat, s: nat, bs: map<int, nat>
  )
    requires t.Node? && t.size != s && k > 0 && WF(t, lo, k) && lo <= s < lo + Pow2(k) && Typed(t, bs)
    requires Rep(m, t, a, par, idx)
    ensures var (q, right) := Above(t, lo, k, s);
            var sub := SubAt(t, lo, k, s);
            && q != 0
            && Rep(m, sub, Kid(m, q, right), q, idx)
            && (sub.Node? ==> Kid(m, q, !right) != sub.ring[0])
    decreases t
  {
    hide Pow2, Has, In, Typed, SubAt, WF, NodeOk;
    var right, h := GoesRight(lo, k, s), Half(lo, k, s);
    var c := Child(t, right);
    ChildRange(t, lo, k, s);
    StepDown(t, lo, k, s, c);
    TypedChild(t, bs, right);
    if c.Nil? || c.size == s || k == 1 {
      PlaceReached(c, h, k - 1, s, c);
      RootsDiffer(m, t, a, par, idx, lo, k, bs, right);
    } else {
      PlaceRep(m, c, Kid(m, a, right), a, idx, h, k - 1, s, bs);
    }
  }

  lemma RootsDiffer(m: Mem, t: Trie, a: int, par: int, idx: int, lo: nat, k: nat, bs: map<int, nat>, right: bool)
    requires t.Node? && WF(t, lo, k) && Typed(t, bs) && Rep(m, t, a, par, idx)
    ensures a != 0
    ensures Child(t, right).Node? ==> Child(t, right).ring != [] && Kid(m, a, !right) != Child(t, right).ring[0]
  {
    var c, d := Child(t, right), Child(t, !right);
    if c.Node? && d.Node? {
      assert In(c, c.ring[0]) && In(d, d.ring[0]);
      RingsApart(t, lo, k, bs, c.ring[0]);
    }
  }

  // ---- insertion -----------------------------------------------------------------------------------------

  function InitNode(m: Mem, x: int, idx: int): Mem {
    SetKid(SetKid(SetIndex(m, x, idx), x, true, 0), x, false, 0)
  }

  function LinkSelf(m: Mem, x: int, par: int): Mem {
    SetFd(SetBk(SetParent(m, x, par), x, x), x, x)
  }

  /** Puts `x` behind the tree node `t` of its size. */
  function LinkRing(m: Mem, t: int, x: int): Mem {
    var f := Fd(m, t);
    SetParent(SetBk(SetFd(SetFd(SetBk(m, f, x), t, x), x, f), x, t), x, 0)
  }

  lemma InitNodeEffect(m: Mem, x: int, idx: int)
    ensures var m' := InitNode(m, x, idx);
            && Kid(m', x, false) == 0 && Kid(m', x, true) == 0 && Index(m', x) == idx
            && forall y :: Apart(x, y) ==> SameLinks(m, m', y)
  {
  }

  lemma LeafRep(m: Mem, x: int, par: int, idx: int, s: nat)
    requires x != 0 && Kid(m, x, false) == 0 && Kid(m, x, true) == 0 && Index(m, x) == idx
    ensures Rep(LinkSelf(m, x, par), Node(s, [x], Nil, Nil), x, par, idx)
    ensures forall y :: Apart(x, y) ==> SameLinks(m, LinkSelf(m, x, par), y)
  {
  }

  lemma LinkRingEffect(m: Mem, t: int, x: int, idx: int)
    requires var f := Fd(m, t); Apart(x, t) && Apart(x, f) && (f == t || Apart(f, t))
    ensures var f, m' := Fd(m, t), LinkRing(InitNode(m, x, idx), t, x);
            && Fd(m', t) == x && Bk(m', f) == x && Fd(m', x) == f && Bk(m', x) == t
            && Parent(m', x) == 0 && Kid(m', x, false) == 0 && Kid(m', x, true) == 0 && Index(m', x) == idx
  {
  }

  lemma LinkRingFrame(m: Mem, t: int, x: int, idx: int)
    requires var f := Fd(m, t); Apart(x, t) && Apart(x, f) && (f == t || Apart(f, t))
    ensures var f, m' := Fd(m, t), LinkRing(InitNode(m, x, idx), t, x);
            && (f != t ==> Fd(m', f) == Fd(m, f) && Bk(m', t) == Bk(m, t))
            && SameTree(m, m', t) && SameTree(m, m', f)
  {
  }

  lemma LinkRingElsewhere(m: Mem, t: int, x: int, idx: int, y: int)
    requires var f := Fd(m, t); Apart(x, t) && Apart(x, y) && Apart(t, y) && Apart(f, y)
    ensures SameLinks(m, LinkRing(InitNode(m, x, idx), t, x), y)
  {
  }

  /** The tree fields of `y`, that is all links but `fd` and `bk`. */
  ghost predicate SameTree(m: Mem, m': Mem, y: int) {
    && Kid(m, y, false) == Kid(m', y, false) && Kid(m, y, true) == Kid(m', y, true)
    && Parent(m, y) == Parent(m', y) && Index(m, y) == Index(m', y)
  }

  lemma InsertRingRep(m: Mem, m': Mem, t: Trie, a: int, par: int, idx: int, lo: nat, k: nat, x: int, bs: map<int, nat>)
    requires t.Node? && WF(t, lo, k) && Typed(t, bs) && Rep(m, t, a, par, idx)
    requires AllApart(t) && !In(t, x) && x != 0 && (forall y :: In(t, y) ==> Apart(x, y))
    requires m' == LinkRing(InitNode(m, x, idx), a, x)
    ensures Rep(m', t.(ring := [t.ring[0], x] + t.ring[1..]), a, par, idx)
  {
    hide LinkRing, InitNode, SameLinks, Pow2, Has, Fd, Bk, Parent, Index, Kid, NodeOk, Apart;
    var ring, f := t.ring, Fd(m, a);
    NodeRing(m, ring, par, idx);
    RingHead(m, ring);
    assert In(t, a) && In(t, f);
    LinkRingEffect(m, a, x, idx);
    LinkRingFrame(m, a, x, idx);
    forall y | Apart(x, y) && Apart(a, y) && Apart(f, y) ensures SameLinks(m, m', y) {
      ApartSym(a, x);
      LinkRingElsewhere(m, a, x, idx, y);
    }
    InsertRingFields(m, m', t, a, f, x);
    InsertRingNode(m, m', ring, x, par, idx);
    RingsApart(t, lo, k, bs, a);
    RingsApart(t, lo, k, bs, f);
    RepFrame(m, m', t.left, Kid(m, a, false), a, idx);
    RepFrame(m, m', t.right, Kid(m, a, true), a, idx);
  }

  lemma ApartSym(x: int, y: int)
    ensures Apart(x, y) == Apart(y, x)
  {
  }

  lemma RingHead(m: Mem, ring: seq<int>)
    requires ring != [] && RingOk(m, ring)
    ensures Fd(m, ring[0]) == ring[Next(0, |ring|)] && Fd(m, ring[0]) in ring && ring[0] in ring
  {
  }

  lemma InsertRingFields(m: Mem, m': Mem, t: Trie, a: int, f: int, x: int)
    requires t.Node? && t.ring != [] && t.ring[0] == a && f in t.ring && AllApart(t)
    requires forall y :: In(t, y) ==> Apart(x, y)
    requires forall y :: Apart(x, y) && Apart(a, y) && Apart(f, y) ==> SameLinks(m, m', y)
    requires f != a ==> Fd(m', f) == Fd(m, f) && Bk(m', a) == Bk(m, a)
    requires SameTree(m, m', a) && SameTree(m, m', f)
    ensures forall y :: y in t.ring && y != a ==> Fd(m', y) == Fd(m, y)
    ensures forall y :: y in t.ring && y != f ==> Bk(m', y) == Bk(m, y)
    ensures forall y :: y in t.ring ==> SameTree(m, m', y)
  {
    hide Fd, Bk, Kid, Parent, Index;
    forall y | y in t.ring && y != a && y != f ensures SameLinks(m, m', y) { assert In(t, y) && In(t, a) && In(t, f); }
  }

  lemma InsertRingNode(m: Mem, m': Mem, ring: seq<int>, x: int, par: int, idx: int)
    requires NodeOk(m, ring, par, idx) && NoDup(ring) && x !in ring && x != 0
    requires var t, f := ring[0], Fd(m, ring[0]);
             && Fd(m', t) == x && Bk(m', f) == x && Fd(m', x) == f && Bk(m', x) == t
             && Parent(m', x) == 0 && Kid(m', x, false) == 0 && Kid(m', x, true) == 0 && Index(m', x) == idx
             && (forall y :: y in ring && y != t ==> Fd(m', y) == Fd(m, y))
             && (forall y :: y in ring && y != f ==> Bk(m', y) == Bk(m, y))
             && (forall y :: y in ring ==> SameTree(m, m', y))
    ensures NodeOk(m', [ring[0], x] + ring[1..], par, idx)
  {
    hide Fd, Bk, Kid, Parent, Index;
    RingInsert(m, m', ring, x);
    forall i | 0 <= i < |ring| ensures SameTree(m, m', ring[i]) { assert ring[i] in ring; }
  }

  // ---- removal -------------------------------------------------------------------------------------------

  /** Takes `x` out of its ring. */
  function UnlinkRing(m: Mem, x: int): Mem {
    var f, r := Fd(m, x), Bk(m, x);
    SetFd(SetBk(m, f, r), r, f)
  }

  lemma UnlinkRingEffect(m: Mem, x: int)
    requires var f, r := Fd(m, x), Bk(m, x); f == r || Apart(f, r)
    ensures var f, r, m' := Fd(m, x), Bk(m, x), UnlinkRing(m, x);
            && Bk(m', f) == r && Fd(m', r) == f
            && (f != r ==> Fd(m', f) == Fd(m, f) && Bk(m', r) == Bk(m, r))
            && SameTree(m, m', f) && SameTree(m, m', r)
            && (forall y :: Apart(f, y) && Apart(r, y) ==> SameLinks(m, m', y))
  {
  }

  lemma UnlinkRingFields(m: Mem, m': Mem, t: Trie, x: int)
    requires t.Node? && x in t.ring && AllApart(t) && m' == UnlinkRing(m, x) && RingOk(m, t.ring)
    ensures var f, r := Fd(m, x), Bk(m, x);
            && f in t.ring && r in t.ring
            && Bk(m', f) == r && Fd(m', r) == f
            && (forall y :: y in t.ring && y != r ==> Fd(m', y) == Fd(m, y))
            && (forall y :: y in t.ring && y != f ==> Bk(m', y) == Bk(m, y))
            && (forall y :: y in t.ring ==> SameTree(m, m', y))
            && (forall y :: In(t, y) && y != f && y != r ==> SameLinks(m, m', y))
            && (forall y :: Apart(f, y) && Apart(r, y) ==> SameLinks(m, m', y))
  {
    hide UnlinkRing, Fd, Bk, Kid, Parent, Index, RingOk;
    var f, r := Fd(m, x), Bk(m, x);
    RingNeighbours(m, t.ring, x);
    assert In(t, f) && In(t, r);
    UnlinkRingEffect(m, x);
    forall y | In(t, y) && y != f && y != r ensures SameLinks(m, m', y) {}
    forall y | y in t.ring ensures In(t, y) {}
  }

  lemma RingNeighbours(m: Mem, ring: seq<int>, x: int)
    requires RingOk(m, ring) && x in ring
    ensures Fd(m, x) in ring && Bk(m, x) in ring
  {
    var i :| 0 <= i < |ring| && ring[i] == x;
    assert Fd(m, x) == ring[Next(i, |ring|)] && Bk(m, x) == ring[Prev(i, |ring|)];
  }

  /** A chunk behind the tree node leaves its ring. */
  lemma RemoveRingRep(m: Mem, m': Mem, t: Trie, a: int, par: int, idx: int, lo: nat, k: nat, x: int, bs: map<int, nat>)
    requires t.Node? && WF(t, lo, k) && Typed(t, bs) && Rep(m, t, a, par, idx) && AllApart(t)
    requires x in t.ring && x != a && m' == UnlinkRing(m, x)
    ensures Rep(m', t.(ring := Without(t.ring, x)), a, par, idx)
  {
    hide UnlinkRing, Pow2, Has, Fd, Bk, Parent, Index, Kid, Apart, NodeOk, Without;
    NodeRing(m, t.ring, par, idx);
    var p :| 0 <= p < |t.ring| && t.ring[p] == x;
    UnlinkRingFields(m, m', t, x);
    WithoutIsSlice(t.ring, p);
    RemoveRingNode(m, m', t.ring, p, par, idx);
    var f, r := Fd(m, x), Bk(m, x);
    RingsApart(t, lo, k, bs, f);
    RingsApart(t, lo, k, bs, r);
    RepFrame(m, m', t.left, Kid(m, a, false), a, idx);
    RepFrame(m, m', t.right, Kid(m, a, true), a, idx);
  }

  lemma NodeRing(m: Mem, ring: seq<int>, par: int, idx: int)
    requires NodeOk(m, ring, par, idx)
    ensures ring != [] && ring[0] in ring && ring[0] != 0 && RingOk(m, ring) && Parent(m, ring[0]) == par
    ensures forall y :: y in ring ==> Index(m, y) == idx
  {
  }

  lemma RemoveRingNode(m: Mem, m': Mem, ring: seq<int>, p: nat, par: int, idx: int)
    requires NodeOk(m, ring, par, idx) && NoDup(ring) && 0 < p < |ring|
    requires var f, r := Fd(m, ring[p]), Bk(m, ring[p]);
             && Bk(m', f) == r && Fd(m', r) == f
             && (forall y :: y in ring && y != r ==> Fd(m', y) == Fd(m, y))
             && (forall y :: y in ring && y != f ==> Bk(m', y) == Bk(m, y))
             && (forall y :: y in ring ==> SameTree(m, m', y))
    ensures NodeOk(m', ring[..p] + ring[p + 1..], par, idx)
  {
    hide Fd, Bk, Kid, Parent, Index;
    RingDelete(m, m', ring, p);
    SkipIndices(ring, p);
    forall i | 0 <= i < |ring| ensures SameTree(m, m', ring[i]) { assert ring[i] in ring; }
  }

  /** `t` hangs from another node: only the parent pointer of its root changes. */
  lemma Reparent(m: Mem, m': Mem, t: Trie, a: int, par: int, par': int, idx: int, lo: nat, k: nat, bs: map<int, nat>)
    requires t.Node? && WF(t, lo, k) && Typed(t, bs) && Rep(m, t, a, par, idx)
    requires forall y :: In(t, y) && y != a ==> SameLinks(m, m', y)
    requires && Fd(m, a) == Fd(m', a) && Bk(m, a) == Bk(m', a) && Index(m, a) == Index(m', a)
             && Kid(m, a, false) == Kid(m', a, false) && Kid(m, a, true) == Kid(m', a, true)
             && Parent(m', a) == par'
    ensures Rep(m', t, a, par', idx)
  {
    hide Pow2, Has;
    RingsApart(t, lo, k, bs, a);
    ReparentNode(m, m', t.ring, par, par', idx);
    hide Fd, Bk, Kid, NodeOk, Parent, Index;
    RepFrame(m, m', t.left, Kid(m, a, false), a, idx);
    RepFrame(m, m', t.right, Kid(m, a, true), a, idx);
  }

  lemma ReparentNode(m: Mem, m': Mem, ring: seq<int>, par: int, par': int, idx: int)
    requires NodeOk(m, ring, par, idx) && NoDup(ring)
    requires forall y :: y in ring && y != ring[0] ==> SameLinks(m, m', y)
    requires && Fd(m, ring[0]) == Fd(m', ring[0]) && Bk(m, ring[0]) == Bk(m', ring[0])
             && Index(m, ring[0]) == Index(m', ring[0]) && Parent(m', ring[0]) == par'
    ensures NodeOk(m', ring, par', idx)
  {
    hide Fd, Bk, Kid, Parent, Index;
    forall i | 1 <= i < |ring| ensures SameTree(m, m', ring[i]) { assert ring[i] in ring && ring[i] != ring[0]; }
    RingFrame(m, m', ring);
  }

  /** Hangs child `c` of `x` below `r`, if there is one. */
  function Adopt(m: Mem, r: int, right: bool, c: int): Mem {
    if c == 0 then m else SetParent(SetKid(m, r, right, c), c, r)
  }

  /** `r` takes over the parent and the children of `x`. */
  function TakePlace(m: Mem, x: int, r: int, xp: int): Mem {
    var m1 := Adopt(SetParent(m, r, xp), r, false, Kid(m, x, false));
    Adopt(m1, r, true, Kid(m, x, true))
  }

  /** All links of `c` but its parent. */
  ghost predicate SameButParent(m: Mem, m': Mem, c: int) {
    && Fd(m, c) == Fd(m', c) && Bk(m, c) == Bk(m', c) && Index(m, c) == Index(m', c)
    && Kid(m, c, false) == Kid(m', c, false) && Kid(m, c, true) == Kid(m', c, true)
  }

  lemma AdoptEffect(m: Mem, r: int, right: bool, c: int)
    requires c != 0 ==> Apart(c, r)
    requires c == 0 ==> Kid(m, r, right) == 0
    ensures var m' := Adopt(m, r, right, c);
            && Kid(m', r, right) == c && SameButKid(m, m', r, right)
            && (c != 0 ==> Parent(m', c) == r && SameButParent(m, m', c))
            && (forall y :: Apart(r, y) && (c != 0 ==> Apart(c, y)) ==> SameLinks(m, m', y))
  {
  }

  lemma TakePlaceEffect(m: Mem, x: int, r: int, xp: int)
    requires Kid(m, r, false) == 0 && Kid(m, r, true) == 0
    requires var c0, c1 := Kid(m, x, false), Kid(m, x, true);
             (c0 != 0 ==> Apart(c0, r)) && (c1 != 0 ==> Apart(c1, r)) && (c0 != 0 && c1 != 0 ==> Apart(c0, c1))
    ensures var c0, c1, m' := Kid(m, x, false), Kid(m, x, true), TakePlace(m, x, r, xp);
            && Parent(m', r) == xp && Kid(m', r, false) == c0 && Kid(m', r, true) == c1
            && Fd(m, r) == Fd(m', r) && Bk(m, r) == Bk(m', r) && Index(m, r) == Index(m', r)
            && (c0 != 0 ==> Parent(m', c0) == r && SameButParent(m, m', c0))
            && (c1 != 0 ==> Parent(m', c1) == r && SameButParent(m, m', c1))
            && (forall y :: Apart(r, y) && (c0 != 0 ==> Apart(c0, y)) && (c1 != 0 ==> Apart(c1, y))
                  ==> SameLinks(m, m', y))
  {
    var c0, c1 := Kid(m, x, false), Kid(m, x, true);
    var m0 := SetParent(m, r, xp);
    var m1 := Adopt(m0, r, false, c0);
    assert Kid(m0, r, false) == 0 && Kid(m0, r, true) == 0 && Parent(m0, r) == xp;
    assert SameButParent(m, m0, r);
    assert forall y :: Apart(r, y) ==> SameLinks(m, m0, y);
    AdoptEffect(m0, r, false, c0);
    AdoptEffect(m1, r, true, c1);
    hide Adopt, Fd, Bk, Kid, Parent, Index;
  }

  /** The chunks of one size, about to be hung into the tree: no chunk of the ring has children. */
  ghost predicate Standby(m: Mem, ring: seq<int>, idx: int) {
    && ring != [] && RingOk(m, ring)
    && (forall i :: 0 <= i < |ring| ==>
          ring[i] != 0 && Index(m, ring[i]) == idx && Kid(m, ring[i], false) == 0 && Kid(m, ring[i], true) == 0)
    && (forall i :: 1 <= i < |ring| ==> Parent(m, ring[i]) == 0)
  }

  function Pointers(c0: int, c1: int): set<int> {
    (if c0 == 0 then {} else {c0}) + (if c1 == 0 then {} else {c1})
  }

  /** The subtrees of `t` still hang from `x`, whose place the ring of `t` is about to take. */
  ghost predicate Detached(m: Mem, x: int, t: Trie, idx: int) {
    && t.Node? && Standby(m, t.ring, idx)
    && Rep(m, t.left, Kid(m, x, false), x, idx) && Rep(m, t.right, Kid(m, x, true), x, idx)
  }

  lemma TakePlaceRep(m: Mem, m': Mem, x: int, xp: int, idx: int, t: Trie, lo: nat, k: nat, bs: map<int, nat>)
    requires t.Node? && WF(t, lo, k) && Typed(t, bs) && AllApart(t) && Detached(m, x, t, idx)
    requires m' == TakePlace(m, x, t.ring[0], xp)
    ensures Rep(m', t, t.ring[0], xp, idx)
    ensures forall y :: y in Pointers(Kid(m, x, false), Kid(m, x, true)) ==> In(t, y)
  {
    hide TakePlace, Pow2, Has, Fd, Bk, Parent, Index, Kid, NodeOk, Standby, Apart, WF, Typed;
    RootIn(m, t.left, Kid(m, x, false), x, idx);
    RootIn(m, t.right, Kid(m, x, true), x, idx);
    StandbyHead(m, t.ring, idx);
    PlaceTaken(m, m', x, t.ring[0], xp, idx, t, lo, k, bs);
  }

  lemma PlaceTaken(m: Mem, m': Mem, x: int, r: int, xp: int, idx: int, t: Trie, lo: nat, k: nat, bs: map<int, nat>)
    requires t.Node? && WF(t, lo, k) && Typed(t, bs) && AllApart(t)
    requires Standby(m, t.ring, idx) && r == t.ring[0]
    requires Rep(m, t.left, Kid(m, x, false), x, idx) && Rep(m, t.right, Kid(m, x, true), x, idx)
    requires m' == TakePlace(m, x, r, xp)
    ensures Rep(m', t, r, xp, idx)
  {
    hide TakePlace, Pow2, Has, Fd, Bk, Parent, Index, Kid, NodeOk, Standby;
    var c0, c1 := Kid(m, x, false), Kid(m, x, true);
    RootIn(m, t.left, c0, x, idx);
    RootIn(m, t.right, c1, x, idx);
    StandbyHead(m, t.ring, idx);
    RingsApart(t, lo, k, bs, r);
    RingsApart(t, lo, k, bs, c0);
    assert In(t, r);
    TakePlaceEffect(m, x, r, xp);
    OthersKept(m, m', t, lo, k, bs, r, c0, c1);
    TakePlaceNode(m, m', t.ring, xp, idx);
    if t.left.Node? { Reparent(m, m', t.left, c0, x, r, idx, lo, k - 1, bs); }
    if t.right.Node? { Reparent(m, m', t.right, c1, x, r, idx, lo + Pow2(k - 1), k - 1, bs); }
  }

  lemma RootIn(m: Mem, t: Trie, a: int, par: int, idx: int)
    requires Rep(m, t, a, par, idx)
    ensures a == 0 <==> t.Nil?
    ensures t.Node? ==> t.ring != [] && a == t.ring[0] && In(t, a)
  {
  }

  lemma StandbyHead(m: Mem, ring: seq<int>, idx: int)
    requires Standby(m, ring, idx)
    ensures ring != [] && ring[0] in ring && ring[0] != 0 && Kid(m, ring[0], false) == 0 && Kid(m, ring[0], true) == 0
  {
  }

  lemma OthersKept(m: Mem, m': Mem, t: Trie, lo: nat, k: nat, bs: map<int, nat>, r: int, c0: int, c1: int)
    requires t.Node? && WF(t, lo, k) && Typed(t, bs) && AllApart(t) && t.ring[0] == r
    requires c0 != 0 ==> In(t.left, c0)
    requires c1 != 0 ==> In(t.right, c1)
    requires forall y :: Apart(r, y) && (c0 != 0 ==> Apart(c0, y)) && (c1 != 0 ==> Apart(c1, y)) ==> SameLinks(m, m', y)
    ensures forall y :: y in t.ring && y != r ==> SameLinks(m, m', y)
    ensures forall y :: In(t.left, y) && y != c0 ==> SameLinks(m, m', y)
    ensures forall y :: In(t.right, y) && y != c1 ==> SameLinks(m, m', y)
  {
    hide Pow2, Has, SameLinks, Apart;
    assert In(t, r) && (c0 != 0 ==> In(t, c0)) && (c1 != 0 ==> In(t, c1));
    forall y | (y in t.ring && y != r) || (In(t.left, y) && y != c0) || (In(t.right, y) && y != c1)
      ensures SameLinks(m, m', y)
    {
      assert In(t, y);
      RingsApart(t, lo, k, bs, y);
      RingsApart(t, lo, k, bs, r);
    }
  }

  lemma TakePlaceNode(m: Mem, m': Mem, ring: seq<int>, xp: int, idx: int)
    requires Standby(m, ring, idx) && NoDup(ring)
    requires forall y :: y in ring && y != ring[0] ==> SameLinks(m, m', y)
    requires var r := ring[0];
             Fd(m, r) == Fd(m', r) && Bk(m, r) == Bk(m', r) && Index(m, r) == Index(m', r) && Parent(m', r) == xp
    ensures NodeOk(m', ring, xp, idx)
  {
    hide Fd, Bk, Kid, Parent, Index;
    forall i | 1 <= i < |ring| ensures SameTree(m, m', ring[i]) { assert ring[i] in ring && ring[i] != ring[0]; }
    RingFrame(m, m', ring);
  }

  /** The tree node leaves a ring of several chunks; the chunk before it is to take its place. */
  lemma HeadDetached(m: Mem, m': Mem, t: Trie, x: int, par: int, idx: int, lo: nat, k: nat, bs: map<int, nat>)
    requires t.Node? && WF(t, lo, k) && Typed(t, bs) && Rep(m, t, x, par, idx) && AllApart(t) && |t.ring| > 1
    requires m' == UnlinkRing(m, x)
    ensures Detached(m', x, t.(ring := RingWithout(t.ring, x)), idx)
    ensures RingWithout(t.ring, x) != [] && RingWithout(t.ring, x)[0] == Bk(m, x)
  {
    hide UnlinkRing, Pow2, Has, Fd, Bk, Parent, Index, Kid, Apart, NodeOk, RingWithout;
    var f, r := Fd(m, x), Bk(m, x);
    NodeRing(m, t.ring, par, idx);
    UnlinkRingFields(m, m', t, x);
    BeheadStandby(m, m', t.ring, par, idx);
    RingsApart(t, lo, k, bs, f);
    RingsApart(t, lo, k, bs, r);
    RepFrame(m, m', t.left, Kid(m, x, false), x, idx);
    RepFrame(m, m', t.right, Kid(m, x, true), x, idx);
  }

  lemma BeheadStandby(m: Mem, m': Mem, ring: seq<int>, par: int, idx: int)
    requires NodeOk(m, ring, par, idx) && NoDup(ring) && |ring| > 1
    requires var f, r := Fd(m, ring[0]), Bk(m, ring[0]);
             && r in ring && Bk(m', f) == r && Fd(m', r) == f
             && (forall y :: y in ring && y != r ==> Fd(m', y) == Fd(m, y))
             && (forall y :: y in ring && y != f ==> Bk(m', y) == Bk(m, y))
             && (forall y :: y in ring ==> SameTree(m, m', y))
    ensures Standby(m', RingWithout(ring, ring[0]), idx) && RingWithout(ring, ring[0])[0] == Bk(m, ring[0])
  {
    hide Fd, Bk, Kid, Parent, Index;
    RingBehead(m, m', ring);
    forall i | 0 <= i < |ring| ensures SameTree(m, m', ring[i]) { assert ring[i] in ring; }
    assert Bk(m, ring[0]) == ring[|ring| - 1];
    var ring' := RingWithout(ring, ring[0]);
    forall i | 0 <= i < |ring'| ensures ring'[i] == ring[if i == 0 then |ring| - 1 else i] {}
  }

  // ---- the leaf that replaces an emptied node ----------------------------------------------------------

  /** The node from which the descent to the last leaf takes its final step, and the side it takes. */
  ghost function LeafAbove(t: Trie): (int, bool)
    requires t.Node? && !Leaf(t)
  {
    var right := t.right.Node?;
    var c := Child(t, right);
    if Leaf(c) then (if t.ring == [] then 0 else t.ring[0], right) else LeafAbove(c)
  }

  /** Clearing that pointer drops the last leaf and nothing else. */
  lemma {:induction false} DropLeafRep(m: Mem, m': Mem, t: Trie, a: int, par: int, idx: int, lo: nat, k: nat,
                                       bs: map<int, nat>)
    requires t.Node? && !Leaf(t) && WF(t, lo, k) && Typed(t, bs) && Rep(m, t, a, par, idx) && AllApart(t)
    requires m' == SetKid(m, LeafAbove(t).0, LeafAbove(t).1, 0)
    ensures Rep(m', DropLeaf(t), a, par, idx)
    ensures In(t, LeafAbove(t).0) && LeafAbove(t).0 !in LastLeaf(t).ring && LastLeaf(t).ring != []
    ensures Rep(m, LastLeaf(t), LastLeaf(t).ring[0], LeafAbove(t).0, idx)
    ensures Kid(m, LeafAbove(t).0, LeafAbove(t).1) == LastLeaf(t).ring[0]
    decreases t
  {
    hide Pow2, Has, Fd, Bk, Parent, Index, NodeOk;
    var right := t.right.Node?;
    var c := Child(t, right);
    var h := if right then lo + Pow2(k - 1) else lo;
    var (q, qr) := LeafAbove(t);
    NodeRing(m, t.ring, par, idx);
    RingsApart(t, lo, k, bs, q);
    ChildApart(t, right);
    LastLeafIsPart(c, h, k - 1, bs);
    RootIn(m, c, Kid(m, a, right), a, idx);
    if Leaf(c) {
      DropKeeps(m, m', t, q, qr);
      RingsApart(t, lo, k, bs, c.ring[0]);
      GraftAtChild(m, m', t, a, par, idx, lo, k, right, Nil, bs);
    } else {
      DropLeafRep(m, m', c, Kid(m, a, right), a, idx, h, k - 1, bs);
      RingsApart(t, lo, k, bs, a);
      DropKeeps(m, m', t, q, qr);
      assert In(t, a) && a != q && SameLinks(m, m', a);
      GraftAtChild(m, m', t, a, par, idx, lo, k, right, DropLeaf(c), bs);
    }
  }

  lemma ChildApart(t: Trie, right: bool)
    requires t.Node? && AllApart(t)
    ensures AllApart(Child(t, right))
  {
    hide Apart;
    InChild(t, right);
  }

  lemma DropKeeps(m: Mem, m': Mem, t: Trie, q: int, qr: bool)
    requires AllApart(t) && In(t, q) && m' == SetKid(m, q, qr, 0)
    ensures Kid(m', q, qr) == 0 && SameButKid(m, m', q, qr)
    ensures forall y :: In(t, y) && y != q ==> SameLinks(m, m', y)
  {
    forall y | In(t, y) && y != q ensures SameLinks(m, m', y) {
      assert Apart(q, y);
    }
  }

  /** An emptied inner node: its last leaf is to take its place. */
  lemma LeafDetached(m: Mem, m': Mem, t: Trie, x: int, par: int, idx: int, lo: nat, k: nat, bs: map<int, nat>)
    requires t.Node? && !Leaf(t) && WF(t, lo, k) && Typed(t, bs) && Rep(m, t, x, par, idx) && AllApart(t)
    requires t.ring == [x] && m' == SetKid(m, LeafAbove(t).0, LeafAbove(t).1, 0)
    ensures Detached(m', x, RemoveHere(t, x), idx)
    ensures RemoveHere(t, x).ring == LastLeaf(t).ring
  {
    hide Pow2, Has, Fd, Bk, Parent, Index, Kid, Apart, NodeOk, SetKid, WF;
    DropLeafRep(m, m', t, x, par, idx, lo, k, bs);
    LastLeafIsPart(t, lo, k, bs);
    var (q, qr) := LeafAbove(t);
    DropKeeps(m, m', t, q, qr);
    forall y | y in LastLeaf(t).ring ensures SameLinks(m, m', y) { assert In(t, y); }
    RepFrame(m, m', LastLeaf(t), LastLeaf(t).ring[0], q, idx);
    LeafStandby(m', LastLeaf(t), q, idx);
  }

  lemma LeafStandby(m: Mem, t: Trie, par: int, idx: int)
    requires Leaf(t) && t.ring != [] && Rep(m, t, t.ring[0], par, idx)
    ensures Standby(m, t.ring, idx)
  {
  }

  lemma DetachedFrame(m: Mem, m': Mem, x: int, t: Trie, idx: int)
    requires Detached(m, x, t, idx)
    requires forall y :: In(t, y) ==> SameLinks(m, m', y)
    requires SameLinks(m, m', x)
    ensures Detached(m', x, t, idx)
  {
    hide Fd, Bk, Parent, Index, Kid;
    RepFrame(m, m', t.left, Kid(m, x, false), x, idx);
    RepFrame(m, m', t.right, Kid(m, x, true), x, idx);
    forall y | y in t.ring ensures SameLinks(m, m', y) { assert In(t, y); }
    hide In, Rep;
    AllFields(m, m', t.ring);
    RingFrame(m, m', t.ring);
  }

  // ---- which words an update touches --------------------------------------------------------------------

  /** Only link paragraphs of the chunks in `at` differ. */
  ghost predicate Only(m: Mem, m': Mem, at: set<int>) {
    forall a :: a - 16 !in at && a - 32 !in at && a - 48 !in at ==> Lo(m, a) == Lo(m', a) && Hi(m, a) == Hi(m', a)
  }

  lemma OnlySameLinks(m: Mem, m': Mem, at: set<int>, y: int)
    requires Only(m, m', at) && forall z :: z in at ==> Apart(z, y)
    ensures SameLinks(m, m', y)
  {
  }

  lemma OnlyTrans(m: Mem, m1: Mem, m2: Mem, at: set<int>, at': set<int>)
    requires Only(m, m1, at) && Only(m1, m2, at')
    ensures Only(m, m2, at + at')
  {
  }

  lemma TouchInit(m: Mem, x: int, idx: int, par: int)
    ensures Only(m, InitNode(m, x, idx), {x}) && Only(m, LinkSelf(m, x, par), {x})
  {
  }

  lemma TouchKid(m: Mem, q: int, right: bool, v: int)
    ensures Only(m, SetKid(m, q, right, v), {q})
  {
  }

  lemma TouchLinkRing(m: Mem, t: int, x: int)
    ensures Only(m, LinkRing(m, t, x), {t, Fd(m, t), x})
  {
  }

  lemma TouchUnlinkRing(m: Mem, x: int)
    ensures Only(m, UnlinkRing(m, x), {Fd(m, x), Bk(m, x)})
  {
  }

  lemma TouchTakePlace(m: Mem, x: int, r: int, xp: int)
    ensures Only(m, TakePlace(m, x, r, xp), {r} + Pointers(Kid(m, x, false), Kid(m, x, true)))
  {
  }
}
