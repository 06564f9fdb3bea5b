/**
 * The bitwise tries that hold large free chunks. A node stands for one chunk size; its ring lists every chunk
 * of that size in `fd` order, the first being the one linked into the tree. A subtree that still has `k`
 * undecided bits above `lo` holds sizes in [lo, lo + 2^k) only.
 */
module Tries {
  import opened Words

  datatype Trie = Nil | Node(size: nat, ring: seq<int>, left: Trie, right: Trie)

  /** Some node of `t` has size `s`. */
  ghost predicate Has(t: Trie, s: nat) {
    t.Node? && (t.size == s || Has(t.left, s) || Has(t.right, s))
  }

  /** Chunk `x` is in a ring of `t`. */
  ghost predicate In(t: Trie, x: int) {
    t.Node? && (x in t.ring || In(t.left, x) || In(t.right, x))
  }

  ghost predicate NoDup(ring: seq<int>) {
    forall i, j :: 0 <= i < j < |ring| ==> ring[i] != ring[j]
  }

  /** Shared-prefix order, one node per size, rings without repetition. */
  ghost predicate WF(t: Trie, lo: nat, k: nat)
    decreases t
  {
    t.Node? ==>
      && lo <= t.size < lo + Pow2(k)
      && t.ring != [] && NoDup(t.ring)
      && !Has(t.left, t.size) && !Has(t.right, t.size)
      && (k == 0 ==> t.left == Nil && t.right == Nil)
      && (k > 0 ==> WF(t.left, lo, k - 1) && WF(t.right, lo + Pow2(k - 1), k - 1))
  }

  /** Every chunk of a ring has the size of its node. */
  ghost predicate Typed(t: Trie, bs: map<int, nat>) {
    t.Node? ==>
      && (forall x :: x in t.ring ==> x in bs && bs[x] == t.size)
      && Typed(t.left, bs) && Typed(t.right, bs)
  }

  ghost function Height(t: Trie): nat {
    match t
    case Nil => 0
    case Node(_, _, l, r) => 1 + if Height(l) > Height(r) then Height(l) else Height(r)
  }

  // ---- ranges --------------------------------------------------------------------------------------------

  lemma {:induction false} SizeInRange(t: Trie, lo: nat, k: nat, s: nat)
    requires WF(t, lo, k) && Has(t, s)
    ensures lo <= s < lo + Pow2(k)
    decreases t
  {
    if t.size != s {
      if Has(t.left, s) {
        SizeInRange(t.left, lo, k - 1, s);
      } else {
        SizeInRange(t.right, lo + Pow2(k - 1), k - 1, s);
      }
    }
  }

  /** A descent visits at most one node per undecided bit, plus the last one. */
  lemma {:induction false} HeightBound(t: Trie, lo: nat, k: nat)
    requires WF(t, lo, k)
    ensures Height(t) <= k + 1
    decreases t
  {
    if t.Node? && k > 0 {
      HeightBound(t.left, lo, k - 1);
      HeightBound(t.right, lo + Pow2(k - 1), k - 1);
    }
  }

  lemma {:induction false} MemberTyped(t: Trie, bs: map<int, nat>, x: int)
    requires Typed(t, bs) && In(t, x)
    ensures x in bs && Has(t, bs[x])
  {
    if x !in t.ring {
      if In(t.left, x) { MemberTyped(t.left, bs, x); } else { MemberTyped(t.right, bs, x); }
    }
  }

  lemma {:induction false} TypedMono(t: Trie, bs: map<int, nat>, bs': map<int, nat>)
    requires Typed(t, bs)
    requires forall x :: In(t, x) && x in bs ==> x in bs' && bs'[x] == bs[x]
    ensures Typed(t, bs')
  {
    if t.Node? {
      forall x | x in t.ring ensures x in bs' && bs'[x] == t.size { assert In(t, x); }
      forall x | In(t.left, x) && x in bs ensures x in bs' && bs'[x] == bs[x] { assert In(t, x); }
      forall x | In(t.right, x) && x in bs ensures x in bs' && bs'[x] == bs[x] { assert In(t, x); }
      TypedMono(t.left, bs, bs');
      TypedMono(t.right, bs, bs');
    }
  }

  // ---- the place of a size -----------------------------------------------------------------------------

  /** Whether size `s` belongs to the right half of a range with `k` undecided bits. */
  predicate GoesRight(lo: nat, k: nat, s: nat)
    requires k > 0
  {
    s >= lo + Pow2(k - 1)
  }

  function Half(lo: nat, k: nat, s: nat): nat
    requires k > 0
  {
    if GoesRight(lo, k, s) then lo + Pow2(k - 1) else lo
  }

  function Child(t: Trie, right: bool): Trie
    requires t.Node?
  {
    if right then t.right else t.left
  }

  function WithChild(t: Trie, right: bool, c: Trie): Trie
    requires t.Node?
  {
    if right then t.(right := c) else t.(left := c)
  }

  /** The subtree at the place of `s`: the node of that size, or the hole where it would be inserted. */
  ghost function SubAt(t: Trie, lo: nat, k: nat, s: nat): Trie
    decreases t
  {
    if t.Nil? || t.size == s || k == 0 then t
    else SubAt(Child(t, GoesRight(lo, k, s)), Half(lo, k, s), k - 1, s)
  }

  /** The range of the place of `s`. */
  ghost function Spot(t: Trie, lo: nat, k: nat, s: nat): (nat, nat)
    decreases t
  {
    if t.Nil? || t.size == s || k == 0 then (lo, k)
    else Spot(Child(t, GoesRight(lo, k, s)), Half(lo, k, s), k - 1, s)
  }

  /** `t` with the subtree at the place of `s` replaced. */
  ghost function Replace(t: Trie, lo: nat, k: nat, s: nat, sub: Trie): Trie
    decreases t
  {
    if t.Nil? || t.size == s || k == 0 then sub
    else
      WithChild(t, GoesRight(lo, k, s),
        Replace(Child(t, GoesRight(lo, k, s)), Half(lo, k, s), k - 1, s, sub))
  }

  /** The child on the side of `s` is a range of half the width that still contains `s`. */
  lemma ChildRange(t: Trie, lo: nat, k: nat, s: nat)
    requires WF(t, lo, k) && lo <= s < lo + Pow2(k) && t.Node? && k > 0
    ensures WF(Child(t, GoesRight(lo, k, s)), Half(lo, k, s), k - 1)
    ensures Half(lo, k, s) <= s < Half(lo, k, s) + Pow2(k - 1)
    ensures !Has(Child(t, !GoesRight(lo, k, s)), s)
    ensures !Has(Child(t, GoesRight(lo, k, s)), t.size)
  {
    Pow2Step(k - 1);
    if GoesRight(lo, k, s) {
      if Has(t.left, s) { SizeInRange(t.left, lo, k - 1, s); }
    } else {
      if Has(t.right, s) { SizeInRange(t.right, lo + Pow2(k - 1), k - 1, s); }
    }
  }

  lemma SidesApart(t: Trie, lo: nat, k: nat, z: nat)
    requires WF(t, lo, k) && t.Node?
    ensures !(Has(t.left, z) && Has(t.right, z))
  {
    if Has(t.left, z) && Has(t.right, z) {
      SizeInRange(t.left, lo, k - 1, z);
      SizeInRange(t.right, lo + Pow2(k - 1), k - 1, z);
    }
  }

  lemma {:induction false} SubAtIsPart(t: Trie, lo: nat, k: nat, s: nat)
    requires WF(t, lo, k) && lo <= s < lo + Pow2(k)
    ensures WF(SubAt(t, lo, k, s), Spot(t, lo, k, s).0, Spot(t, lo, k, s).1)
    ensures Spot(t, lo, k, s).0 <= s < Spot(t, lo, k, s).0 + Pow2(Spot(t, lo, k, s).1)
    ensures SubAt(t, lo, k, s).Node? ==> SubAt(t, lo, k, s).size == s && SubAt(t, lo, k, s).ring != []
    ensures SubAt(t, lo, k, s).Node? <==> Has(t, s)
    decreases t
  {
    if t.Nil? || t.size == s || k == 0 {
      Pow2Zero();
    } else {
      ChildRange(t, lo, k, s);
      hide WF, Pow2;
      SubAtIsPart(Child(t, GoesRight(lo, k, s)), Half(lo, k, s), k - 1, s);
    }
  }

  lemma {:induction false} SubAtHas(t: Trie, lo: nat, k: nat, s: nat, z: nat)
    ensures Has(SubAt(t, lo, k, s), z) ==> Has(t, z)
    decreases t
  {
    if !(t.Nil? || t.size == s || k == 0) {
      SubAtHas(Child(t, GoesRight(lo, k, s)), Half(lo, k, s), k - 1, s, z);
    }
  }

  lemma {:induction false} SubAtIn(t: Trie, lo: nat, k: nat, s: nat, x: int)
    ensures In(SubAt(t, lo, k, s), x) ==> In(t, x)
    decreases t
  {
    if !(t.Nil? || t.size == s || k == 0) {
      SubAtIn(Child(t, GoesRight(lo, k, s)), Half(lo, k, s), k - 1, s, x);
    }
  }

  lemma StepDown(t: Trie, lo: nat, k: nat, s: nat, sub: Trie)
    requires t.Node? && t.size != s && k > 0
    ensures var right, h := GoesRight(lo, k, s), Half(lo, k, s);
            var c := Child(t, right);
            && Replace(t, lo, k, s, sub) == WithChild(t, right, Replace(c, h, k - 1, s, sub))
            && SubAt(t, lo, k, s) == SubAt(c, h, k - 1, s)
            && Spot(t, lo, k, s) == Spot(c, h, k - 1, s)
  {
  }

  /** Replacing exchanges exactly the sizes of the subtree. */
  lemma {:induction false} ReplaceHas(t: Trie, lo: nat, k: nat, s: nat, sub: Trie, z: nat)
    requires WF(t, lo, k) && lo <= s < lo + Pow2(k)
    ensures Has(Replace(t, lo, k, s, sub), z) <==>
              (Has(t, z) && !Has(SubAt(t, lo, k, s), z)) || Has(sub, z)
    decreases t
  {
    if !(t.Nil? || t.size == s || k == 0) {
      var right, h := GoesRight(lo, k, s), Half(lo, k, s);
      var c := Child(t, right);
      hide WF, Pow2, Replace, SubAt;
      StepDown(t, lo, k, s, sub);
      ChildRange(t, lo, k, s);
      SidesApart(t, lo, k, z);
      ReplaceHas(c, h, k - 1, s, sub, z);
      SubAtHas(c, h, k - 1, s, z);
    }
  }

  lemma WithChildKeepsOrder(t: Trie, lo: nat, k: nat, right: bool, c: Trie)
    requires t.Node? && k > 0 && WF(t, lo, k)
    requires WF(c, if right then lo + Pow2(k - 1) else lo, k - 1) && !Has(c, t.size)
    ensures WF(WithChild(t, right, c), lo, k)
  {
  }

  lemma {:induction false} ReplaceKeepsOrder(t: Trie, lo: nat, k: nat, s: nat, sub: Trie)
    requires WF(t, lo, k) && lo <= s < lo + Pow2(k)
    requires WF(sub, Spot(t, lo, k, s).0, Spot(t, lo, k, s).1)
    requires forall z :: Has(sub, z) ==> z == s || Has(SubAt(t, lo, k, s), z)
    ensures WF(Replace(t, lo, k, s, sub), lo, k)
    decreases t
  {
    if !(t.Nil? || t.size == s || k == 0) {
      var right, h := GoesRight(lo, k, s), Half(lo, k, s);
      var c := Child(t, right);
      hide Pow2, Replace, SubAt, Spot, Has, WF;
      StepDown(t, lo, k, s, sub);
      ChildRange(t, lo, k, s);
      ReplaceKeepsOrder(c, h, k - 1, s, sub);
      ReplaceHas(c, h, k - 1, s, sub, t.size);
      SubAtHas(c, h, k - 1, s, t.size);
      WithChildKeepsOrder(t, lo, k, right, Replace(c, h, k - 1, s, sub));
    }
  }

  lemma {:induction false} SubAtTyped(t: Trie, lo: nat, k: nat, s: nat, bs: map<int, nat>)
    requires Typed(t, bs)
    ensures Typed(SubAt(t, lo, k, s), bs)
    decreases t
  {
    if !(t.Nil? || t.size == s || k == 0) {
      SubAtTyped(Child(t, GoesRight(lo, k, s)), Half(lo, k, s), k - 1, s, bs);
    }
  }

  /** A chunk of the node and one of a child, or chunks of the two children, are different chunks. */
  lemma RingsApart(t: Trie, lo: nat, k: nat, bs: map<int, nat>, x: int)
    requires t.Node? && WF(t, lo, k) && Typed(t, bs)
    ensures x in t.ring ==> !In(t.left, x) && !In(t.right, x)
    ensures In(t.left, x) ==> !In(t.right, x)
  {
    hide Has, Pow2, In;
    if In(t.left, x) {
      MemberTyped(t.left, bs, x);
      SidesApart(t, lo, k, bs[x]);
    }
    if In(t.right, x) {
      MemberTyped(t.right, bs, x);
      SidesApart(t, lo, k, bs[x]);
    }
  }

  /** Replacing exchanges exactly the chunks of the subtree. */
  lemma {:induction false} ReplaceIn(t: Trie, lo: nat, k: nat, s: nat, sub: Trie, bs: map<int, nat>, x: int)
    requires WF(t, lo, k) && lo <= s < lo + Pow2(k) && Typed(t, bs)
    ensures In(Replace(t, lo, k, s, sub), x) <==>
              (In(t, x) && !In(SubAt(t, lo, k, s), x)) || In(sub, x)
    decreases t
  {
    if !(t.Nil? || t.size == s || k == 0) {
      var right, h := GoesRight(lo, k, s), Half(lo, k, s);
      var c := Child(t, right);
      hide WF, Pow2, Replace, SubAt, Has;
      StepDown(t, lo, k, s, sub);
      ChildRange(t, lo, k, s);
      RingsApart(t, lo, k, bs, x);
      ReplaceIn(c, h, k - 1, s, sub, bs, x);
      SubAtIn(c, h, k - 1, s, x);
    }
  }

  lemma {:induction false} ReplaceTyped(t: Trie, lo: nat, k: nat, s: nat, sub: Trie, bs: map<int, nat>)
    requires Typed(t, bs) && Typed(sub, bs)
    ensures Typed(Replace(t, lo, k, s, sub), bs)
    decreases t
  {
    if !(t.Nil? || t.size == s || k == 0) {
      ReplaceTyped(Child(t, GoesRight(lo, k, s)), Half(lo, k, s), k - 1, s, sub, bs);
    }
  }

  // ---- insertion ---------------------------------------------------------------------------------------

  /** A new chunk becomes a leaf, or enters the ring of its size right after the tree node. */
  ghost function InsertHere(t: Trie, x: int, s: nat): Trie
    requires t.Node? ==> t.ring != []
  {
    match t
    case Nil => Node(s, [x], Nil, Nil)
    case Node(_, ring, _, _) => t.(ring := [ring[0], x] + ring[1..])
  }

  ghost function Insert(t: Trie, lo: nat, k: nat, x: int, s: nat): Trie
    requires WF(t, lo, k) && lo <= s < lo + Pow2(k)
  {
    SubAtIsPart(t, lo, k, s);
    Replace(t, lo, k, s, InsertHere(SubAt(t, lo, k, s), x, s))
  }

  lemma InsertHereFits(t: Trie, lo: nat, k: nat, x: int, s: nat, bs: map<int, nat>)
    requires WF(t, lo, k) && lo <= s < lo + Pow2(k) && Typed(t, bs)
    requires (t.Node? ==> t.size == s) && x !in bs
    ensures WF(InsertHere(t, x, s), lo, k) && Typed(InsertHere(t, x, s), bs[x := s])
    ensures forall z :: Has(InsertHere(t, x, s), z) <==> Has(t, z) || z == s
    ensures forall y :: In(InsertHere(t, x, s), y) <==> In(t, y) || y == x
  {
    if t.Node? {
      var ring := t.ring;
      var ring' := [ring[0], x] + ring[1..];
      assert ring == [ring[0]] + ring[1..];
      assert forall y :: y in ring' <==> y in ring || y == x;
      hide Pow2, Has, In;
      ChildrenTypedMono(t, bs, x, s);
    }
  }

  lemma ChildrenTypedMono(t: Trie, bs: map<int, nat>, x: int, s: nat)
    requires t.Node? && Typed(t, bs) && x !in bs
    ensures Typed(t.left, bs[x := s]) && Typed(t.right, bs[x := s])
  {
    TypedMono(t.left, bs, bs[x := s]);
    TypedMono(t.right, bs, bs[x := s]);
  }

  /** Insertion adds exactly one chunk and keeps the order, the sizes and the rings. */
  lemma InsertAddsOne(t: Trie, lo: nat, k: nat, x: int, s: nat, bs: map<int, nat>)
    requires WF(t, lo, k) && lo <= s < lo + Pow2(k) && Typed(t, bs) && x !in bs
    ensures WF(Insert(t, lo, k, x, s), lo, k) && Typed(Insert(t, lo, k, x, s), bs[x := s])
    ensures forall y :: In(Insert(t, lo, k, x, s), y) <==> In(t, y) || y == x
  {
    hide WF, Pow2, Replace, SubAt, Has, In, Typed, InsertHere;
    var sub := SubAt(t, lo, k, s);
    SubAtIsPart(t, lo, k, s);
    SubAtTyped(t, lo, k, s, bs);
    InsertHereFits(sub, Spot(t, lo, k, s).0, Spot(t, lo, k, s).1, x, s, bs);
    var sub' := InsertHere(sub, x, s);
    ReplaceKeepsOrder(t, lo, k, s, sub');
    TypedMono(t, bs, bs[x := s]);
    ReplaceTyped(t, lo, k, s, sub', bs[x := s]);
    forall y ensures In(Replace(t, lo, k, s, sub'), y) <==> In(t, y) || y == x {
      ReplaceIn(t, lo, k, s, sub', bs, y);
      SubAtIn(t, lo, k, s, y);
    }
  }

  // ---- removal -----------------------------------------------------------------------------------------

  predicate Leaf(t: Trie) {
    t.Node? && t.left == Nil && t.right == Nil
  }

  /** The leaf reached by always preferring the right child, and the trie without it. */
  ghost function LastLeaf(t: Trie): (r: Trie)
    requires t.Node?
    ensures Leaf(r)
  {
    if t.right.Node? then LastLeaf(t.right) else if t.left.Node? then LastLeaf(t.left) else t
  }

  ghost function DropLeaf(t: Trie): Trie
    requires t.Node?
  {
    if t.right.Node? then t.(right := DropLeaf(t.right))
    else if t.left.Node? then t.(left := DropLeaf(t.left))
    else Nil
  }

  /** Ring without chunk `x`; when `x` is the tree node, its `bk` neighbour takes its place. */
  function RingWithout(ring: seq<int>, x: int): seq<int>
    requires |ring| > 1
  {
    if ring[0] == x then [ring[|ring| - 1]] + ring[1..|ring| - 1] else Without(ring, x)
  }

  function Without(ring: seq<int>, x: int): seq<int> {
    if ring == [] then [] else if ring[0] == x then ring[1..] else [ring[0]] + Without(ring[1..], x)
  }

  /** Removal of chunk `x` at its node; an emptied interior node is replaced by a leaf below it. */
  ghost function RemoveHere(t: Trie, x: int): Trie
    requires t.Node?
  {
    if |t.ring| > 1 then t.(ring := RingWithout(t.ring, x))
    else if t.right.Node? then
      Node(LastLeaf(t.right).size, LastLeaf(t.right).ring, t.left, DropLeaf(t.right))
    else if t.left.Node? then
      Node(LastLeaf(t.left).size, LastLeaf(t.left).ring, DropLeaf(t.left), Nil)
    else Nil
  }

  ghost function Remove(t: Trie, lo: nat, k: nat, x: int, s: nat): Trie
    requires WF(t, lo, k) && lo <= s < lo + Pow2(k) && Has(t, s)
  {
    SubAtIsPart(t, lo, k, s);
    Replace(t, lo, k, s, RemoveHere(SubAt(t, lo, k, s), x))
  }

  lemma {:induction false} LastLeafIsPart(t: Trie, lo: nat, k: nat, bs: map<int, nat>)
    requires t.Node? && WF(t, lo, k) && Typed(t, bs)
    ensures LastLeaf(t).ring != [] && NoDup(LastLeaf(t).ring)
    ensures Has(t, LastLeaf(t).size) && Typed(LastLeaf(t), bs)
    ensures forall x :: x in LastLeaf(t).ring ==> In(t, x)
    decreases t
  {
    if t.right.Node? {
      LastLeafIsPart(t.right, lo + Pow2(k - 1), k - 1, bs);
    } else if t.left.Node? {
      LastLeafIsPart(t.left, lo, k - 1, bs);
    }
  }

  lemma {:induction false} DropLeafOrder(t: Trie, lo: nat, k: nat, bs: map<int, nat>)
    requires t.Node? && WF(t, lo, k) && Typed(t, bs)
    ensures WF(DropLeaf(t), lo, k) && Typed(DropLeaf(t), bs)
    ensures forall z :: Has(DropLeaf(t), z) <==> Has(t, z) && z != LastLeaf(t).size
    ensures forall x :: In(DropLeaf(t), x) <==> In(t, x) && x !in LastLeaf(t).ring
    decreases t
  {
    if t.right.Node? {
      DropLeafOrder(t.right, lo + Pow2(k - 1), k - 1, bs);
      LastLeafIsPart(t.right, lo + Pow2(k - 1), k - 1, bs);
      forall z ensures Has(DropLeaf(t), z) <==> Has(t, z) && z != LastLeaf(t).size {
        SidesApart(t, lo, k, z);
      }
      forall x ensures In(DropLeaf(t), x) <==> In(t, x) && x !in LastLeaf(t).ring {
        RingsApart(t, lo, k, bs, x);
      }
    } else if t.left.Node? {
      DropLeafOrder(t.left, lo, k - 1, bs);
      LastLeafIsPart(t.left, lo, k - 1, bs);
      forall x ensures In(DropLeaf(t), x) <==> In(t, x) && x !in LastLeaf(t).ring {
        RingsApart(t, lo, k, bs, x);
      }
    }
  }

  lemma {:induction false} WithoutIs(ring: seq<int>, x: int)
    requires NoDup(ring)
    ensures NoDup(Without(ring, x))
    ensures forall y :: y in Without(ring, x) <==> y in ring && y != x
    ensures |Without(ring, x)| == |ring| - if x in ring then 1 else 0
  {
    if ring != [] && ring[0] != x {
      assert ring == [ring[0]] + ring[1..];
      WithoutIs(ring[1..], x);
      NoDupCons(ring[0], Without(ring[1..], x));
    } else if ring != [] {
      assert ring == [ring[0]] + ring[1..];
    }
  }

  lemma {:induction false} WithoutIsSlice(ring: seq<int>, p: nat)
    requires p < |ring| && NoDup(ring)
    ensures Without(ring, ring[p]) == ring[..p] + ring[p + 1..]
  {
    if p > 0 {
      assert ring[0] != ring[p];
      WithoutIsSlice(ring[1..], p - 1);
      assert ring[..p] == [ring[0]] + ring[1..][..p - 1];
      assert ring[1..][p..] == ring[p + 1..];
    }
  }

  lemma NoDupCons(y: int, ring: seq<int>)
    requires NoDup(ring) && y !in ring
    ensures NoDup([y] + ring)
  {
  }

  lemma RingWithoutIs(ring: seq<int>, x: int)
    requires NoDup(ring) && |ring| > 1
    ensures NoDup(RingWithout(ring, x)) && RingWithout(ring, x) != []
    ensures forall y :: y in RingWithout(ring, x) <==> y in ring && y != x
  {
    if ring[0] == x {
      var last, mid := ring[|ring| - 1], ring[1..|ring| - 1];
      assert ring == [x] + mid + [last];
      NoDupCons(last, mid);
    } else {
      WithoutIs(ring, x);
    }
  }

  lemma RemoveHereFits(t: Trie, lo: nat, k: nat, x: int, bs: map<int, nat>)
    requires t.Node? && WF(t, lo, k) && Typed(t, bs) && x in t.ring
    ensures WF(RemoveHere(t, x), lo, k) && Typed(RemoveHere(t, x), bs)
    ensures forall z :: Has(RemoveHere(t, x), z) ==> Has(t, z)
    ensures forall y :: In(RemoveHere(t, x), y) <==> In(t, y) && y != x
  {
    if |t.ring| > 1 {
      RingWithoutIs(t.ring, x);
      forall y ensures In(RemoveHere(t, x), y) <==> In(t, y) && y != x {
        RingsApart(t, lo, k, bs, x);
      }
    } else {
      assert t.ring == [x];
      RingsApart(t, lo, k, bs, x);
      if t.right.Node? {
        LastLeafReplaces(t, lo, k, bs, true);
      } else if t.left.Node? {
        LastLeafReplaces(t, lo, k, bs, false);
      }
    }
  }

  /** A leaf of a child may stand in for the node itself. */
  lemma LastLeafReplaces(t: Trie, lo: nat, k: nat, bs: map<int, nat>, right: bool)
    requires t.Node? && WF(t, lo, k) && Typed(t, bs) && Child(t, right).Node?
    requires !right ==> t.right == Nil
    ensures var f := LastLeaf(Child(t, right));
            var t' := WithChild(t.(size := f.size, ring := f.ring), right, DropLeaf(Child(t, right)));
            && WF(t', lo, k) && Typed(t', bs)
            && (forall z :: Has(t', z) ==> Has(t, z))
            && (forall y :: In(t', y) <==> In(t.left, y) || In(t.right, y))
  {
    var c, h := Child(t, right), if right then lo + Pow2(k - 1) else lo;
    LastLeafIsPart(c, h, k - 1, bs);
    DropLeafOrder(c, h, k - 1, bs);
    var f := LastLeaf(c);
    SizeInRange(c, h, k - 1, f.size);
    SidesApart(t, lo, k, f.size);
    Pow2Step(k - 1);
    hide Pow2, LastLeaf, DropLeaf;
  }

  /** Unlinking removes exactly one chunk and keeps the order, the sizes and the rings. */
  lemma RemoveTakesOne(t: Trie, lo: nat, k: nat, x: int, s: nat, bs: map<int, nat>)
    requires WF(t, lo, k) && lo <= s < lo + Pow2(k) && Typed(t, bs)
    requires In(t, x) && x in bs && bs[x] == s
    ensures Has(t, s) && SubAt(t, lo, k, s).Node? && x in SubAt(t, lo, k, s).ring
    ensures WF(Remove(t, lo, k, x, s), lo, k) && Typed(Remove(t, lo, k, x, s), bs)
    ensures forall y :: In(Remove(t, lo, k, x, s), y) <==> In(t, y) && y != x
  {
    hide WF, Pow2, Replace, SubAt, Has, In, Typed, RemoveHere;
    MemberTyped(t, bs, x);
    var sub := SubAt(t, lo, k, s);
    SubAtIsPart(t, lo, k, s);
    SubAtTyped(t, lo, k, s, bs);
    MemberAtPlace(t, lo, k, x, s, bs);
    RemoveHereFits(sub, Spot(t, lo, k, s).0, Spot(t, lo, k, s).1, x, bs);
    var sub' := RemoveHere(sub, x);
    ReplaceKeepsOrder(t, lo, k, s, sub');
    ReplaceTyped(t, lo, k, s, sub', bs);
    forall y ensures In(Replace(t, lo, k, s, sub'), y) <==> In(t, y) && y != x {
      ReplaceIn(t, lo, k, s, sub', bs, y);
      SubAtIn(t, lo, k, s, y);
    }
  }

  lemma {:induction false} MemberAtPlace(t: Trie, lo: nat, k: nat, x: int, s: nat, bs: map<int, nat>)
    requires WF(t, lo, k) && lo <= s < lo + Pow2(k) && Typed(t, bs)
    requires In(t, x) && x in bs && bs[x] == s
    ensures SubAt(t, lo, k, s).Node? && x in SubAt(t, lo, k, s).ring && In(SubAt(t, lo, k, s), x)
    decreases t
  {
    if t.size == s {
      if In(t.left, x) { MemberTyped(t.left, bs, x); }
      if In(t.right, x) { MemberTyped(t.right, bs, x); }
    } else {
      var right := GoesRight(lo, k, s);
      ChildRange(t, lo, k, s);
      if In(Child(t, !right), x) { MemberTyped(Child(t, !right), bs, x); }
      MemberAtPlace(Child(t, right), Half(lo, k, s), k - 1, x, s, bs);
    }
  }
}
