/** insert_large_chunk and unlink_large_chunk on the memory layout of one tree bin. */
module TrieOps {
  import opened Words
  import opened Memory
  import opened Tries
  import opened TrieLinks

  /** `x` shares no paragraph with the trie. */
  ghost predicate ApartFrom(x: int, t: Trie) {
    forall y :: In(t, y) ==> Apart(x, y)
  }

  lemma InitRep(m: Mem, t: Trie, a: int, par: int, idx: int, x: int)
    requires Rep(m, t, a, par, idx) && ApartFrom(x, t)
    ensures Rep(InitNode(m, x, idx), t, a, par, idx)
  {
    hide InitNode, SameLinks, Apart;
    InitNodeEffect(m, x, idx);
    RepFrame(m, InitNode(m, x, idx), t, a, par, idx);
  }

  /** A chunk of a new size is hung into the hole at its place. */
  lemma InsertAtHole(
    m: Mem, m': Mem, t: Trie, a: int, par: int, idx: int, lo: nat, k: nat, x: int, s: nat, bs: map<int, nat>
  )
    requires t.Node? && t.size != s && k > 0 && WF(t, lo, k) && lo <= s < lo + Pow2(k) && Typed(t, bs)
    requires Rep(m, t, a, par, idx) && AllApart(t) && ApartFrom(x, t) && !In(t, x) && x != 0
    requires SubAt(t, lo, k, s).Nil?
    requires var (q, right) := Above(t, lo, k, s);
             m' == LinkSelf(SetKid(InitNode(m, x, idx), q, right, x), x, q)
    ensures Rep(m', Insert(t, lo, k, x, s), a, par, idx)
    ensures In(t, Above(t, lo, k, s).0) && Only(m, m', {x, Above(t, lo, k, s).0})
  {
    hide InitNode, LinkSelf, SetKid, SameLinks, Rep, WF, Typed, Pow2, Has, Replace, SubAt, Above, Apart, Only, Kid,
         Index, In;
    var (q, right) := Above(t, lo, k, s);
    var m1 := InitNode(m, x, idx);
    var m2 := SetKid(m1, q, right, x);
    var leaf := Node(s, [x], Nil, Nil);
    AboveIsOutside(t, lo, k, s, bs);
    InitNodeEffect(m, x, idx);
    InitRep(m, t, a, par, idx, x);
    KidEffect(m1, q, right, x);
    ApartSym(q, x);
    KidElsewhere(m1, q, right, x, x);
    LeafRep(m2, x, q, idx, s);
    KeptKid(m2, m', q);
    forall y | In(t, y) && y != q ensures SameLinks(m1, m', y) {
      assert Apart(x, y) && Apart(q, y);
      KidElsewhere(m1, q, right, x, y);
      SameTrans(m1, m2, m', y);
    }
    SameButKidTrans(m1, m2, m', q, right);
    Graft(m1, m', t, a, par, idx, lo, k, s, leaf, bs);
    TouchInit(m, x, idx, q);
    TouchInit(m2, x, idx, q);
    TouchKid(m1, q, right, x);
    OnlyTrans(m, m1, m2, {x}, {q});
    OnlyTrans(m, m2, m', {x} + {q}, {x});
    assert {x} + {q} + {x} == {x, q};
  }

  lemma KidEffect(m: Mem, q: int, right: bool, v: int)
    ensures Kid(SetKid(m, q, right, v), q, right) == v && SameButKid(m, SetKid(m, q, right, v), q, right)
  {
  }

  lemma KidElsewhere(m: Mem, q: int, right: bool, v: int, y: int)
    requires Apart(q, y)
    ensures SameLinks(m, SetKid(m, q, right, v), y)
    ensures Kid(SetKid(m, q, right, v), y, false) == Kid(m, y, false)
    ensures Kid(SetKid(m, q, right, v), y, true) == Kid(m, y, true)
    ensures Index(SetKid(m, q, right, v), y) == Index(m, y)
  {
  }

  lemma KeptKid(m: Mem, m': Mem, q: int)
    requires SameLinks(m, m', q)
    ensures Kid(m, q, false) == Kid(m', q, false) && Kid(m, q, true) == Kid(m', q, true)
  {
  }

  lemma SameTrans(m: Mem, m1: Mem, m2: Mem, y: int)
    requires SameLinks(m, m1, y) && SameLinks(m1, m2, y)
    ensures SameLinks(m, m2, y)
  {
  }

  lemma SameButKidTrans(m: Mem, m1: Mem, m2: Mem, q: int, right: bool)
    requires SameButKid(m, m1, q, right) && SameLinks(m1, m2, q)
    ensures SameButKid(m, m2, q, right)
  {
  }

  /** A chunk whose size is already there joins the ring of that size. */
  lemma InsertAtNode(
    m: Mem, m': Mem, t: Trie, a: int, par: int, idx: int, lo: nat, k: nat, x: int, s: nat, bs: map<int, nat>
  )
    requires t.Node? && WF(t, lo, k) && lo <= s < lo + Pow2(k) && Typed(t, bs)
    requires Rep(m, t, a, par, idx) && AllApart(t) && ApartFrom(x, t) && !In(t, x) && x != 0
    requires SubAt(t, lo, k, s).Node? && SubAt(t, lo, k, s).ring != []
    requires m' == LinkRing(InitNode(m, x, idx), SubAt(t, lo, k, s).ring[0], x)
    ensures Rep(m', Insert(t, lo, k, x, s), a, par, idx)
    ensures var n := SubAt(t, lo, k, s).ring[0];
            In(t, n) && In(t, Fd(m, n)) && Only(m, m', {n, Fd(m, n), x})
  {
    hide InitNode, LinkRing, SameLinks, Rep, WF, Typed, Pow2, Has, Replace, SubAt, Above, Apart, Only, Kid, Fd, In;
    var sub := SubAt(t, lo, k, s);
    var n := sub.ring[0];
    var (lo', k') := Spot(t, lo, k, s);
    SubAtIsPart(t, lo, k, s);
    SubAtTyped(t, lo, k, s, bs);
    PartApart(t, lo, k, s, x);
    if t.size == s {
      PlaceReached(t, lo, k, s, InsertHere(sub, x, s));
      RootIn(m, t, a, par, idx);
      InsertInRing(m, m', sub, a, par, idx, lo, k, x, bs);
    } else {
      RoomBelow(t, lo, k, s);
      PlaceRep(m, t, a, par, idx, lo, k, s, bs);
      var (q, right) := Above(t, lo, k, s);
      RootIn(m, sub, Kid(m, q, right), q, idx);
      InsertInRing(m, m', sub, n, q, idx, lo', k', x, bs);
      AboveIsOutside(t, lo, k, s, bs);
      forall y | In(t, y) && !In(sub, y) ensures SameLinks(m, m', y) {
        SubAtIn(t, lo, k, s, n);
        SubAtIn(t, lo, k, s, Fd(m, n));
        assert Apart(x, y) && Apart(n, y) && Apart(Fd(m, n), y);
        OnlySameLinks(m, m', {n, Fd(m, n), x}, y);
      }
      KeptKid(m, m', q);
      SameImpliesButKid(m, m', q, right);
      Graft(m, m', t, a, par, idx, lo, k, s, InsertHere(sub, x, s), bs);
    }
    SubAtIn(t, lo, k, s, n);
    SubAtIn(t, lo, k, s, Fd(m, n));
  }

  lemma RoomBelow(t: Trie, lo: nat, k: nat, s: nat)
    requires t.Node? && t.size != s && WF(t, lo, k) && lo <= s < lo + Pow2(k)
    ensures k > 0
  {
  }

  lemma SameImpliesButKid(m: Mem, m': Mem, q: int, right: bool)
    requires SameLinks(m, m', q)
    ensures SameButKid(m, m', q, right)
  {
  }

  lemma PartApart(t: Trie, lo: nat, k: nat, s: nat, x: int)
    requires AllApart(t) && ApartFrom(x, t) && !In(t, x)
    ensures var sub := SubAt(t, lo, k, s); AllApart(sub) && ApartFrom(x, sub) && !In(sub, x)
  {
    hide In, Apart, SubAt;
    forall y | In(SubAt(t, lo, k, s), y) ensures In(t, y) { SubAtIn(t, lo, k, s, y); }
  }

  lemma InsertInRing(m: Mem, m': Mem, t: Trie, a: int, par: int, idx: int, lo: nat, k: nat, x: int, bs: map<int, nat>)
    requires t.Node? && WF(t, lo, k) && Typed(t, bs) && Rep(m, t, a, par, idx)
    requires AllApart(t) && !In(t, x) && x != 0 && ApartFrom(x, t) && t.ring != []
    requires m' == LinkRing(InitNode(m, x, idx), a, x)
    ensures Rep(m', InsertHere(t, x, t.size), a, par, idx)
    ensures a == t.ring[0] && In(t, a) && In(t, Fd(m, a)) && Only(m, m', {a, Fd(m, a), x})
  {
    hide InitNode, LinkRing, Fd, WF, Typed, Apart, Only, NodeOk, Kid;
    InsertRingRep(m, m', t, a, par, idx, lo, k, x, bs);
    NodeRing(m, t.ring, par, idx);
    RingHead(m, t.ring);
    InitNodeEffect(m, x, idx);
    assert In(t, a) && Apart(x, a);
    var m1 := InitNode(m, x, idx);
    SameFd(m, m1, a);
    TouchInit(m, x, idx, 0);
    TouchLinkRing(m1, a, x);
    OnlyTrans(m, m1, m', {x}, {a, Fd(m, a), x});
    assert {x} + {a, Fd(m, a), x} == {a, Fd(m, a), x};
  }

  lemma SameFd(m: Mem, m': Mem, y: int)
    requires SameLinks(m, m', y)
    ensures Fd(m, y) == Fd(m', y)
  {
  }

  // ---- unlinking -----------------------------------------------------------------------------------------

  /** A chunk behind its tree node is taken out. */
  lemma UnlinkBehind(
    m: Mem, m': Mem, t: Trie, a: int, par: int, idx: int, lo: nat, k: nat, x: int, s: nat, bs: map<int, nat>
  )
    requires t.Node? && WF(t, lo, k) && lo <= s < lo + Pow2(k) && Typed(t, bs)
    requires Rep(m, t, a, par, idx) && AllApart(t)
    requires In(t, x) && x in bs && bs[x] == s
    requires Parent(m, x) == 0 && par != 0 && Has(t, s)
    requires m' == UnlinkRing(m, x)
    ensures Rep(m', Remove(t, lo, k, x, s), a, par, idx)
    ensures In(t, Fd(m, x)) && In(t, Bk(m, x)) && Only(m, m', {Fd(m, x), Bk(m, x)})
  {
    hide UnlinkRing, SameLinks, Rep, WF, Typed, Pow2, Has, Replace, SubAt, Above, Apart, Only, Kid, Fd, Bk, In, Parent,
         Without;
    var sub := SubAt(t, lo, k, s);
    var (lo', k') := Spot(t, lo, k, s);
    var f, r := Fd(m, x), Bk(m, x);
    SubAtIsPart(t, lo, k, s);
    SubAtTyped(t, lo, k, s, bs);
    PartAllApart(t, lo, k, s);
    MemberAtPlace(t, lo, k, x, s, bs);
    TouchUnlinkRing(m, x);
    if t.size == s {
      PlaceReached(t, lo, k, s, RemoveHere(sub, x));
      BehindHead(m, m', sub, a, par, idx, lo, k, x, bs);
    } else {
      RoomBelow(t, lo, k, s);
      PlaceRep(m, t, a, par, idx, lo, k, s, bs);
      var (q, right) := Above(t, lo, k, s);
      BehindHead(m, m', sub, Kid(m, q, right), q, idx, lo', k', x, bs);
      AboveIsOutside(t, lo, k, s, bs);
      OutsideKept(m, m', t, lo, k, s, {f, r});
      KeptKid(m, m', q);
      SameImpliesButKid(m, m', q, right);
      Graft(m, m', t, a, par, idx, lo, k, s, RemoveHere(sub, x), bs);
    }
    SubAtIn(t, lo, k, s, f);
    SubAtIn(t, lo, k, s, r);
  }

  lemma PartAllApart(t: Trie, lo: nat, k: nat, s: nat)
    requires AllApart(t)
    ensures AllApart(SubAt(t, lo, k, s))
  {
    hide In, Apart, SubAt;
    forall y | In(SubAt(t, lo, k, s), y) ensures In(t, y) { SubAtIn(t, lo, k, s, y); }
  }

  /** An update inside the subtree at the place of `s` keeps the links of the rest. */
  lemma OutsideKept(m: Mem, m': Mem, t: Trie, lo: nat, k: nat, s: nat, at: set<int>)
    requires AllApart(t) && Only(m, m', at)
    requires forall z :: z in at ==> In(SubAt(t, lo, k, s), z)
    ensures forall y :: In(t, y) && !In(SubAt(t, lo, k, s), y) ==> SameLinks(m, m', y)
  {
    hide In, SubAt, SameLinks, Only, Apart;
    forall y | In(t, y) && !In(SubAt(t, lo, k, s), y) ensures SameLinks(m, m', y) {
      forall z | z in at ensures Apart(z, y) { SubAtIn(t, lo, k, s, z); }
      OnlySameLinks(m, m', at, y);
    }
  }

  lemma BehindHead(m: Mem, m': Mem, t: Trie, a: int, par: int, idx: int, lo: nat, k: nat, x: int, bs: map<int, nat>)
    requires t.Node? && WF(t, lo, k) && Typed(t, bs) && Rep(m, t, a, par, idx) && AllApart(t)
    requires x in t.ring && Parent(m, x) == 0 && par != 0 && m' == UnlinkRing(m, x)
    ensures Rep(m', RemoveHere(t, x), a, par, idx)
    ensures In(t, Fd(m, x)) && In(t, Bk(m, x))
  {
    hide UnlinkRing, WF, Typed, Apart, NodeOk, Kid, Fd, Bk, Parent, Pow2, Has, Without;
    NodeRing(m, t.ring, par, idx);
    assert x != a;
    RemoveRingRep(m, m', t, a, par, idx, lo, k, x, bs);
    RingNeighbours(m, t.ring, x);
    TwoChunks(t.ring, x);
  }

  lemma TwoChunks(ring: seq<int>, x: int)
    requires x in ring && ring != [] && x != ring[0]
    ensures |ring| > 1
  {
  }

  /** Every chunk of `at` belongs to `t`. */
  ghost predicate AllIn(at: set<int>, t: Trie) {
    forall z :: z in at ==> In(t, z)
  }

  /** The tree node `x` of the whole bin is replaced by the head of `t'`. */
  lemma PromoteRoot(m: Mem, m1: Mem, m': Mem, t: Trie, t': Trie, x: int, par: int, idx: int, lo: nat, k: nat,
                    bs: map<int, nat>, at: set<int>) returns (at': set<int>)
    requires t'.Node? && WF(t', lo, k) && Typed(t', bs) && AllApart(t')
    requires Detached(m1, x, t', idx) && Only(m, m1, at) && AllIn(at, t) && (forall y :: In(t', y) ==> In(t, y))
    requires t'.ring != [] && m' == TakePlace(m1, x, t'.ring[0], par)
    ensures Rep(m', t', t'.ring[0], par, idx) && Only(m, m', at') && AllIn(at', t)
  {
    hide TakePlace, Rep, WF, Typed, Apart, Only, Detached, Kid, Pow2, Has, NoDup;
    TakePlaceRep(m1, m', x, par, idx, t', lo, k, bs);
    TouchTakePlace(m1, x, t'.ring[0], par);
    var touched := {t'.ring[0]} + Pointers(Kid(m1, x, false), Kid(m1, x, true));
    OnlyTrans(m, m1, m', at, touched);
    assert In(t', t'.ring[0]);
    at' := at + touched;
  }

  /** An inner tree node `x` is replaced by the head of `sub'`. */
  lemma PromoteInner(m: Mem, m1: Mem, m': Mem, t: Trie, sub': Trie, x: int, a: int, par: int, idx: int, lo: nat, k: nat,
                     s: nat, bs: map<int, nat>, at: set<int>) returns (at': set<int>)
    requires t.Node? && t.size != s && k > 0 && WF(t, lo, k) && lo <= s < lo + Pow2(k) && Typed(t, bs)
    requires Rep(m, t, a, par, idx) && AllApart(t) && In(SubAt(t, lo, k, s), x)
    requires sub'.Node? && WF(sub', Spot(t, lo, k, s).0, Spot(t, lo, k, s).1) && Typed(sub', bs)
    requires Detached(m1, x, sub', idx) && Only(m, m1, at) && AllIn(at, SubAt(t, lo, k, s))
    requires forall y :: In(sub', y) ==> In(SubAt(t, lo, k, s), y)
    requires sub'.ring != []
    requires var (q, right) := Above(t, lo, k, s);
             m' == TakePlace(SetKid(m1, q, right, sub'.ring[0]), x, sub'.ring[0], q)
    ensures Rep(m', Replace(t, lo, k, s, sub'), a, par, idx) && Only(m, m', at') && AllIn(at', t)
  {
    hide TakePlace, SetKid, Rep, WF, Typed, Apart, Only, Detached, Kid, Pow2, Has, NoDup, SubAt, Above, Replace,
         SameLinks, Spot;
    var (q, right) := Above(t, lo, k, s);
    var sub, r := SubAt(t, lo, k, s), sub'.ring[0];
    var m2 := SetKid(m1, q, right, r);
    AboveIsOutside(t, lo, k, s, bs);
    PartAllApart(t, lo, k, s);
    SubInto(t, lo, k, s);
    assert AllApart(sub') by { hide In; }
    HeadIn(sub');
    KidEffect(m1, q, right, r);
    forall y | In(sub, y) ensures SameLinks(m1, m2, y) {
      assert Apart(q, y) by { hide In; }
      KidElsewhere(m1, q, right, r, y);
    }
    DetachedFrame(m1, m2, x, sub', idx);
    TakePlaceRep(m2, m', x, q, idx, sub', Spot(t, lo, k, s).0, Spot(t, lo, k, s).1, bs);
    TouchTakePlace(m2, x, r, q);
    var touched := {r} + Pointers(Kid(m2, x, false), Kid(m2, x, true));
    OutsideKept(m2, m', t, lo, k, s, touched);
    OutsideKept(m, m1, t, lo, k, s, at);
    InnerGraft(m, m1, m2, m', t, a, par, idx, lo, k, s, sub', bs);
    TouchKid(m1, q, right, r);
    OnlyTrans(m, m1, m2, at, {q});
    OnlyTrans(m, m2, m', at + {q}, touched);
    at' := at + {q} + touched;
  }

  lemma SubInto(t: Trie, lo: nat, k: nat, s: nat)
    ensures forall y :: In(SubAt(t, lo, k, s), y) ==> In(t, y)
  {
    hide In, SubAt;
    forall y | In(SubAt(t, lo, k, s), y) ensures In(t, y) { SubAtIn(t, lo, k, s, y); }
  }

  lemma HeadIn(t: Trie)
    requires t.Node? && t.ring != []
    ensures In(t, t.ring[0])
  {
  }

  /** The rest of the trie sees only the new child pointer. */
  lemma InnerGraft(m: Mem, m1: Mem, m2: Mem, m': Mem, t: Trie, a: int, par: int, idx: int, lo: nat, k: nat, s: nat,
                   sub': Trie, bs: map<int, nat>)
    requires t.Node? && t.size != s && k > 0 && WF(t, lo, k) && lo <= s < lo + Pow2(k) && Typed(t, bs)
    requires Rep(m, t, a, par, idx) && AllApart(t)
    requires var (q, right) := Above(t, lo, k, s);
             && m2 == SetKid(m1, q, right, Kid(m2, q, right))
             && Rep(m', sub', Kid(m2, q, right), q, idx)
    requires forall y :: In(t, y) && !In(SubAt(t, lo, k, s), y) ==> SameLinks(m, m1, y)
    requires forall y :: In(t, y) && !In(SubAt(t, lo, k, s), y) ==> SameLinks(m2, m', y)
    ensures Rep(m', Replace(t, lo, k, s, sub'), a, par, idx)
  {
    hide SetKid, Rep, WF, Typed, Apart, Kid, Pow2, Has, SubAt, Above, Replace, SameLinks, In;
    var (q, right) := Above(t, lo, k, s);
    AboveIsOutside(t, lo, k, s, bs);
    KidEffect(m1, q, right, Kid(m2, q, right));
    KeptKid(m2, m', q);
    SameImpliesButKid(m, m1, q, right);
    ButKidChain(m, m1, m2, m', q, right);
    forall y | In(t, y) && !In(SubAt(t, lo, k, s), y) && y != q ensures SameLinks(m, m', y) {
      KidElsewhere(m1, q, right, Kid(m2, q, right), y);
      SameTrans(m, m1, m2, y);
      SameTrans(m, m2, m', y);
    }
    Graft(m, m', t, a, par, idx, lo, k, s, sub', bs);
  }

  lemma ButKidChain(m: Mem, m1: Mem, m2: Mem, m3: Mem, q: int, right: bool)
    requires SameButKid(m, m1, q, right) && SameButKid(m1, m2, q, right) && SameLinks(m2, m3, q)
    ensures SameButKid(m, m3, q, right)
  {
  }

  /** A leaf with a single chunk disappears. */
  lemma CutLeaf(m: Mem, m': Mem, t: Trie, a: int, par: int, idx: int, lo: nat, k: nat, s: nat, bs: map<int, nat>)
    requires t.Node? && t.size != s && k > 0 && WF(t, lo, k) && lo <= s < lo + Pow2(k) && Typed(t, bs)
    requires Rep(m, t, a, par, idx) && AllApart(t)
    requires var (q, right) := Above(t, lo, k, s); m' == SetKid(m, q, right, 0)
    ensures Rep(m', Replace(t, lo, k, s, Nil), a, par, idx)
    ensures Only(m, m', {Above(t, lo, k, s).0}) && In(t, Above(t, lo, k, s).0)
  {
    hide SetKid, WF, Typed, Apart, Kid, Pow2, Has, SubAt, Above, Replace, SameLinks, In, Only;
    var (q, right) := Above(t, lo, k, s);
    AboveIsOutside(t, lo, k, s, bs);
    KidEffect(m, q, right, 0);
    TouchKid(m, q, right, 0);
    assert forall y :: SameLinks(m, m, y) && SameLinks(m', m', y) by {
      forall y ensures SameLinks(m, m, y) && SameLinks(m', m', y) { SameRefl(m, y); SameRefl(m', y); }
    }
    assert Rep(m', Nil, 0, q, idx);
    InnerGraft(m, m, m', m', t, a, par, idx, lo, k, s, Nil, bs);
  }

  lemma SameRefl(m: Mem, y: int)
    ensures SameLinks(m, m, y)
  {
  }
}
