/** The binned part of malloc_state together with the memory it lives in. */
module Bins {
  import opened Words
  import opened BinIndex
  import opened BitMaps
  import opened Memory
  import opened Tries
  import opened BestFit
  import opened Rings
  import opened TrieLinks
  import opened TrieOps
  import opened TrieSearch
  import opened SmallBins
  import opened BinStore

  class BinTable {
    const hdr: int  // address of the small-bin headers
    const tbin: int // address of the array of tree roots
    var mem: Mem
    var smallmap: nat
    var treemap: nat
    var roots: seq<int>
    var least: int  // least_addr
    ghost var g: Binned

    ghost predicate Valid()
      reads this
    {
      && BinsOk(mem, smallmap, treemap, roots, hdr, tbin, g)
      && (forall x :: x in g.bs ==> least <= x)
    }

    /** A free chunk that is in no bin yet: it has room of its own and its head word is set. */
    ghost predicate Insertable(p: int, s: nat)
      reads this
    {
      && p !in g.bs && Spaced(g.bs[p := s], hdr) && least <= p
      && SizeOf(Head(mem, p)) == s
    }

    /** init_bins, on a zeroed malloc_state: no bin is marked and no table entry exists. */
    constructor (hdr: int, tbin: int)
      requires hdr > 0 && tbin > 0
      ensures Valid() && g.bs == map[] && mem == Mem(map[], map[]) && least == 0
      ensures this.hdr == hdr && this.tbin == tbin
    {
      this.hdr, this.tbin := hdr, tbin;
      mem, smallmap, treemap, least := Mem(map[], map[]), 0, 0, 0;
      roots := seq(32, _ => 0);
      g := Binned(map[], seq(32, _ => []), seq(32, _ => Nil));
      new;
      forall i | 0 <= i < 32 ensures !Bit(0, i) { ZeroBit(i); }
    }

    /** init_bins: makes every small bin header point to itself. */
    method InitBins()
      requires Valid() && g.bs == map[]
      modifies this`mem
      ensures Valid() && OnlySlots(old(mem), mem, g.bs, hdr)
      ensures forall i :: 0 <= i < 32 ==> Fd(mem, Header(hdr, i)) == Header(hdr, i) == Bk(mem, Header(hdr, i))
    {
      hide BinsOk;
      for i := 0 to 32
        invariant OnlySlots(old(mem), mem, g.bs, hdr)
        invariant forall j :: 0 <= j < i ==> Fd(mem, Header(hdr, j)) == Header(hdr, j) == Bk(mem, Header(hdr, j))
      {
        var b := Header(hdr, i);
        mem := SetBk(SetFd(mem, b, b), b, b);
      }
      EmptyBins(old(mem), mem, smallmap, treemap, roots, hdr, tbin, g);
    }

    /** insert_small_chunk */
    method InsertSmallChunk(p: int, s: nat)
      requires Valid() && Insertable(p, s) && s < MIN_LARGE_SIZE
      modifies this
      ensures Valid() && g.bs == old(g.bs)[p := s] && g.tries == old(g.tries)
      ensures s / 8 < |old(g.lists)| && g.lists == old(g.lists)[s / 8 := [p] + old(g.lists)[s / 8]]
      ensures OnlySlots(old(mem), mem, g.bs, hdr) && least == old(least)
    {
      hide BinsOk, Spaced, Bit, Mark, OnlySlots, Head, SizeOf, Fd, SetFd, SetBk;
      var i := s / 8;
      var b := Header(hdr, i);
      var f := b;
      SmallFacts(mem, smallmap, treemap, roots, hdr, tbin, g, i, p, s);
      ghost var m0, map0 := mem, smallmap;
      if !Bit(smallmap, i) {
        smallmap := Mark(smallmap, i);
      } else if Fd(mem, b) >= least {
        f := Fd(mem, b);
      } else {
        assert false;
      }
      mem := SetFd(mem, b, p);
      mem := SetBk(mem, f, p);
      mem := SetFd(mem, p, f);
      mem := SetBk(mem, p, b);
      InsertSmallKeeps(m0, mem, map0, treemap, roots, hdr, tbin, g, p, i);
      g := WithSmall(g, p, i);
    }

    /** unlink_small_chunk */
    method UnlinkSmallChunk(p: int, s: nat)
      requires Valid() && p in g.bs && g.bs[p] == s && s < MIN_LARGE_SIZE
      modifies this
      ensures Valid() && g.bs == old(g.bs) - {p} && g.tries == old(g.tries)
      ensures s / 8 < |old(g.lists)| && g.lists == old(g.lists)[s / 8 := Without(old(g.lists)[s / 8], p)]
      ensures OnlySlots(old(mem), mem, old(g.bs), hdr) && least == old(least)
    {
      hide BinsOk, Spaced, Bit, Unmark, OnlySlots, Fd, Bk, SetFd, SetBk;
      var f, b, i := Fd(mem, p), Bk(mem, p), s / 8;
      ListedFacts(mem, smallmap, treemap, roots, hdr, tbin, g, p);
      ghost var m0, map0 := mem, smallmap;
      if f == Header(hdr, i) || (f >= least && Bk(mem, f) == p) {
        if b == f {
          smallmap := Unmark(smallmap, i);
        } else if b == Header(hdr, i) || (b >= least && Fd(mem, b) == p) {
          mem := SetBk(mem, f, b);
          mem := SetFd(mem, b, f);
        } else {
          assert false;
        }
      } else {
        assert false;
      }
      DeleteSmallKeeps(m0, mem, map0, treemap, roots, hdr, tbin, g, p, i);
      g := WithoutSmall(g, p, i);
    }

    /** unlink_first_small_chunk, with the chunk read from the header of a marked bin. */
    method UnlinkFirstSmallChunk(i: nat) returns (p: int)
      requires Valid() && i < 32 && Bit(smallmap, i)
      modifies this
      ensures Valid() && p in old(g.bs) && old(g.bs)[p] == 8 * i && g.bs == old(g.bs) - {p}
      ensures i < |old(g.lists)| && old(g.lists)[i] != [] && p == old(g.lists)[i][0] && g.tries == old(g.tries)
      ensures g.lists == old(g.lists)[i := old(g.lists)[i][1..]]
      ensures OnlySlots(old(mem), mem, old(g.bs), hdr) && least == old(least)
    {
      hide BinsOk, Spaced, Bit, Unmark, OnlySlots, Fd, Bk, SetFd, SetBk;
      var b := Header(hdr, i);
      p := Fd(mem, b);
      FirstFacts(mem, smallmap, treemap, roots, hdr, tbin, g, i);
      ListedFacts(mem, smallmap, treemap, roots, hdr, tbin, g, p);
      ghost var m0, map0 := mem, smallmap;
      var f := Fd(mem, p);
      if b == f {
        smallmap := Unmark(smallmap, i);
      } else if f >= least && Bk(mem, f) == p {
        mem := SetBk(mem, f, b);
        mem := SetFd(mem, b, f);
      } else {
        assert false;
      }
      DeleteSmallKeeps(m0, mem, map0, treemap, roots, hdr, tbin, g, p, i);
      g := WithoutSmall(g, p, i);
    }

    /** insert_large_chunk */
    method InsertLargeChunk(x: int, s: nat)
      requires Valid() && Insertable(x, s) && MIN_LARGE_SIZE <= s < W64
      modifies this
      ensures Valid() && g.bs == old(g.bs)[x := s]
      ensures OnlySlots(old(mem), mem, g.bs, hdr) && least == old(least)
    {
      hide BinsOk, Spaced, Bit, Mark, OnlySlots, Head, SizeOf, Kid, SetKid, SetFd, SetBk, SetParent, SetIndex, Fd,
           TreeIndex, RangeBase, FreeBits, WF, Rep, Typed, In, Has, Pow2, SubAt, Above, Insert, AllApart, Only,
               HeadsIn, ApartFrom;
      var i := TreeIndex(s);
      TreeFacts(mem, smallmap, treemap, roots, hdr, tbin, g, x, s);
      ghost var m0, map0, t, slot := mem, treemap, g.tries[i], tbin + 8 * i;
      ghost var at: set<int>;
      mem := SetIndex(mem, x, i);
      mem := SetKid(mem, x, true, 0);
      mem := SetKid(mem, x, false, 0);
      ghost var m1 := mem;
      if !Bit(treemap, i) {
        treemap := Mark(treemap, i);
        roots := roots[i := x];
        mem := SetParent(mem, x, tbin + 8 * i);
        mem := SetBk(mem, x, x);
        mem := SetFd(mem, x, x);
        FirstOfBin(m0, mem, t, slot, i, RangeBase(i), FreeBits(i), x, s);
        at := {x};
      } else {
        InitRep(m0, t, roots[i], slot, i, x);
        InitHeads(m0, t, g.bs, x, i);
        var n, right, found := FindPlace(mem, roots[i], s, i, t, slot, g.bs);
        if !found {
          if n + (if right then 40 else 32) >= least {
            mem := SetKid(mem, n, right, x);
            mem := SetParent(mem, x, n);
            mem := SetBk(mem, x, x);
            mem := SetFd(mem, x, x);
          } else {
            AboveIsOutside(t, RangeBase(i), FreeBits(i), s, g.bs);
            assert false;
          }
          InsertAtHole(m0, mem, t, roots[i], slot, i, RangeBase(i), FreeBits(i), x, s, g.bs);
          at := {x, n};
        } else {
          PlaceChunks(m0, m1, t, roots[i], slot, i, RangeBase(i), FreeBits(i), s, g.bs, x);
          var f := Fd(mem, n);
          if n >= least && f >= least {
            mem := SetBk(mem, f, x);
            mem := SetFd(mem, n, x);
            mem := SetFd(mem, x, f);
            mem := SetBk(mem, x, n);
            mem := SetParent(mem, x, 0);
          } else {
            assert false;
          }
          InsertAtNode(m0, mem, t, roots[i], slot, i, RangeBase(i), FreeBits(i), x, s, g.bs);
          at := {n, f, x};
        }
      }
      InsertLargeKeeps(m0, mem, smallmap, map0, old(roots), hdr, tbin, g, x, s, roots[i], at);
      assert old(roots)[i := roots[i]] == roots;
      g := WithLarge(g, x, s);
    }

    /** First half of unlink_large_chunk: take `x` out of its ring, or cut the leaf that will replace it. */
    method TakeOut(
      x: int, ghost t: Trie, ghost up: int, ghost i: int, ghost lo: nat, ghost k: nat
    ) returns (r: int, ghost at: set<int>)
      requires t.Node? && x in t.ring && WF(t, lo, k) && Typed(t, g.bs) && AllApart(t) && t.ring != []
      requires Rep(mem, t, t.ring[0], up, i) && up != 0
      requires forall y :: In(t, y) ==> least <= y
      modifies this`mem
      ensures Only(old(mem), mem, at) && AllIn(at, t)
      ensures Parent(old(mem), x) == 0 ==> mem == UnlinkRing(old(mem), x)
      ensures Parent(old(mem), x) != 0 ==> x == t.ring[0] && up == Parent(old(mem), x)
      ensures Parent(old(mem), x) != 0 && RemoveHere(t, x).Node? ==>
                Detached(mem, x, RemoveHere(t, x), i) && RemoveHere(t, x).ring != [] && r == RemoveHere(t, x).ring[0]
      ensures Parent(old(mem), x) != 0 && RemoveHere(t, x).Nil? ==> mem == old(mem)
      ensures Parent(old(mem), x) != 0 ==> (RemoveHere(t, x).Nil? <==> r == 0)
    {
      hide WF, Typed, AllApart, Rep, Only, Detached, In, Kid, SetKid, Fd, Bk, SetFd, SetBk, Parent, RemoveHere, AllIn,
           Has, Pow2,
           LeafAbove, LastLeaf, RingWithout;
      ChunkFacts(mem, t, x, up, i, lo, k, g.bs);
      ghost var m0 := mem;
      if Bk(mem, x) != x {
        var f := Fd(mem, x);
        r := Bk(mem, x);
        if f >= least && Bk(mem, f) == x && Fd(mem, r) == x {
          mem := SetBk(mem, f, r);
          mem := SetFd(mem, r, f);
        } else {
          assert false;
        }
        TouchUnlinkRing(m0, x);
        at := {f, r};
        assert AllIn(at, t) by { TwoIn(t, f, r); }
        if x == t.ring[0] {
          HeadGone(m0, mem, t, x, up, i, lo, k, g.bs);
          DetachedHead(mem, x, RemoveHere(t, x), i);
        }
      } else {
        var q, right;
        r, q, right := FindLeaf(mem, x, t, up, i);
        at := {};
        OnlySame(mem);
        NoneIn(t);
        if r != 0 {
          LeafGone(mem, t, x, up, i, lo, k, g.bs);
          if q + (if right then 40 else 32) >= least {
            mem := SetKid(mem, q, right, 0);
          } else {
            assert false;
          }
          TouchKid(m0, q, right, 0);
          at := {q};
          TwoIn(t, q, q);
          assert {q, q} == {q};
        } else {
          LeafVanishes(t, x);
        }
      }
    }

    /** The end of unlink_large_chunk: `r` takes over the parent and the children of `x`. */
    method Rehang(x: int, r: int, xp: int)
      requires r >= least && Apart(x, r)
      requires forall right :: Kid(mem, x, right) != 0 ==> Kid(mem, x, right) >= least && Apart(x, Kid(mem, x, right))
      modifies this`mem
      ensures mem == TakePlace(old(mem), x, r, xp)
    {
      hide Kid, SetKid, SetParent, Apart;
      ghost var m0 := mem;
      KidsStay(m0, x, r, xp);
      mem := SetParent(mem, r, xp);
      var c0 := Kid(mem, x, false);
      if c0 != 0 {
        if c0 >= least {
          mem := SetKid(mem, r, false, c0);
          mem := SetParent(mem, c0, r);
        } else {
          assert false;
        }
      }
      var c1 := Kid(mem, x, true);
      if c1 != 0 {
        if c1 >= least {
          mem := SetKid(mem, r, true, c1);
          mem := SetParent(mem, c1, r);
        } else {
          assert false;
        }
      }
    }

    /** unlink_large_chunk */
    method UnlinkLargeChunk(x: int)
      requires Valid() && x in g.bs && g.bs[x] >= MIN_LARGE_SIZE
      modifies this
      ensures Valid() && g.bs == old(g.bs) - {x}
      ensures OnlySlots(old(mem), mem, old(g.bs), hdr) && least == old(least)
    {
      hide BinsOk, Spaced, Bit, Unmark, OnlySlots, Kid, SetKid, Parent, Index, TreeIndex, RangeBase, FreeBits, WF, Rep,
           Typed, In,
           Has, Pow2, SubAt, Spot, Above, Remove, RemoveHere, Replace, AllApart, Only, Detached, TakePlace, UnlinkRing,
               AllIn;
      ghost var s := g.bs[x];
      ghost var i0, lo, k, t, sub, up, lo', k' := PlaceOf(mem, smallmap, treemap, roots, hdr, tbin, g, x);
      ghost var m0, map0, slot := mem, treemap, tbin + 8 * i0;
      ghost var sub' := RemoveHere(sub, x);
      var xp := Parent(mem, x);
      var i := Index(mem, x);
      var r;
      ghost var at;
      r, at := TakeOut(x, sub, up, i0, lo', k');
      ghost var m1 := mem;
      if xp == 0 {
        UnlinkBehind(m0, mem, t, roots[i], slot, i, lo, k, x, s, g.bs);
        TouchUnlinkRing(m0, x);
        at := {Fd(m0, x), Bk(m0, x)};
        TwoIn(t, Fd(m0, x), Bk(m0, x));
        RootStays(m0, t, roots[i], slot, i);
      } else if x == roots[i] {
        WholeTrie(m0, t, roots[i], slot, i, lo, k, x, s, g.bs);
        roots := roots[i := r];
        if r == 0 {
          treemap := Unmark(treemap, i);
          NilRep(mem, slot, i);
        } else {
          PromotionRoom(m1, t, sub', x, i, lo, k, g.bs, least);
          if r >= least {
            Rehang(x, r, xp);
          } else {
            assert false;
          }
          at := PromoteRoot(m0, m1, mem, t, sub', x, slot, i, lo, k, g.bs, at);
        }
        WithinWhole(at, t, lo, k, s);
      } else {
        InnerPlace(m0, m1, t, roots[i], slot, i, lo, k, x, s, g.bs, at);
        ghost var right := Above(t, lo, k, s).1;
        if xp >= least {
          if Kid(mem, xp, false) == x {
            mem := SetKid(mem, xp, false, r);
          } else {
            mem := SetKid(mem, xp, true, r);
          }
        } else {
          assert false;
        }
        if r == 0 {
          CutLeaf(m0, mem, t, roots[i], slot, i, lo, k, s, g.bs);
          at := {xp};
          TwoIn(t, xp, xp);
          assert {xp, xp} == {xp};
        } else {
          InnerRoom(m1, mem, t, sub', x, i, lo, k, s, g.bs, least, r);
          if r >= least {
            Rehang(x, r, xp);
          } else {
            assert false;
          }
          at := PromoteInner(m0, m1, mem, t, sub', x, roots[i], slot, i, lo, k, s, g.bs, at);
        }
        RootStays(m0, t, roots[i], slot, i);
      }
      FinishUnlink(m0, mem, smallmap, map0, old(roots), hdr, tbin, g, x, s, roots[i], at);
      assert old(roots)[i := roots[i]] == roots;
      g := WithoutLarge(g, x, s);
    }

    /** insert_chunk */
    method InsertChunk(p: int, s: nat)
      requires Valid() && Insertable(p, s) && s < W64
      modifies this
      ensures Valid() && g.bs == old(g.bs)[p := s]
      ensures OnlySlots(old(mem), mem, g.bs, hdr) && least == old(least)
    {
      hide BinsOk, Spaced, OnlySlots, Head, SizeOf;
      if s / 8 < 32 {
        InsertSmallChunk(p, s);
      } else {
        InsertLargeChunk(p, s);
      }
    }

    /** unlink_chunk */
    method UnlinkChunk(p: int, s: nat)
      requires Valid() && p in g.bs && g.bs[p] == s
      modifies this
      ensures Valid() && g.bs == old(g.bs) - {p}
      ensures OnlySlots(old(mem), mem, old(g.bs), hdr) && least == old(least)
    {
      hide BinsOk, OnlySlots;
      if s / 8 < 32 {
        UnlinkSmallChunk(p, s);
      } else {
        UnlinkLargeChunk(p);
      }
    }

    /** The search of tmalloc_large: a large free chunk of least size among those that fit, or 0 when none fits. */
    method FindBestFit(nb: nat) returns (v: int, rsize: nat)
      requires Valid() && MIN_LARGE_SIZE <= nb < W64
      ensures v == 0 ==> forall x :: x in g.bs && g.bs[x] >= MIN_LARGE_SIZE ==> g.bs[x] < nb
      ensures v != 0 ==> v in g.bs && g.bs[v] >= nb && rsize == g.bs[v] - nb
      ensures v != 0 ==> forall x :: x in g.bs && MIN_LARGE_SIZE <= g.bs[x] && nb <= g.bs[x] ==> g.bs[v] <= g.bs[x]
    {
      hide BinsOk, Bit, And, LeftBits, LeastBit, Bit2Idx, TreeIndex, RangeBase, FreeBits, WF, Rep, Typed, In, Has,
           Pow2, Sub64,
           Candidate, Inside, SizesFit, HeadsIn, AtLeast, BoundedAll, LowestMarked;
      var idx := TreeIndex(nb);
      SearchFacts(mem, smallmap, treemap, roots, hdr, tbin, g, idx, nb);
      var t := roots[idx];
      rsize := Sub64(0, nb);
      v := 0;
      ghost var best, cur, lo, k, up := 0, Nil, 0, 0, 0;
      ghost var j: nat, trie: Trie := idx, g.tries[idx];
      if t != 0 {
        v, rsize, t, best, cur, lo, k, up := DescendForSize(mem, t, nb, idx, trie, tbin + 8 * idx, g.bs);
      } else {
        NothingThere(mem, nb, g.bs, idx);
      }
      if t == 0 && v == 0 {
        LeftBitsScan(treemap, idx);
        LowestMarkedIs(treemap, idx + 1);
        var leftbits := And(LeftBits(Idx2Bit(idx)), treemap);
        NoCandidate(mem, cur, t, up, idx, nb, trie, g.bs, best);
        if leftbits != 0 {
          var i := Bit2Idx(LeastBit(leftbits));
          NextBinFacts(mem, smallmap, treemap, roots, hdr, tbin, g, idx, nb, i);
          t := roots[i];
          j, trie := i, g.tries[i];
          best, cur, lo, k, up := 0, trie, RangeBase(i), FreeBits(i), tbin + 8 * i;
        }
      }
      RootIn(mem, cur, t, up, j);
      CandidateZero(v, best, nb, trie, g.bs);
      v, rsize, best := LeftmostFit(mem, t, v, rsize, nb, best, trie, cur, lo, k, up, j, g.bs);
      CandidateZero(v, best, nb, trie, g.bs);
      BestOfAll(mem, smallmap, treemap, roots, hdr, tbin, g, idx, nb, j, v, best, rsize);
    }

    /** The search of tmalloc_small: the least large free chunk of all, found in the lowest marked tree bin. */
    method FindLeast(nb: nat) returns (v: int, rsize: nat)
      requires Valid() && treemap != 0 && 0 < nb < MIN_LARGE_SIZE
      ensures v in g.bs && g.bs[v] >= MIN_LARGE_SIZE && rsize == g.bs[v] - nb
      ensures forall x :: x in g.bs && g.bs[x] >= MIN_LARGE_SIZE ==> g.bs[v] <= g.bs[x]
    {
      hide BinsOk, Bit, LeastBit, Bit2Idx, TreeIndex, RangeBase, FreeBits, WF, Rep, Typed, In, Has, Pow2, Sub64, Kid,
           SizeOf, Head,
           Candidate, Inside, SizesFit, HeadsIn, AtLeast, BoundedAll, LowestMarked;
      MapBounds(mem, smallmap, treemap, roots, hdr, tbin, g);
      LeastBitScans(treemap);
      var i := Bit2Idx(LeastBit(treemap));
      LowestBinFacts(mem, smallmap, treemap, roots, hdr, tbin, g, nb, i);
      ghost var trie, lo, k, up := g.tries[i], RangeBase(i), FreeBits(i), tbin + 8 * i;
      var t := roots[i];
      Consider(mem, trie, t, up, i, nb, 0, 0, trie, g.bs);
      LeftmostAll(trie, trie, lo, k, nb, 0);
      FirstCandidate(trie, nb);
      v := t;
      rsize := Sub64(SizeOf(Head(mem, t)), nb);
      ghost var lo', k' := LeftmostPart(trie, lo, k, nb);
      ChildFacts(mem, trie, t, up, i, g.bs, false);
      ChildFacts(mem, trie, t, up, i, g.bs, true);
      InsideChild(trie, trie, false);
      InsideChild(trie, trie, true);
      var c := if Kid(mem, t, false) != 0 then Kid(mem, t, false) else Kid(mem, t, true);
      ghost var best;
      v, rsize, best := LeftmostFit(mem, c, v, rsize, nb, trie.size, trie, Leftmost(trie), lo', k', t, i, g.bs);
      LeastOfAll(mem, smallmap, treemap, roots, hdr, tbin, g, nb, i, v, best, rsize);
    }
  }

  lemma EmptyOrIn(list: seq<int>, bs: map<int, nat>)
    requires forall x :: x in list ==> x in bs
    ensures list == [] || list[0] in bs
  {
    if list != [] {
      var x := list[0];
      assert x in list;
      assert x in bs;
    }
  }

  /** Empty bins do not depend on memory. */
  lemma EmptyBins(m: Mem, m': Mem, smallmap: nat, treemap: nat, roots: seq<int>, hdr: int, tbin: int, g: Binned)
    requires BinsOk(m, smallmap, treemap, roots, hdr, tbin, g) && g.bs == map[]
    ensures BinsOk(m', smallmap, treemap, roots, hdr, tbin, g)
  {
    hide Bit, RingOk, WF, Typed, TreeIndex;
    forall i | 0 <= i < 32 ensures SmallBin(m', smallmap, hdr, g.bs, g.lists[i], i) {
      assert SmallBin(m, smallmap, hdr, g.bs, g.lists[i], i);
      EmptyOrIn(g.lists[i], g.bs);
    }
    forall i | 0 <= i < 32 ensures TreeBin(m', treemap, roots[i], tbin + 8 * i, g.bs, g.tries[i], i) {
      assert TreeBin(m, treemap, roots[i], tbin + 8 * i, g.bs, g.tries[i], i);
      TreeBinFrame(m, m', treemap, treemap, roots[i], tbin + 8 * i, g.bs, g.bs, g.tries[i], i);
    }
  }

  lemma SmallFacts(
    m: Mem, smallmap: nat, treemap: nat, roots: seq<int>, hdr: int, tbin: int, g: Binned, i: nat, p: int, s: nat
  )
    requires BinsOk(m, smallmap, treemap, roots, hdr, tbin, g) && i == s / 8 && s < MIN_LARGE_SIZE
    requires Spaced(g.bs[p := s], hdr)
    ensures 4 <= i < 32 && 8 * i == s && i < |g.lists|
    ensures Bit(smallmap, i) ==> Fd(m, Header(hdr, i)) in g.bs
  {
    hide Bit, TreeBinsOk, Complete, HeadsOk, RingOk;
    assert g.bs[p := s][p] == s;
    FirstIsKnown(m, smallmap, hdr, g.bs, g.lists[i], i);
  }

  lemma FirstFacts(m: Mem, smallmap: nat, treemap: nat, roots: seq<int>, hdr: int, tbin: int, g: Binned, i: nat)
    requires BinsOk(m, smallmap, treemap, roots, hdr, tbin, g) && i < 32 && Bit(smallmap, i)
    ensures var p := Fd(m, Header(hdr, i)); p in g.bs && g.bs[p] == 8 * i && Bk(m, p) == Header(hdr, i)
    ensures i < |g.lists| && g.lists[i] != [] && Fd(m, Header(hdr, i)) == g.lists[i][0]
  {
    hide Bit, TreeBinsOk, Complete, HeadsOk, RingOk, Spaced, Fd, Bk;
    FirstIsKnown(m, smallmap, hdr, g.bs, g.lists[i], i);
    assert g.lists[i][0] in g.lists[i];
    Neighbours(m, smallmap, hdr, g.bs, g.lists[i], i, g.lists[i][0]);
  }

  /** The list neighbours of a binned small chunk. */
  lemma ListedFacts(m: Mem, smallmap: nat, treemap: nat, roots: seq<int>, hdr: int, tbin: int, g: Binned, p: int)
    requires BinsOk(m, smallmap, treemap, roots, hdr, tbin, g) && p in g.bs && g.bs[p] < MIN_LARGE_SIZE
    ensures var f, b, i := Fd(m, p), Bk(m, p), g.bs[p] / 8;
            && i < 32 && i < |g.lists| && p in g.lists[i]
            && (f == Header(hdr, i) || (f in g.bs && Bk(m, f) == p))
            && (b == Header(hdr, i) || (b in g.bs && Fd(m, b) == p))
  {
    hide Bit, TreeBinsOk, HeadsOk, RingOk, Spaced, Fd, Bk, TreeIndex;
    var i := g.bs[p] / 8;
    Neighbours(m, smallmap, hdr, g.bs, g.lists[i], i, p);
  }

  /** What insert_large_chunk may rely on. */
  lemma TreeFacts(m: Mem, smallmap: nat, treemap: nat, roots: seq<int>, hdr: int, tbin: int, g: Binned, x: int, s: nat)
    requires BinsOk(m, smallmap, treemap, roots, hdr, tbin, g) && MIN_LARGE_SIZE <= s < W64
    requires x !in g.bs && Spaced(g.bs[x := s], hdr)
    ensures |g.lists| == 32 && |g.tries| == 32 && |roots| == 32 && tbin > 0
    ensures var i := TreeIndex(s);
            && i < 32 && var t := g.tries[i];
            && Bit(treemap, i) == t.Node?
            && WF(t, RangeBase(i), FreeBits(i)) && Typed(t, g.bs) && Rep(m, t, roots[i], tbin + 8 * i, i)
            && RangeBase(i) <= s < RangeBase(i) + Pow2(FreeBits(i))
            && AllApart(t) && ApartFrom(x, t) && !In(t, x) && x != 0 && HeadsIn(m, t, g.bs)
            && (forall y :: In(t, y) ==> y in g.bs)
  {
    hide Bit, WF, Rep, Typed, TreeIndex, RangeBase, FreeBits, Pow2, In, Complete, SmallBin;
    TreeBinOf(m, smallmap, treemap, roots, hdr, tbin, g, s);
    var t, bs' := g.tries[TreeIndex(s)], g.bs[x := s];
    forall y | In(t, y) ensures Apart(x, y) {
      assert x in bs' && y in bs' && bs'[y] == g.bs[y];
      if x < y { assert x + bs'[x] <= y; } else { assert y + bs'[y] <= x; }
    }
    assert bs'[x] == s;
  }

  lemma FirstOfBin(m: Mem, m': Mem, t: Trie, slot: int, i: nat, lo: nat, k: nat, x: int, s: nat)
    requires t.Nil? && x != 0 && WF(t, lo, k) && lo <= s < lo + Pow2(k)
    requires m' == LinkSelf(InitNode(m, x, i), x, slot)
    ensures Rep(m', Insert(t, lo, k, x, s), x, slot, i) && Only(m, m', {x})
  {
    hide Rep, Only, LinkSelf, InitNode, Kid, Index;
    var m1 := InitNode(m, x, i);
    InitNodeEffect(m, x, i);
    LeafRep(m1, x, slot, i, s);
    TouchInit(m, x, i, slot);
    TouchInit(m1, x, i, slot);
    OnlyTrans(m, m1, m', {x}, {x});
    assert {x} + {x} == {x};
  }

  lemma InitHeads(m: Mem, t: Trie, bs: map<int, nat>, x: int, i: int)
    requires HeadsIn(m, t, bs) && ApartFrom(x, t)
    ensures HeadsIn(InitNode(m, x, i), t, bs)
  {
    forall y | In(t, y) && y in bs ensures Head(InitNode(m, x, i), y) == Head(m, y) { assert Apart(x, y); }
  }

  /** The node found and its ring neighbour are chunks of the trie, also after the new chunk was initialised. */
  lemma PlaceChunks(
    m: Mem, m1: Mem, t: Trie, root: int, slot: int, i: nat, lo: nat, k: nat, s: nat, bs: map<int, nat>, x: int
  )
    requires t.Node? && WF(t, lo, k) && lo <= s < lo + Pow2(k) && Typed(t, bs) && Rep(m, t, root, slot, i)
    requires ApartFrom(x, t) && m1 == InitNode(m, x, i)
    requires SubAt(t, lo, k, s).Node? && SubAt(t, lo, k, s).ring != []
    ensures var n := SubAt(t, lo, k, s).ring[0];
            In(t, n) && In(t, Fd(m, n)) && Fd(m1, n) == Fd(m, n)
  {
    hide Rep, WF, Typed, In, SubAt, Apart, Pow2, Has, InitNode, Kid, Fd, SameLinks;
    var sub := SubAt(t, lo, k, s);
    var n := sub.ring[0];
    HeadIn(sub);
    SubAtIn(t, lo, k, s, n);
    InitNodeEffect(m, x, i);
    SameFd(m, m1, n);
    if t.size == s {
      PlaceReached(t, lo, k, s, t);
      RootNext(m, t, root, slot, i);
    } else {
      RoomBelow(t, lo, k, s);
      PlaceRep(m, t, root, slot, i, lo, k, s, bs);
      RootNext(m, sub, Kid(m, Above(t, lo, k, s).0, Above(t, lo, k, s).1), Above(t, lo, k, s).0, i);
    }
    SubAtIn(t, lo, k, s, Fd(m, n));
  }

  lemma RootNext(m: Mem, t: Trie, a: int, par: int, idx: int)
    requires t.Node? && Rep(m, t, a, par, idx)
    ensures t.ring != [] && In(t, Fd(m, t.ring[0]))
  {
    hide Fd;
    RingHead(m, t.ring);
  }

  /** What the links of a chunk say about its ring. */
  lemma ChunkFacts(m: Mem, t: Trie, x: int, up: int, i: int, lo: nat, k: nat, bs: map<int, nat>)
    requires t.Node? && x in t.ring && WF(t, lo, k) && t.ring != [] && Rep(m, t, t.ring[0], up, i) && up != 0
    ensures In(t, x) && In(t, Fd(m, x)) && In(t, Bk(m, x)) && Bk(m, Fd(m, x)) == x && Fd(m, Bk(m, x)) == x
    ensures Bk(m, x) == x <==> t.ring == [x]
    ensures Parent(m, x) == 0 <==> x != t.ring[0]
    ensures x == t.ring[0] ==> Parent(m, x) == up
    ensures Index(m, x) == i
  {
    hide Fd, Bk, Parent, Index, Kid, Has, Pow2;
    var p :| 0 <= p < |t.ring| && t.ring[p] == x;
    RingLinks(m, t.ring, p);
  }

  lemma RingLinks(m: Mem, ring: seq<int>, p: nat)
    requires RingOk(m, ring) && NoDup(ring) && p < |ring|
    ensures var f, b := Fd(m, ring[p]), Bk(m, ring[p]);
            f in ring && b in ring && Bk(m, f) == ring[p] && Fd(m,
                                                                b) == ring[p] && (b == ring[p] <==> ring == [ring[p]])
  {
    hide Fd, Bk;
    var n := |ring|;
    assert Fd(m, ring[p]) == ring[Next(p, n)] && Bk(m, ring[p]) == ring[Prev(p, n)];
    assert Bk(m, ring[Next(p, n)]) == ring[Prev(Next(p, n), n)];
    assert Fd(m, ring[Prev(p, n)]) == ring[Next(Prev(p, n), n)];
  }

  lemma TwoIn(t: Trie, f: int, r: int)
    requires In(t, f) && In(t, r)
    ensures AllIn({f, r}, t)
  {
  }

  lemma DetachedHead(m: Mem, x: int, t: Trie, i: int)
    requires Detached(m, x, t, i)
    ensures t.ring != [] && t.ring[0] != 0
  {
    StandbyHead(m, t.ring, i);
  }

  lemma LeafVanishes(t: Trie, x: int)
    requires Leaf(t) && t.ring == [x]
    ensures RemoveHere(t, x) == Nil
  {
  }

  lemma NoneIn(t: Trie)
    ensures AllIn({}, t)
  {
  }

  lemma OnlySame(m: Mem)
    ensures Only(m, m, {})
  {
  }

  lemma HeadGone(m: Mem, m': Mem, t: Trie, x: int, up: int, i: int, lo: nat, k: nat, bs: map<int, nat>)
    requires t.Node? && WF(t, lo, k) && Typed(t, bs) && Rep(m, t, x, up, i) && AllApart(t)
    requires t.ring != [x] && m' == UnlinkRing(m, x)
    ensures RemoveHere(t, x).Node? && Detached(m', x, RemoveHere(t, x), i)
    ensures RemoveHere(t, x).ring != [] && Bk(m, x) == RemoveHere(t, x).ring[0]
  {
    hide WF, Typed, AllApart, Detached, Bk, UnlinkRing, RingWithout, NodeOk, Kid;
    NodeRing(m, t.ring, up, i);
    assert t.ring == [x] + t.ring[1..];
    HeadDetached(m, m', t, x, up, i, lo, k, bs);
  }

  lemma LeafGone(m: Mem, t: Trie, x: int, up: int, i: int, lo: nat, k: nat, bs: map<int, nat>)
    requires t.Node? && WF(t, lo, k) && Typed(t, bs) && Rep(m, t, x, up, i) && AllApart(t)
    requires t.ring == [x] && !Leaf(t)
    ensures In(t, LeafAbove(t).0)
    ensures RemoveHere(t, x).Node? && Detached(SetKid(m, LeafAbove(t).0, LeafAbove(t).1, 0), x, RemoveHere(t, x), i)
    ensures RemoveHere(t, x).ring == LastLeaf(t).ring
  {
    hide WF, Typed, AllApart, Detached, Kid, SetKid, Rep, In, LeafAbove, LastLeaf;
    var m' := SetKid(m, LeafAbove(t).0, LeafAbove(t).1, 0);
    LeafDetached(m, m', t, x, up, i, lo, k, bs);
    DropLeafRep(m, m', t, x, up, i, lo, k, bs);
  }

  /** The children of `x` are read while `r` already points elsewhere. */
  lemma KidsStay(m: Mem, x: int, r: int, xp: int)
    requires Apart(x, r) && forall right :: Kid(m, x, right) != 0 ==> Apart(x, Kid(m, x, right))
    ensures var m1 := SetParent(m, r, xp);
            && Kid(m1, x, false) == Kid(m, x, false) && Kid(m1, x, true) == Kid(m, x, true)
            && (var c := Kid(m, x, false);
                c != 0 ==> Kid(SetParent(SetKid(m1, r, false, c), c, r), x, true) == Kid(m, x, true))
  {
    assert Kid(m, x, false) != 0 ==> Apart(x, Kid(m, x, false));
  }

  /** Where a large chunk sits: its bin, its trie and the subtree whose ring contains it. */
  lemma PlaceOf(m: Mem, smallmap: nat, treemap: nat, roots: seq<int>, hdr: int, tbin: int, g: Binned, x: int)
    returns (i: nat, lo: nat, k: nat, t: Trie, sub: Trie, up: int, lo': nat, k': nat)
    requires BinsOk(m, smallmap, treemap, roots, hdr, tbin, g) && x in g.bs && g.bs[x] >= MIN_LARGE_SIZE
    ensures var s := g.bs[x];
            && s < W64 && i == TreeIndex(s) && i < 32 && |g.tries| == 32 && |roots| == 32 && tbin > 0
            && lo == RangeBase(i) && k == FreeBits(i) && t == g.tries[i] && sub == SubAt(t, lo, k, s)
            && (lo', k') == Spot(t, lo, k, s)
            && t.Node? && WF(t, lo, k) && lo <= s < lo + Pow2(k) && Typed(t, g.bs)
            && Rep(m, t, roots[i], tbin + 8 * i, i) && AllApart(t)
            && In(t, x) && Has(t, s)
            && sub.Node? && x in sub.ring && sub.ring != [] && In(sub, x) && WF(sub, lo', k') && Typed(sub, g.bs)
            && AllApart(sub)
            && Rep(m, sub, sub.ring[0], up, i) && up != 0
            && (t.size == s ==> sub == t && up == tbin + 8 * i && lo' == lo && k' == k)
            && (t.size != s ==> k > 0 && up == Above(t, lo, k, s).0)
            && Index(m, x) == i
            && (forall y :: In(t, y) ==> y in g.bs) && (forall y :: In(sub, y) ==> In(t, y))
  {
    hide Bit, WF, Rep, Typed, TreeIndex, RangeBase, FreeBits, Pow2, In, Has, SubAt, Spot, Above, Kid, Parent, Index,
         SmallBin, HeadsOk;
    var s := g.bs[x];
    SizeBound(g.bs, hdr, x);
    TreeBinOf(m, smallmap, treemap, roots, hdr, tbin, g, s);
    MarkedBin(m, smallmap, treemap, roots, hdr, tbin, g, x);
    i := TreeIndex(s);
    lo, k, t := RangeBase(i), FreeBits(i), g.tries[i];
    sub, lo', k' := SubAt(t, lo, k, s), Spot(t, lo, k, s).0, Spot(t, lo, k, s).1;
    MemberTyped(t, g.bs, x);
    SubAtIsPart(t, lo, k, s);
    SubAtTyped(t, lo, k, s, g.bs);
    PartAllApart(t, lo, k, s);
    MemberAtPlace(t, lo, k, x, s, g.bs);
    SubInto(t, lo, k, s);
    if t.size == s {
      PlaceReached(t, lo, k, s, t);
      SpotReached(t, lo, k, s);
      RootIn(m, t, roots[i], tbin + 8 * i, i);
      up := tbin + 8 * i;
    } else {
      RoomBelow(t, lo, k, s);
      PlaceRep(m, t, roots[i], tbin + 8 * i, i, lo, k, s, g.bs);
      up := Above(t, lo, k, s).0;
      RootIn(m, sub, Kid(m, up, Above(t, lo, k, s).1), up, i);
    }
    ChunkFacts(m, sub, x, up, i, lo', k', g.bs);
  }

  lemma SizeBound(bs: map<int, nat>, hdr: int, x: int)
    requires Spaced(bs, hdr) && x in bs
    ensures bs[x] < W64
  {
  }

  lemma SpotReached(t: Trie, lo: nat, k: nat, s: nat)
    requires t.Nil? || t.size == s
    ensures Spot(t, lo, k, s) == (lo, k)
  {
  }

  lemma RootStays(m: Mem, t: Trie, root: int, slot: int, i: int)
    requires t.Node? && Rep(m, t, root, slot, i)
    ensures root != 0
  {
    RootIn(m, t, root, slot, i);
  }

  lemma NilRep(m: Mem, slot: int, i: int)
    ensures Rep(m, Nil, 0, slot, i)
  {
  }

  /** Removal from the subtree of `x`, spelled out. */
  lemma Removed(t: Trie, lo: nat, k: nat, x: int, bs: map<int, nat>)
    requires t.Node? && WF(t, lo, k) && Typed(t, bs) && x in t.ring && AllApart(t)
    ensures var t' := RemoveHere(t, x);
            WF(t', lo, k) && Typed(t', bs) && AllApart(t') && forall y :: In(t', y) ==> In(t, y) && y != x
  {
    hide WF, Typed, RemoveHere, In, Apart;
    RemoveHereFits(t, lo, k, x, bs);
  }

  lemma WholeTrie(m: Mem, t: Trie, root: int, slot: int, i: int, lo: nat, k: nat, x: int, s: nat, bs: map<int, nat>)
    requires t.Node? && Rep(m, t, root, slot, i) && x == root && Typed(t, bs) && x in bs && bs[x] == s && WF(t, lo, k)
    requires AllApart(t)
    requires lo <= s < lo + Pow2(k) && Has(t, s)
    ensures t.size == s && SubAt(t, lo, k, s) == t && Remove(t, lo, k, x, s) == RemoveHere(t, x)
    ensures var t' := RemoveHere(t, x);
            WF(t', lo, k) && Typed(t', bs) && AllApart(t') && forall y :: In(t', y) ==> In(t, y) && y != x
    ensures In(t, x)
  {
    hide WF, RemoveHere, Apart, Pow2, Has, NodeOk;
    NodeRing(m, t.ring, slot, i);
    PlaceReached(t, lo, k, s, RemoveHere(t, x));
    Removed(t, lo, k, x, bs);
  }

  lemma WithinWhole(at: set<int>, t: Trie, lo: nat, k: nat, s: nat)
    ensures AllIn(at, SubAt(t, lo, k, s)) ==> AllIn(at, t)
  {
    SubInto(t, lo, k, s);
  }

  /** The replacement and the children of `x` are chunks of the trie other than `x`. */
  lemma PromotionRoom(m: Mem, t: Trie, t': Trie, x: int, i: int, lo: nat, k: nat, bs: map<int, nat>, least: int)
    requires AllApart(t) && In(t, x) && (forall y :: In(t', y) ==> In(t, y) && y != x)
    requires (forall y :: In(t, y) ==> least <= y)
    requires Detached(m, x, t', i) && t'.ring != []
    ensures var r := t'.ring[0]; r >= least && Apart(x, r) && r != 0
    ensures forall right :: Kid(m, x, right) != 0 ==> Kid(m, x, right) >= least && Apart(x, Kid(m, x, right))
  {
    hide Kid, Apart;
    HeadIn(t');
    StandbyHead(m, t'.ring, i);
    RootIn(m, t'.left, Kid(m, x, false), x, i);
    RootIn(m, t'.right, Kid(m, x, true), x, i);
    forall right | Kid(m, x, right) != 0 ensures Kid(m, x, right) >= least && Apart(x, Kid(m, x, right)) {
      var c := Kid(m, x, right);
      assert In(t', c);
    }
  }

  lemma InnerPlace(
    m: Mem, m1: Mem, t: Trie, root: int, slot: int, i: int, lo: nat, k: nat, x: int, s: nat, bs: map<int, nat>,
    at: set<int>
  )
    requires t.Node? && WF(t, lo, k) && lo <= s < lo + Pow2(k) && Typed(t, bs) && Rep(m, t, root, slot, i)
    requires AllApart(t) && Has(t, s)
    requires var sub := SubAt(t, lo, k, s);
             && sub.Node? && x in sub.ring && sub.ring != [] && x == sub.ring[0] && x != root
             && Only(m, m1, at) && AllIn(at, sub)
    ensures t.size != s && k > 0
    ensures var (q, right) := Above(t, lo, k, s);
            && In(t, q) && Kid(m1, q, right) == x && Kid(m1, q, !right) != x
            && Remove(t, lo, k, x, s) == Replace(t, lo, k, s, RemoveHere(SubAt(t, lo, k, s), x))
    ensures var t', (lo', k') := RemoveHere(SubAt(t, lo, k, s), x), Spot(t, lo, k, s);
            WF(t', lo', k') && Typed(t', bs) && AllApart(t')
            && forall y :: In(t', y) ==> In(SubAt(t, lo, k, s), y) && In(t, y) && y != x
  {
    hide WF, RemoveHere, Apart, Pow2, Has, Rep, SubAt, Spot, Above, Kid, In, Only, Typed, Replace, SameLinks;
    var sub := SubAt(t, lo, k, s);
    if t.size == s {
      PlaceReached(t, lo, k, s, t);
      RootIn(m, t, root, slot, i);
      assert false;
    }
    RoomBelow(t, lo, k, s);
    PlaceRep(m, t, root, slot, i, lo, k, s, bs);
    var (q, right) := Above(t, lo, k, s);
    RootIn(m, sub, Kid(m, q, right), q, i);
    AboveIsOutside(t, lo, k, s, bs);
    OutsideKept(m, m1, t, lo, k, s, at);
    KeptKid(m, m1, q);
    SubAtIsPart(t, lo, k, s);
    SubAtTyped(t, lo, k, s, bs);
    PartAllApart(t, lo, k, s);
    SubInto(t, lo, k, s);
    Removed(sub, Spot(t, lo, k, s).0, Spot(t, lo, k, s).1, x, bs);
  }

  lemma InnerRoom(
    m1: Mem, m2: Mem, t: Trie, t': Trie, x: int, i: int, lo: nat, k: nat, s: nat, bs: map<int, nat>, least: int,
    r: int
  )
    requires t.Node? && t.size != s && k > 0 && WF(t, lo, k) && lo <= s < lo + Pow2(k) && Typed(t, bs)
    requires AllApart(t) && In(t, x) && In(SubAt(t, lo, k, s), x)
    requires (forall y :: In(t', y) ==> In(t, y) && y != x) && (forall y :: In(t, y) ==> least <= y)
    requires Detached(m1, x, t', i) && t'.ring != [] && r == t'.ring[0]
    requires var (q, right) := Above(t, lo, k, s); m2 == SetKid(m1, q, right, r)
    ensures r >= least && Apart(x, r) && r != 0
    ensures forall right :: Kid(m2, x, right) != 0 ==> Kid(m2, x, right) >= least && Apart(x, Kid(m2, x, right))
  {
    hide WF, Apart, Pow2, Has, SubAt, Above, Kid, SetKid, In, Typed, Detached, SameLinks;
    var (q, right) := Above(t, lo, k, s);
    AboveIsOutside(t, lo, k, s, bs);
    PromotionRoom(m1, t, t', x, i, lo, k, bs, least);
    KidElsewhere(m1, q, right, r, x);
  }

  lemma FinishUnlink(
    m: Mem, m': Mem, smallmap: nat, treemap: nat, roots: seq<int>, hdr: int, tbin: int, g: Binned, x: int, s: nat,
    root': int, at: set<int>
  )
    requires BinsOk(m, smallmap, treemap, roots, hdr, tbin, g) && MIN_LARGE_SIZE <= s < W64 && x in g.bs && g.bs[x] == s
    requires |g.tries| == 32 && |roots| == 32 && TreeIndex(s) < 32
    requires var i := TreeIndex(s);
             var t, lo, k := g.tries[i], RangeBase(i), FreeBits(i);
             && WF(t, lo, k) && Has(t, s) && lo <= s < lo + Pow2(k)
             && Rep(m', Remove(t, lo, k, x, s), root', tbin + 8 * i, i)
             && Only(m, m', at) && AllIn(at, t)
    ensures var i := TreeIndex(s);
            BinsOk(m', smallmap, if root' != 0 then treemap else Unmark(treemap, i), roots[i := root'], hdr, tbin,
                   WithoutLarge(g, x, s))
    ensures OnlySlots(m, m', g.bs, hdr)
  {
    hide BinsOk, WF, Has, Rep, Remove, Only, Unmark, OnlySlots, TreeIndex, RangeBase, FreeBits, Pow2, In;
    RemoveLargeKeeps(m, m', smallmap, treemap, roots, hdr, tbin, g, x, s, root', at);
  }

  // ---- facts for the searches ---------------------------------------------------------------------------

  lemma SearchFacts(
    m: Mem, smallmap: nat, treemap: nat, roots: seq<int>, hdr: int, tbin: int, g: Binned, i: nat, nb: nat
  )
    requires BinsOk(m, smallmap, treemap, roots, hdr, tbin, g) && MIN_LARGE_SIZE <= nb < W64 && i == TreeIndex(nb)
    ensures |g.tries| == 32 && |roots| == 32 && treemap < W32 && i < 32
    ensures var t := g.tries[i];
            && WF(t, RangeBase(i), FreeBits(i)) && Typed(t, g.bs) && Rep(m, t, roots[i], tbin + 8 * i, i)
            && HeadsIn(m, t, g.bs)
            && SizesFit(t) && (roots[i] == 0 <==> t.Nil?)
  {
    hide Bit, WF, Rep, Typed, TreeIndex, RangeBase, FreeBits, Pow2, In, SmallBin, Complete, Has, SizesFit;
    TreeBinOf(m, smallmap, treemap, roots, hdr, tbin, g, nb);
    RootIn(m, g.tries[i], roots[i], tbin + 8 * i, i);
    TrieSizes(m, smallmap, treemap, roots, hdr, tbin, g, i);
  }

  /** Every size of a trie is the size of some binned chunk of that bin. */
  lemma TrieSizes(m: Mem, smallmap: nat, treemap: nat, roots: seq<int>, hdr: int, tbin: int, g: Binned, i: nat)
    requires BinsOk(m, smallmap, treemap, roots, hdr, tbin, g) && i < 32
    ensures |g.tries| == 32 && SizesFit(g.tries[i])
    ensures forall s: nat :: Has(g.tries[i], s) ==> MIN_LARGE_SIZE <= s < W64 && TreeIndex(s) == i
  {
    hide Bit, Rep, TreeIndex, RangeBase, FreeBits, Pow2, SmallBin, Complete, Has, In;
    var t := g.tries[i];
    forall s: nat | Has(t, s) ensures MIN_LARGE_SIZE <= s < W64 && TreeIndex(s) == i {
      var x := SizeWitness(t, RangeBase(i), FreeBits(i), g.bs, s);
      SizeBound(g.bs, hdr, x);
    }
  }

  lemma {:induction false} SizeWitness(t: Trie, lo: nat, k: nat, bs: map<int, nat>, s: nat) returns (x: int)
    requires WF(t, lo, k) && Typed(t, bs) && Has(t, s)
    ensures In(t, x) && x in bs && bs[x] == s
    decreases t
  {
    if t.size == s {
      x := t.ring[0];
    } else if Has(t.left, s) {
      x := SizeWitness(t.left, lo, k - 1, bs, s);
    } else {
      x := SizeWitness(t.right, lo + Pow2(k - 1), k - 1, bs, s);
    }
  }

  lemma NothingThere(m: Mem, nb: nat, bs: map<int, nat>, idx: int)
    requires 0 < nb
    ensures Candidate(0, 0, nb, Nil, bs) && Rep(m, Nil, 0, 0, idx) && WF(Nil, 0, 0) && Typed(Nil, bs)
    ensures HeadsIn(m, Nil, bs)
    ensures Inside(Nil, Nil) && SizesFit(Nil) && AtLeast(Nil, nb) && BoundedAll(Nil, nb, 0, Nil)
  {
  }

  lemma NoCandidate(m: Mem, cur: Trie, n: int, up: int, idx: int, nb: nat, t: Trie, bs: map<int, nat>, best: nat)
    requires n == 0 && Rep(m, cur, n, up, idx) && Candidate(0, best, nb, t, bs) && BoundedAll(t, nb, best, cur)
    ensures cur == Nil && best == 0 && forall s: nat :: Has(t, s) ==> s < nb
  {
    RootIn(m, cur, n, up, idx);
  }

  lemma NextBinFacts(
    m: Mem, smallmap: nat, treemap: nat, roots: seq<int>, hdr: int, tbin: int, g: Binned, idx: nat, nb: nat, i: nat
  )
    requires BinsOk(m, smallmap, treemap, roots, hdr, tbin, g) && MIN_LARGE_SIZE <= nb < W64 && idx == TreeIndex(nb)
    requires idx < 32
    requires i == LowestMarked(treemap, idx + 1) && i < 32
    ensures |g.tries| == 32 && |roots| == 32
    ensures var t := g.tries[i];
            && t.Node? && WF(t, RangeBase(i), FreeBits(i)) && Typed(t, g.bs) && Rep(m, t, roots[i], tbin + 8 * i, i)
            && HeadsIn(m, t, g.bs)
            && SizesFit(t) && Inside(t, t) && AtLeast(t, nb) && BoundedAll(t, nb, 0, t) && Candidate(0, 0, nb, t, g.bs)
  {
    hide Bit, WF, Rep, Typed, TreeIndex, RangeBase, FreeBits, Pow2, In, SmallBin, Complete, Has, SizesFit, LowestMarked;
    LowestMarkedIs(treemap, idx + 1);
    TrieSizes(m, smallmap, treemap, roots, hdr, tbin, g, i);
    var t := g.tries[i];
    forall s: nat | Has(t, s) ensures nb <= s { BinsOrdered(nb, s); }
  }

  /** The least fit of one bin is the least fit of all when the bins below it hold nothing that fits. */
  lemma BestOfAll(
    m: Mem, smallmap: nat, treemap: nat, roots: seq<int>, hdr: int, tbin: int, g: Binned, idx: nat, nb: nat, j: nat,
    v: int, best: nat, rsize: nat
  )
    requires BinsOk(m, smallmap, treemap, roots, hdr, tbin, g) && MIN_LARGE_SIZE <= nb < W64 && idx == TreeIndex(nb)
    requires idx < 32
    requires |g.tries| == 32 && (j == idx || (idx < j < 32 && j == LowestMarked(treemap, idx + 1)))
    requires j == idx && v == 0 ==> LowestMarked(treemap, idx + 1) == 32
    requires j != idx ==> forall s: nat :: Has(g.tries[idx], s) ==> s < nb
    requires j != idx ==> g.tries[j].Node?
    requires Candidate(v, best, nb, g.tries[j], g.bs) && BoundedAll(g.tries[j], nb, best, Nil)
    requires rsize == Sub64(best, nb) && best < W64
    ensures v == 0 ==> forall x :: x in g.bs && g.bs[x] >= MIN_LARGE_SIZE ==> g.bs[x] < nb
    ensures v != 0 ==> v in g.bs && g.bs[v] >= nb && rsize == g.bs[v] - nb
    ensures v != 0 ==> forall x :: x in g.bs && MIN_LARGE_SIZE <= g.bs[x] && nb <= g.bs[x] ==> g.bs[v] <= g.bs[x]
  {
    hide BinsOk, TreeIndex, Has, In, LowestMarked, Sub64, Bit, WF, Typed, Rep;
    forall x | x in g.bs && MIN_LARGE_SIZE <= g.bs[x] && nb <= g.bs[x] ensures v != 0 && best <= g.bs[x] {
      FitIsCovered(m, smallmap, treemap, roots, hdr, tbin, g, idx, nb, j, v, best, x);
    }
    if v != 0 { SubFits(best, nb); }
  }

  lemma SubFits(best: nat, nb: nat)
    requires nb <= best < W64
    ensures Sub64(best, nb) == best - nb
  {
  }

  lemma FitIsCovered(
    m: Mem, smallmap: nat, treemap: nat, roots: seq<int>, hdr: int, tbin: int, g: Binned, idx: nat, nb: nat, j: nat,
    v: int, best: nat, x: int
  )
    requires BinsOk(m, smallmap, treemap, roots, hdr, tbin, g) && MIN_LARGE_SIZE <= nb < W64 && idx == TreeIndex(nb)
    requires idx < 32
    requires |g.tries| == 32 && (j == idx || (idx < j < 32 && j == LowestMarked(treemap, idx + 1)))
    requires j == idx && v == 0 ==> LowestMarked(treemap, idx + 1) == 32
    requires j != idx ==> forall s: nat :: Has(g.tries[idx], s) ==> s < nb
    requires j != idx ==> g.tries[j].Node?
    requires Candidate(v, best, nb, g.tries[j], g.bs) && BoundedAll(g.tries[j], nb, best, Nil)
    requires x in g.bs && MIN_LARGE_SIZE <= g.bs[x] && nb <= g.bs[x]
    ensures v != 0 && best <= g.bs[x]
  {
    hide BinsOk, TreeIndex, In, LowestMarked, Bit, WF, Typed, Rep, Has;
    var s := g.bs[x];
    MarkedBin(m, smallmap, treemap, roots, hdr, tbin, g, x);
    LowestMarkedIs(treemap, idx + 1);
    var i := TreeIndex(s);
    BinOfSize(m, smallmap, treemap, roots, hdr, tbin, g, x);
    if i < idx { BinsOrdered(s, nb); assert false; }
    if i == j {
    } else if i == idx {
      assert false;
    } else {
      if v == 0 {
        NodeSize(g.tries[j]);
        TrieSizes(m, smallmap, treemap, roots, hdr, tbin, g, j);
        BinsOrdered(nb, g.tries[j].size);
        assert false;
      }
      CandidateBin(m, smallmap, treemap, roots, hdr, tbin, g, v, best, nb, j);
      BinsOrdered(best, s);
    }
  }

  lemma NodeSize(t: Trie)
    requires t.Node?
    ensures Has(t, t.size)
  {
  }

  lemma BinOfSize(m: Mem, smallmap: nat, treemap: nat, roots: seq<int>, hdr: int, tbin: int, g: Binned, x: int)
    requires BinsOk(m, smallmap, treemap, roots, hdr, tbin, g) && x in g.bs && g.bs[x] >= MIN_LARGE_SIZE
    ensures var i := TreeIndex(g.bs[x]); g.bs[x] < W64 && i < |g.tries| == 32 && Has(g.tries[i], g.bs[x])
  {
    hide Bit, WF, Rep, Typed, TreeIndex, In, Has, SmallBin;
    MarkedBin(m, smallmap, treemap, roots, hdr, tbin, g, x);
    MemberTyped(g.tries[TreeIndex(g.bs[x])], g.bs, x);
  }

  lemma CandidateBin(
    m: Mem, smallmap: nat, treemap: nat, roots: seq<int>, hdr: int, tbin: int, g: Binned, v: int, best: nat, nb: nat,
    j: nat
  )
    requires BinsOk(m, smallmap, treemap, roots, hdr, tbin, g) && j < 32 && |g.tries| == 32
    requires v != 0 && Candidate(v, best, nb, g.tries[j], g.bs)
    ensures MIN_LARGE_SIZE <= best < W64 && TreeIndex(best) == j
  {
    hide Bit, WF, Rep, Typed, TreeIndex, In, Has, SmallBin, Complete;
    SizeBound(g.bs, hdr, v);
  }

  lemma MapBounds(m: Mem, smallmap: nat, treemap: nat, roots: seq<int>, hdr: int, tbin: int, g: Binned)
    requires BinsOk(m, smallmap, treemap, roots, hdr, tbin, g)
    ensures smallmap < W32 && treemap < W32 && |roots| == 32 && |g.tries| == 32 && |g.lists| == 32
  {
  }

  lemma LowestBinFacts(
    m: Mem, smallmap: nat, treemap: nat, roots: seq<int>, hdr: int, tbin: int, g: Binned, nb: nat, i: nat
  )
    requires BinsOk(m, smallmap, treemap, roots, hdr, tbin, g) && 0 < nb < MIN_LARGE_SIZE
    requires i == LowestMarked(treemap, 0) && i < 32
    ensures |g.tries| == 32 && |roots| == 32
    ensures var t := g.tries[i];
            && t.Node? && WF(t, RangeBase(i), FreeBits(i)) && Typed(t, g.bs) && Rep(m, t, roots[i], tbin + 8 * i, i)
            && HeadsIn(m, t, g.bs)
            && SizesFit(t) && Inside(t, t) && AtLeast(t, nb) && BoundedAll(t, nb, 0, t) && Candidate(0, 0, nb, t, g.bs)
            && t.size >= MIN_LARGE_SIZE
  {
    hide Bit, WF, Rep, Typed, TreeIndex, RangeBase, FreeBits, Pow2, In, SmallBin, Complete, Has, SizesFit, LowestMarked;
    LowestMarkedIs(treemap, 0);
    TrieSizes(m, smallmap, treemap, roots, hdr, tbin, g, i);
    NodeSize(g.tries[i]);
  }

  lemma FirstCandidate(t: Trie, nb: nat)
    requires t.Node? && t.size >= nb && 0 < nb
    ensures Better(0, t.size, nb) == t.size && t.size != 0
  {
  }

  lemma LeastOfAll(
    m: Mem, smallmap: nat, treemap: nat, roots: seq<int>, hdr: int, tbin: int, g: Binned, nb: nat, i: nat, v: int,
    best: nat, rsize: nat
  )
    requires BinsOk(m, smallmap, treemap, roots, hdr, tbin, g) && 0 < nb < MIN_LARGE_SIZE
    requires i == LowestMarked(treemap, 0) && i < 32 && |g.tries| == 32
    requires Candidate(v, best, nb, g.tries[i], g.bs) && best != 0 && BoundedAll(g.tries[i], nb, best, Nil)
    requires rsize == Sub64(best, nb) && best < W64
    ensures v in g.bs && g.bs[v] >= MIN_LARGE_SIZE && rsize == g.bs[v] - nb
    ensures forall x :: x in g.bs && g.bs[x] >= MIN_LARGE_SIZE ==> g.bs[v] <= g.bs[x]
  {
    hide BinsOk, TreeIndex, In, LowestMarked, Bit, WF, Typed, Rep, Has, Sub64;
    CandidateBin(m, smallmap, treemap, roots, hdr, tbin, g, v, best, nb, i);
    SubFits(best, nb);
    LowestMarkedIs(treemap, 0);
    forall x | x in g.bs && g.bs[x] >= MIN_LARGE_SIZE ensures best <= g.bs[x] {
      MarkedBin(m, smallmap, treemap, roots, hdr, tbin, g, x);
      BinOfSize(m, smallmap, treemap, roots, hdr, tbin, g, x);
      if TreeIndex(g.bs[x]) != i { BinsOrdered(best, g.bs[x]); }
    }
  }
}
