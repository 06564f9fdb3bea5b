/** Bins, tags and payloads share one memory: which writes leave which of them alone. */
module HeapBase {
  import opened Words
  import opened BinIndex
  import opened BitMaps
  import opened Memory
  import opened Tries
  import opened Rings
  import opened TrieLinks
  import opened SmallBins
  import opened BinStore
  import opened Layout
  import opened Tags

  /** The binned chunks are free chunks of the layout. */
  ghost predicate Binnable(cs: Chunks, bs: map<int, nat>) {
    forall x {:trigger bs[x]} {:trigger x in bs} :: x in bs ==> x in cs && cs[x].kind.Free? && cs[x].size == bs[x]
  }

  lemma SpacedIn(cs: Chunks, segs: seq<Segment>, hdr: int, bs: map<int, nat>)
    requires Tile(cs, segs, hdr) && Shape(cs, segs) && Binnable(cs, bs) && hdr > 0
    ensures Spaced(bs, hdr)
  {
    forall x | x in bs
      ensures 0 < x && 32 <= bs[x] < W64 && bs[x] % 16 == 0 && (x + bs[x] <= hdr || hdr + BIN_HEADERS <= x)
    {
      At(cs, segs, hdr, x);
    }
    forall x, y | x in bs && y in bs && x < y ensures x + bs[x] <= y { assert Before(cs, x, y); }
  }

  /** A paragraph of a chunk that is in no bin, or the tag paragraph of any chunk, holds no bin links. */
  lemma SlotsMiss(cs: Chunks, segs: seq<Segment>, hdr: int, bs: map<int, nat>, c: int, a: int)
    requires Tile(cs, segs, hdr) && Shape(cs, segs) && Binnable(cs, bs) && hdr > 0
    requires c in cs && c <= a < c + cs[c].size && (c !in bs || a == c)
    ensures !LinkSlot(bs, hdr, a)
  {
    SpacedIn(cs, segs, hdr, bs);
    assert ChunkOk(cs, segs, c) && PlaceOk(cs[c], segs, c);
    NotIn(cs, segs, hdr, bs, c, a, 16);
    NotIn(cs, segs, hdr, bs, c, a, 32);
    NotIn(cs, segs, hdr, bs, c, a, 48);
  }

  lemma NotIn(cs: Chunks, segs: seq<Segment>, hdr: int, bs: map<int, nat>, c: int, a: int, d: int)
    requires Tile(cs, segs, hdr) && Binnable(cs, bs) && 0 < d
    requires c in cs && c <= a < c + cs[c].size && (c !in bs || a == c)
    ensures !(a - d in bs && d < bs[a - d])
  {
    if a - d in bs { Disjoint(cs, segs, hdr, a - d, c); }
  }

  lemma Disjoint(cs: Chunks, segs: seq<Segment>, hdr: int, x: int, y: int)
    requires Tile(cs, segs, hdr) && x in cs && y in cs
    ensures x == y || x + cs[x].size <= y || y + cs[y].size <= x
  {
    if x < y { assert Before(cs, x, y); } else if y < x { assert Before(cs, y, x); }
  }

  lemma SlotsKeepTags(m: Mem, m': Mem, cs: Chunks, segs: seq<Segment>, hdr: int, bs: map<int, nat>)
    requires Tile(cs, segs, hdr) && Shape(cs, segs) && Binnable(cs, bs) && hdr > 0
    requires OnlySlots(m, m', bs, hdr) && Tagged(m, cs)
    ensures Tagged(m', cs)
  {
    hide LinkSlot, Shape, SegsOk;
    forall p | p in cs ensures TagOk(m', cs, p) {
      assert TagOk(m, cs, p);
      Placed(cs, segs, hdr, p);
      SlotsMiss(cs, segs, hdr, bs, p, p);
      if cs[p].kind.Free? {
        At(cs, segs, hdr, p);
        Placed(cs, segs, hdr, NextOf(cs, p));
        SlotsMiss(cs, segs, hdr, bs, NextOf(cs, p), NextOf(cs, p));
      }
    }
  }

  // ---- payloads --------------------------------------------------------------------------------------------

  /** The words the user of a chunk may write: from `a` to `b`, including the first word of paragraph `b`. */
  ghost predicate SameWords(m: Mem, m': Mem, a: int, b: int) {
    && (forall x :: a <= x <= b ==> Lo(m', x) == Lo(m, x))
    && (forall x :: a <= x < b ==> Hi(m', x) == Hi(m, x))
  }

  /** The payloads of the chunks in `live` are the same. */
  ghost predicate Kept(m: Mem, m': Mem, live: map<int, int>) {
    forall p {:trigger live[p]} :: p in live ==> SameWords(m, m', p + 16, p + live[p])
  }

  ghost function Lives(cs: Chunks): map<int, int> {
    map p | p in cs && cs[p].kind.Live? :: cs[p].size
  }

  lemma KeptTrans(m: Mem, m1: Mem, m2: Mem, live: map<int, int>)
    requires Kept(m, m1, live) && Kept(m1, m2, live)
    ensures Kept(m, m2, live)
  {
    forall p | p in live ensures SameWords(m, m2, p + 16, p + live[p]) {
      assert SameWords(m, m1, p + 16, p + live[p]) && SameWords(m1, m2, p + 16, p + live[p]);
    }
  }

  lemma KeptPart(m: Mem, m': Mem, live: map<int, int>, part: map<int, int>)
    requires Kept(m, m', live) && forall p :: p in part ==> p in live && live[p] == part[p]
    ensures Kept(m, m', part)
  {
    forall p | p in part ensures SameWords(m, m', p + 16, p + part[p]) { assert SameWords(m, m', p + 16, p + live[p]); }
  }

  lemma SlotsKeepLives(m: Mem, m': Mem, cs: Chunks, segs: seq<Segment>, hdr: int, bs: map<int, nat>)
    requires Tile(cs, segs, hdr) && Shape(cs, segs) && Binnable(cs, bs) && hdr > 0 && OnlySlots(m, m', bs, hdr)
    ensures Kept(m, m', Lives(cs))
  {
    hide LinkSlot, Shape, SegsOk, Lo, Hi;
    forall p | p in Lives(cs) ensures SameWords(m, m', p + 16, p + cs[p].size) {
      At(cs, segs, hdr, p);
      var n := NextOf(cs, p);
      Placed(cs, segs, hdr, n);
      forall a | p + 16 <= a < n ensures Lo(m', a) == Lo(m, a) && Hi(m', a) == Hi(m, a) {
        SlotsMiss(cs, segs, hdr, bs, p, a);
      }
      SlotsMiss(cs, segs, hdr, bs, n, n);
    }
  }

  /** No live chunk holds the head paragraphs `hs` or the feet `ls` in its payload. */
  ghost predicate Clear(live: map<int, int>, hs: set<int>, ls: set<int>) {
    && (forall p, a {:trigger live[p], a in hs} :: p in live && a in hs ==> !(p < a < p + live[p]))
    && (forall p, a {:trigger live[p], a in ls} :: p in live && a in ls ==> !(p < a <= p + live[p]))
  }

  lemma EditsKeepLives(m: Mem, m': Mem, hs: set<int>, ls: set<int>, live: map<int, int>)
    requires Edited(m, m', hs, ls) && Clear(live, hs, ls)
    ensures Kept(m, m', live)
  {
    hide Lo, Hi;
    forall p | p in live ensures SameWords(m, m', p + 16, p + live[p]) {
      var s := live[p];
      forall a | p + 16 <= a < p + s ensures Hi(m', a) == Hi(m, a) { assert a !in hs; }
      forall a | p + 16 <= a <= p + s ensures Lo(m', a) == Lo(m, a) { assert a !in ls; }
    }
  }

  // ---- bins ----------------------------------------------------------------------------------------------------

  /** Writing tags outside the link paragraphs leaves the bins alone. */
  lemma EditsKeepBins(
    m: Mem, m': Mem, hs: set<int>, ls: set<int>, smallmap: nat, treemap: nat, roots: seq<int>, hdr: int, tbin: int,
    g: Binned
  )
    requires BinsOk(m, smallmap, treemap, roots, hdr, tbin, g) && Edited(m, m', hs, ls)
    requires forall a :: a in hs || a in ls ==> !LinkSlot(g.bs, hdr, a)
    requires forall x :: x in g.bs && x in hs ==> SizeOf(Head(m', x)) == g.bs[x]
    ensures BinsOk(m', smallmap, treemap, roots, hdr, tbin, g)
  {
    hide Lo, Hi, Bit, Spaced, WF, In, Rep, Typed, TreeIndex, SmallBin, TreeBin, RingOk, LinkSlot;
    assert SameSlots(m, m', g.bs, hdr) by { hide TreeBinsOk, SmallBinsOk, HeadsOk, Complete; }
    hide Edited;
    forall i | 0 <= i < 32 ensures SmallBin(m', smallmap, hdr, g.bs, g.lists[i], i) {
      SlotsSmall(m, m', smallmap, hdr, g.bs, g.lists[i], i);
    }
    forall i | 0 <= i < 32 ensures TreeBin(m', treemap, roots[i], tbin + 8 * i, g.bs, g.tries[i], i) {
      SlotsTree(m, m', treemap, roots[i], tbin + 8 * i, hdr, g.bs, g.tries[i], i);
    }
    assert HeadsOk(m', g.bs) by { EditsKeepHeads(m, m', hs, ls, g.bs); }
  }

  lemma EditsKeepHeads(m: Mem, m': Mem, hs: set<int>, ls: set<int>, bs: map<int, nat>)
    requires HeadsOk(m, bs) && Edited(m, m', hs, ls)
    requires forall x :: x in bs && x in hs ==> SizeOf(Head(m', x)) == bs[x]
    ensures HeadsOk(m', bs)
  {
    hide Lo, Hi;
    forall x | x in bs ensures SizeOf(Head(m', x)) == bs[x] { if x !in hs { assert Hi(m', x) == Hi(m, x); } }
  }

  ghost predicate SameSlots(m: Mem, m': Mem, bs: map<int, nat>, hdr: int) {
    forall a {:trigger LinkSlot(bs, hdr, a)} :: LinkSlot(bs, hdr, a) ==> Lo(m', a) == Lo(m, a) && Hi(m', a) == Hi(m, a)
  }

  lemma SlotsSmall(m: Mem, m': Mem, map32: nat, hdr: int, bs: map<int, nat>, list: seq<int>, i: nat)
    requires SmallBin(m, map32, hdr, bs, list, i) && SameSlots(m, m', bs, hdr) && i < 32
    ensures SmallBin(m', map32, hdr, bs, list, i)
  {
    hide Lo, Hi, Bit, RingOk;
    if list != [] {
      var ring := [Header(hdr, i)] + list;
      forall x | x in ring ensures Fd(m, x) == Fd(m', x) && Bk(m, x) == Bk(m', x) {
        assert LinkSlot(bs, hdr, x + 16);
      }
      RingFrame(m, m', ring);
    }
  }

  lemma SlotsTree(m: Mem, m': Mem, map32: nat, root: int, slot: int, hdr: int, bs: map<int, nat>, t: Trie, i: nat)
    requires TreeBin(m, map32, root, slot, bs, t, i) && SameSlots(m, m', bs, hdr)
    ensures TreeBin(m', map32, root, slot, bs, t, i)
  {
    hide Lo, Hi, Bit, WF, Rep, Typed, TreeIndex;
    forall x | In(t, x) ensures SameLinks(m, m', x) {
      assert LinkSlot(bs, hdr, x + 16) && LinkSlot(bs, hdr, x + 32) && LinkSlot(bs, hdr, x + 48);
    }
    TreeBinFrame(m, m', map32, map32, root, slot, bs, bs, t, i);
  }

  // ---- memory outside the heap -----------------------------------------------------------------------------------

  ghost predicate Outside(segs: seq<Segment>, hdr: int, a: int) {
    && !(hdr <= a < hdr + BIN_HEADERS)
    && forall i :: 0 <= i < |segs| ==> a < segs[i].base || End(segs[i]) <= a
  }

  /** Memory outside the segments and the bin headers is the same. */
  ghost predicate OuterKept(m: Mem, m': Mem, segs: seq<Segment>, hdr: int) {
    forall a {:trigger Outside(segs, hdr, a)} :: Outside(segs, hdr, a) ==>
      Lo(m', a) == Lo(m, a) && Hi(m', a) == Hi(m, a)
  }

  lemma InSegment(cs: Chunks, segs: seq<Segment>, hdr: int, c: int, a: int)
    requires Tile(cs, segs, hdr) && c in cs && c <= a < c + cs[c].size
    ensures !Outside(segs, hdr, a)
  {
    assert ChunkOk(cs, segs, c);
    var s := segs[cs[c].seg];
    assert s.base <= a < End(s);
  }

  lemma OuterTrans(m: Mem, m1: Mem, m2: Mem, segs: seq<Segment>, hdr: int)
    requires OuterKept(m, m1, segs, hdr) && OuterKept(m1, m2, segs, hdr)
    ensures OuterKept(m, m2, segs, hdr)
  {
  }

  lemma SlotsKeepOuter(m: Mem, m': Mem, cs: Chunks, segs: seq<Segment>, hdr: int, bs: map<int, nat>)
    requires Tile(cs, segs, hdr) && Shape(cs, segs) && Binnable(cs, bs) && hdr > 0 && OnlySlots(m, m', bs, hdr)
    ensures OuterKept(m, m', segs, hdr)
  {
    hide Lo, Hi;
    SpacedIn(cs, segs, hdr, bs);
    forall a | Outside(segs, hdr, a) ensures !LinkSlot(bs, hdr, a) {
      if a - 16 in bs { InSegment(cs, segs, hdr, a - 16, a); }
      if a - 32 in bs && bs[a - 32] >= MIN_LARGE_SIZE { InSegment(cs, segs, hdr, a - 32, a); }
      if a - 48 in bs && bs[a - 48] >= MIN_LARGE_SIZE { InSegment(cs, segs, hdr, a - 48, a); }
    }
  }

  lemma EditsKeepOuter(m: Mem, m': Mem, hs: set<int>, ls: set<int>, segs: seq<Segment>, hdr: int)
    requires Edited(m, m', hs, ls) && forall a :: a in hs || a in ls ==> !Outside(segs, hdr, a)
    ensures OuterKept(m, m', segs, hdr)
  {
    hide Lo, Hi, Outside;
  }
}
