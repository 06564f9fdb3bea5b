/** What holds of all bins together, and why an update of one bin leaves the others alone. */
module BinStore {
  import opened Words
  import opened BinIndex
  import opened BitMaps
  import opened Memory
  import opened Tries
  import opened Rings
  import opened TrieLinks
  import opened SmallBins

  /** Tree bin `i`: marked exactly when its trie has nodes, which are the chunks whose size belongs to the bin. */
  ghost predicate TreeBin(m: Mem, map32: nat, root: int, slot: int, bs: map<int, nat>, t: Trie, i: nat) {
    && Bit(map32, i) == t.Node?
    && WF(t, RangeBase(i), FreeBits(i)) && Typed(t, bs)
    && Rep(m, t, root, slot, i)
    && (forall x :: In(t, x) ==> x in bs && bs[x] >= MIN_LARGE_SIZE && TreeIndex(bs[x]) == i)
  }

  ghost predicate TreeBinsOk(m: Mem, map32: nat, roots: seq<int>, tbin: int, bs: map<int, nat>, tries: seq<Trie>) {
    && map32 < W32 && |roots| == 32 && |tries| == 32 && tbin > 0
    && (forall i :: 0 <= i < 32 ==> TreeBin(m, map32, roots[i], tbin + 8 * i, bs, tries[i], i))
  }

  /** Every free chunk of the table is in the bin of its size. */
  ghost predicate Complete(bs: map<int, nat>, lists: seq<seq<int>>, tries: seq<Trie>)
    requires |lists| == 32 && |tries| == 32
  {
    && (forall x :: x in bs && bs[x] < MIN_LARGE_SIZE ==> x in lists[bs[x] / 8])
    && (forall x :: x in bs && bs[x] >= MIN_LARGE_SIZE ==>
          0 <= TreeIndex(bs[x]) < 32 && In(tries[TreeIndex(bs[x])], x))
  }

  /** The head words of the binned chunks hold their sizes. */
  ghost predicate HeadsOk(m: Mem, bs: map<int, nat>) {
    forall x :: x in bs ==> SizeOf(Head(m, x)) == bs[x]
  }

  datatype Binned = Binned(bs: map<int, nat>, lists: seq<seq<int>>, tries: seq<Trie>)

  /** Small chunk `p` is at the front of its list, where the chunk that came last is. */
  ghost predicate NewestOfSize(g: Binned, p: int) {
    p in g.bs && g.bs[p] / 8 < |g.lists| && g.lists[g.bs[p] / 8] != [] && p == g.lists[g.bs[p] / 8][0]
  }

  ghost predicate BinsOk(m: Mem, smallmap: nat, treemap: nat, roots: seq<int>, hdr: int, tbin: int, g: Binned) {
    && Spaced(g.bs, hdr)
    && SmallBinsOk(m, smallmap, hdr, g.bs, g.lists)
    && TreeBinsOk(m, treemap, roots, tbin, g.bs, g.tries)
    && Complete(g.bs, g.lists, g.tries)
    && HeadsOk(m, g.bs)
  }

  /** Paragraph `a` holds links of a binned chunk or of a bin header. */
  ghost predicate LinkSlot(bs: map<int, nat>, hdr: int, a: int) {
    || hdr <= a < hdr + BIN_HEADERS
    || a - 16 in bs
    || (a - 32 in bs && bs[a - 32] >= MIN_LARGE_SIZE)
    || (a - 48 in bs && bs[a - 48] >= MIN_LARGE_SIZE)
  }

  /** Only link paragraphs differ. */
  ghost predicate OnlySlots(m: Mem, m': Mem, bs: map<int, nat>, hdr: int) {
    forall a :: !LinkSlot(bs, hdr, a) ==> Lo(m, a) == Lo(m', a) && Hi(m, a) == Hi(m', a)
  }

  // ---- small updates -------------------------------------------------------------------------------------

  /** `at` holds headers and chunks of the table. */
  ghost predicate Known(at: set<int>, bs: map<int, nat>, hdr: int) {
    forall y :: y in at ==> y in bs || (hdr <= y < hdr + 512)
  }

  lemma ListsAreSlots(m: Mem, m': Mem, at: set<int>, bs: map<int, nat>, hdr: int)
    requires OnlyLists(m, m', at) && Known(at, bs, hdr)
    ensures OnlySlots(m, m', bs, hdr)
  {
    hide Lo, Hi;
  }

  /** A list update does not reach the links of a large chunk. */
  lemma ListsMissTree(m: Mem, m': Mem, at: set<int>, bs: map<int, nat>, hdr: int, z: int)
    requires OnlyLists(m, m', at) && Known(at, bs, hdr) && Spaced(bs, hdr)
    requires z in bs && bs[z] >= MIN_LARGE_SIZE && z !in at
    ensures SameLinks(m, m', z)
  {
    assert forall y :: y in at ==> y + 32 <= z || z + 64 <= y by {
      forall y | y in at ensures y + 32 <= z || z + 64 <= y {
        if y in bs { assert y < z || z < y; }
      }
    }
    assert z + 16 - 16 !in at && z + 32 - 16 !in at && z + 48 - 16 !in at;
  }

  lemma SlotsMissHead(m: Mem, m': Mem, bs: map<int, nat>, hdr: int, z: int)
    requires OnlySlots(m, m', bs, hdr) && Spaced(bs, hdr) && z in bs
    ensures Head(m', z) == Head(m, z) && Foot(m', z) == Foot(m, z)
  {
    assert !LinkSlot(bs, hdr, z);
  }

  lemma TreeBinFrame(
    m: Mem, m': Mem, map32: nat, map32': nat, root: int, slot: int, bs: map<int, nat>, bs': map<int, nat>, t: Trie,
    j: nat
  )
    requires TreeBin(m, map32, root, slot, bs, t, j) && Bit(map32', j) == Bit(map32, j)
    requires forall x :: In(t, x) ==> SameLinks(m, m', x)
    requires forall x :: In(t, x) && x in bs ==> x in bs' && bs'[x] == bs[x]
    ensures TreeBin(m', map32', root, slot, bs', t, j)
  {
    hide Bit, WF, In, SameLinks;
    RepFrame(m, m', t, root, slot, j);
    TypedMono(t, bs, bs');
  }

  lemma TreesKept(m: Mem, m': Mem, map32: nat, roots: seq<int>, tbin: int, bs: map<int, nat>, bs': map<int, nat>,
                  tries: seq<Trie>, hdr: int, at: set<int>)
    requires TreeBinsOk(m, map32, roots, tbin, bs, tries) && Spaced(bs', hdr)
    requires OnlyLists(m, m', at) && Known(at, bs', hdr)
    requires forall x :: x in bs && bs[x] >= MIN_LARGE_SIZE ==> x !in at && x in bs' && bs'[x] == bs[x]
    ensures TreeBinsOk(m', map32, roots, tbin, bs', tries)
  {
    hide Bit, WF, In, SameLinks, Rep, Spaced, OnlyLists, TreeIndex, Typed;
    forall i | 0 <= i < 32 ensures TreeBin(m', map32, roots[i], tbin + 8 * i, bs', tries[i], i) {
      forall x | In(tries[i], x) ensures SameLinks(m, m', x) {
        ListsMissTree(m, m', at, bs', hdr, x);
      }
      TreeBinFrame(m, m', map32, map32, roots[i], tbin + 8 * i, bs, bs', tries[i], i);
    }
  }

  ghost function WithSmall(g: Binned, x: int, i: nat): Binned
    requires i < |g.lists|
  {
    Binned(g.bs[x := 8 * i], g.lists[i := [x] + g.lists[i]], g.tries)
  }

  ghost function WithoutSmall(g: Binned, x: int, i: nat): Binned
    requires i < |g.lists|
  {
    Binned(g.bs - {x}, g.lists[i := Without(g.lists[i], x)], g.tries)
  }

  lemma InsertSmallLists(m: Mem, m': Mem, smallmap: nat, hdr: int, g: Binned, x: int, i: nat)
    requires 4 <= i < 32 && SmallBinsOk(m, smallmap, hdr, g.bs, g.lists)
    requires Spaced(g.bs, hdr) && x !in g.bs && Spaced(g.bs[x := 8 * i], hdr)
    requires var b := Header(hdr, i);
             m' == LinkAfter(m, b, if Bit(smallmap, i) then Fd(m, b) else b, x)
    ensures SmallBinsOk(m', Marking(smallmap, i), hdr, g.bs[x := 8 * i], WithSmall(g, x, i).lists)
    ensures var b := Header(hdr, i);
            var at := {b, if Bit(smallmap, i) then Fd(m, b) else b, x};
            OnlyLists(m, m', at) && Known(at, g.bs[x := 8 * i], hdr)
            && forall y :: y in at && y in g.bs ==> g.bs[y] < MIN_LARGE_SIZE
  {
    hide Bit, Mark, LinkAfter, Spaced, RingOk, Fd, OnlyLists;
    var b := Header(hdr, i);
    var f := if Bit(smallmap, i) then Fd(m, b) else b;
    var g' := WithSmall(g, x, i);
    MarkEffect(smallmap, i);
    FirstIsKnown(m, smallmap, hdr, g.bs, g.lists[i], i);
    HeaderNotBinned(hdr, i, g'.bs);
    LinkAfterEffect(m, b, f, x);
    InsertOne(m, m', smallmap, hdr, g.bs, g.lists[i], i, x);
    forall j | 0 <= j < 32 ensures SmallBin(m', Marking(smallmap, i), hdr, g'.bs, g'.lists[j], j) {
      if j != i {
        HeaderNotBinned(hdr, j, g'.bs);
        SmallBinFrame(m, m', smallmap, Marking(smallmap, i), hdr, g.bs, g'.bs, g.lists[j], j, {b, f, x});
      }
    }
  }

  lemma FirstIsKnown(m: Mem, smallmap: nat, hdr: int, bs: map<int, nat>, list: seq<int>, i: nat)
    requires SmallBin(m, smallmap, hdr, bs, list, i) && i < 32 && Spaced(bs, hdr)
    ensures Bit(smallmap, i) ==> list != [] && Fd(m, Header(hdr, i)) == list[0] && list[0] in bs && bs[list[0]] == 8 * i
  {
    if list != [] {
      HeadOf(m, [Header(hdr, i)] + list);
      assert list[0] in list;
    }
  }

  lemma HeaderNotBinned(hdr: int, i: nat, bs: map<int, nat>)
    requires i < 32 && Spaced(bs, hdr)
    ensures Header(hdr, i) !in bs
  {
  }

  lemma InsertSmallKeeps(m: Mem, m': Mem, smallmap: nat, treemap: nat, roots: seq<int>, hdr: int, tbin: int, g: Binned,
                         x: int, i: nat)
    requires 4 <= i < 32 && BinsOk(m, smallmap, treemap, roots, hdr, tbin, g)
    requires x !in g.bs && Spaced(g.bs[x := 8 * i], hdr) && SizeOf(Head(m, x)) == 8 * i
    requires var b := Header(hdr, i);
             m' == LinkAfter(m, b, if Bit(smallmap, i) then Fd(m, b) else b, x)
    ensures BinsOk(m', Marking(smallmap, i), treemap, roots, hdr, tbin, WithSmall(g, x, i))
    ensures OnlySlots(m, m', WithSmall(g, x, i).bs, hdr)
  {
    hide Bit, Mark, LinkAfter, Spaced, Fd, OnlyLists, OnlySlots, TreeBinsOk, SmallBinsOk, Head, Foot, SizeOf;
    var b := Header(hdr, i);
    var at := {b, if Bit(smallmap, i) then Fd(m, b) else b, x};
    BinCounts(m, smallmap, treemap, roots, hdr, tbin, g);
    var g' := WithSmall(g, x, i);
    InsertSmallLists(m, m', smallmap, hdr, g, x, i);
    TreesKept(m, m', treemap, roots, tbin, g.bs, g'.bs, g.tries, hdr, at);
    ListsAreSlots(m, m', at, g'.bs, hdr);
    forall z | z in g'.bs ensures SizeOf(Head(m', z)) == g'.bs[z] { SlotsMissHead(m, m', g'.bs, hdr, z); }
  }

  lemma BinCounts(m: Mem, smallmap: nat, treemap: nat, roots: seq<int>, hdr: int, tbin: int, g: Binned)
    requires SmallBinsOk(m, smallmap, hdr, g.bs, g.lists) && TreeBinsOk(m, treemap, roots, tbin, g.bs, g.tries)
    ensures |g.lists| == 32 && |g.tries| == 32 && |roots| == 32 && smallmap < W32 && treemap < W32
  {
  }

  lemma DeleteSmallLists(m: Mem, m': Mem, smallmap: nat, hdr: int, g: Binned, x: int, i: nat)
    requires i < 32 && SmallBinsOk(m, smallmap, hdr, g.bs, g.lists) && Spaced(g.bs, hdr) && x in g.lists[i]
    requires m' == if Fd(m, x) == Bk(m, x) then m else Bridge(m, Fd(m, x), Bk(m, x))
    ensures SmallBinsOk(m', if Fd(m, x) == Bk(m, x) then Unmark(smallmap, i) else smallmap, hdr, g.bs - {x},
                        WithoutSmall(g, x, i).lists)
    ensures var at := {Fd(m, x), Bk(m, x)};
            OnlyLists(m, m', at) && Known(at, g.bs, hdr)
            && (forall y :: y in at && y in g.bs ==> g.bs[y] < MIN_LARGE_SIZE)
            && Fd(m, x) != x && Bk(m, x) != x
  {
    hide Bit, Unmark, Bridge, Spaced, RingOk, Fd, Bk, OnlyLists;
    var f, b := Fd(m, x), Bk(m, x);
    var g' := WithoutSmall(g, x, i);
    var map' := if f == b then Unmark(smallmap, i) else smallmap;
    MarkEffect(smallmap, i);
    HeaderNotBinned(hdr, i, g.bs);
    Neighbours(m, smallmap, hdr, g.bs, g.lists[i], i, x);
    BridgeEffect(m, f, b);
    NothingChanged(m, {f, b});
    DeleteOne(m, m', smallmap, hdr, g.bs, g.lists[i], i, x);
    forall j | 0 <= j < 32 ensures SmallBin(m', map', hdr, g'.bs, g'.lists[j], j) {
      if j != i {
        HeaderNotBinned(hdr, j, g.bs);
        SmallBinFrame(m, m', smallmap, map', hdr, g.bs, g'.bs, g.lists[j], j, {f, b});
      }
    }
  }

  lemma NothingChanged(m: Mem, at: set<int>)
    ensures OnlyLists(m, m, at)
  {
  }

  lemma DeleteSmallKeeps(m: Mem, m': Mem, smallmap: nat, treemap: nat, roots: seq<int>, hdr: int, tbin: int, g: Binned,
                         x: int, i: nat)
    requires i < 32 && BinsOk(m, smallmap, treemap, roots, hdr, tbin, g) && x in g.lists[i]
    requires m' == if Fd(m, x) == Bk(m, x) then m else Bridge(m, Fd(m, x), Bk(m, x))
    ensures BinsOk(m', if Fd(m, x) == Bk(m, x) then Unmark(smallmap, i) else smallmap, treemap, roots, hdr, tbin,
                   WithoutSmall(g, x, i))
    ensures OnlySlots(m, m', g.bs, hdr)
  {
    hide Bit, Unmark, Bridge, Fd, Bk, OnlyLists, OnlySlots, TreeBinsOk, SmallBinsOk, Head, Foot, SizeOf;
    var at := {Fd(m, x), Bk(m, x)};
    BinCounts(m, smallmap, treemap, roots, hdr, tbin, g);
    var g' := WithoutSmall(g, x, i);
    ListMember(m, smallmap, hdr, g, x, i);
    assert Spaced(g'.bs, hdr);
    hide Spaced;
    DeleteSmallLists(m, m', smallmap, hdr, g, x, i);
    ListsAreSlots(m, m', at, g.bs, hdr);
    DeleteKnown(at, g.bs, hdr, x);
    TreesShrink(m, treemap, roots, tbin, g.bs, x, g.tries);
    TreesKept(m, m', treemap, roots, tbin, g'.bs, g'.bs, g.tries, hdr, at);
    forall z | z in g'.bs ensures SizeOf(Head(m', z)) == g'.bs[z] { SlotsMissHead(m, m', g.bs, hdr, z); }
    WithoutComplete(m, smallmap, hdr, g, x, i);
  }

  lemma ListMember(m: Mem, smallmap: nat, hdr: int, g: Binned, x: int, i: nat)
    requires i < 32 && SmallBinsOk(m, smallmap, hdr, g.bs, g.lists) && x in g.lists[i]
    ensures x in g.bs && g.bs[x] == 8 * i
  {
  }

  lemma DeleteKnown(at: set<int>, bs: map<int, nat>, hdr: int, x: int)
    requires Known(at, bs, hdr) && x !in at
    ensures Known(at, bs - {x}, hdr)
  {
  }

  /** Forgetting a small chunk does not matter to the tries. */
  lemma TreesShrink(m: Mem, map32: nat, roots: seq<int>, tbin: int, bs: map<int, nat>, x: int, tries: seq<Trie>)
    requires TreeBinsOk(m, map32, roots, tbin, bs, tries) && x in bs && bs[x] < MIN_LARGE_SIZE
    ensures TreeBinsOk(m, map32, roots, tbin, bs - {x}, tries)
  {
    hide Bit, WF, In, Rep, TreeIndex, Typed;
    forall i | 0 <= i < 32 ensures TreeBin(m, map32, roots[i], tbin + 8 * i, bs - {x}, tries[i], i) {
      TypedMono(tries[i], bs, bs - {x});
    }
  }

  lemma WithoutComplete(m: Mem, smallmap: nat, hdr: int, g: Binned, x: int, i: nat)
    requires i < 32 && SmallBinsOk(m, smallmap, hdr, g.bs, g.lists) && |g.tries| == 32
    requires Complete(g.bs, g.lists, g.tries) && x in g.lists[i]
    ensures Complete(WithoutSmall(g, x, i).bs, WithoutSmall(g, x, i).lists, g.tries)
  {
    hide Bit, RingOk, TreeIndex, In;
    WithoutIs(g.lists[i], x);
  }

  // ---- large updates -------------------------------------------------------------------------------------

  /** All chunks of `at` are large chunks of bin `i`. */
  ghost predicate InBin(at: set<int>, bs: map<int, nat>, i: nat) {
    forall y :: y in at ==> y in bs && bs[y] >= MIN_LARGE_SIZE && TreeIndex(bs[y]) == i
  }

  lemma TreeIsSlots(m: Mem, m': Mem, at: set<int>, bs: map<int, nat>, hdr: int, i: nat)
    requires Only(m, m', at) && InBin(at, bs, i)
    ensures OnlySlots(m, m', bs, hdr)
  {
    hide Lo, Hi;
    forall a | !LinkSlot(bs, hdr, a) ensures a - 16 !in at && a - 32 !in at && a - 48 !in at {}
  }

  /** A tree update does not reach the list links of a small chunk or a header. */
  lemma TreeMissesList(m: Mem, m': Mem, at: set<int>, bs: map<int, nat>, hdr: int, i: nat, z: int)
    requires Only(m, m', at) && InBin(at, bs, i) && Spaced(bs, hdr)
    requires (z in bs && bs[z] < MIN_LARGE_SIZE) || hdr <= z < hdr + 512
    ensures Fd(m', z) == Fd(m, z) && Bk(m', z) == Bk(m, z)
  {
    forall y | y in at ensures z + 32 <= y || y + 256 <= z {
      if z in bs { assert y < z || z < y; }
    }
    var a := z + 16;
    assert a - 16 !in at && a - 32 !in at && a - 48 !in at;
  }

  /** A tree update of bin `i` does not reach the links of a large chunk of another bin. */
  lemma TreeMissesTree(m: Mem, m': Mem, at: set<int>, bs: map<int, nat>, hdr: int, i: nat, z: int)
    requires Only(m, m', at) && InBin(at, bs, i) && Spaced(bs, hdr)
    requires z in bs && bs[z] >= MIN_LARGE_SIZE && z !in at
    ensures SameLinks(m, m', z)
  {
    hide TreeIndex, SameLinks;
    forall y | y in at ensures Apart(y, z) { assert y < z || z < y; }
    OnlySameLinks(m, m', at, z);
  }

  /** The small bins do not notice. */
  lemma ListsKept(m: Mem, m': Mem, smallmap: nat, hdr: int, bs: map<int, nat>, bs': map<int, nat>, all: map<int, nat>,
                  lists: seq<seq<int>>, at: set<int>, i: nat)
    requires SmallBinsOk(m, smallmap, hdr, bs, lists) && Spaced(all, hdr)
    requires Only(m, m', at) && InBin(at, all, i)
    requires forall x :: x in bs && bs[x] < MIN_LARGE_SIZE ==>
      x in all && all[x] == bs[x] && x in bs' && bs'[x] == bs[x]
    ensures SmallBinsOk(m', smallmap, hdr, bs', lists)
  {
    hide Bit, RingOk, Spaced, Only, InBin, Fd, Bk;
    forall j | 0 <= j < 32 ensures SmallBin(m', smallmap, hdr, bs', lists[j], j) {
      if lists[j] != [] {
        var ring := [Header(hdr, j)] + lists[j];
        forall z | z in ring ensures Fd(m, z) == Fd(m', z) && Bk(m, z) == Bk(m', z) {
          TreeMissesList(m, m', at, all, hdr, i, z);
        }
        RingFrame(m, m', ring);
      }
    }
  }

  /** The other tree bins do not notice. */
  lemma OtherTreesKept(m: Mem, m': Mem, map32: nat, map32': nat, roots: seq<int>, roots': seq<int>, tbin: int, hdr: int,
                       bs: map<int, nat>, bs': map<int, nat>, all: map<int, nat>, tries: seq<Trie>, t: Trie,
                       at: set<int>, i: nat)
    requires i < 32 && TreeBinsOk(m, map32, roots, tbin, bs, tries) && Spaced(all, hdr)
    requires Only(m, m', at) && InBin(at, all, i)
    requires map32' < W32 && (forall j :: 0 <= j < 32 && j != i ==> Bit(map32', j) == Bit(map32, j))
    requires |roots'| == 32 && (forall j :: 0 <= j < 32 && j != i ==> roots'[j] == roots[j])
    requires forall x :: x in bs && bs[x] >= MIN_LARGE_SIZE && TreeIndex(bs[x]) != i ==>
               x in all && all[x] == bs[x] && x in bs' && bs'[x] == bs[x]
    requires TreeBin(m', map32', roots'[i], tbin + 8 * i, bs', t, i)
    ensures TreeBinsOk(m', map32', roots', tbin, bs', tries[i := t])
  {
    hide Bit, WF, In, SameLinks, Rep, Spaced, Only, TreeIndex, Typed;
    forall j | 0 <= j < 32 ensures TreeBin(m', map32', roots'[j], tbin + 8 * j, bs', tries[i := t][j], j) {
      if j != i {
        forall x | In(tries[j], x) ensures SameLinks(m, m', x) {
          TreeMissesTree(m, m', at, all, hdr, i, x);
        }
        TreeBinFrame(m, m', map32, map32', roots[j], tbin + 8 * j, bs, bs', tries[j], j);
      }
    }
  }

  ghost function WithLarge(g: Binned, x: int, s: nat): Binned
    requires MIN_LARGE_SIZE <= s < W64 && |g.tries| == 32 && TreeIndex(s) < 32
    requires WF(g.tries[TreeIndex(s)], RangeBase(TreeIndex(s)), FreeBits(TreeIndex(s)))
  {
    var i := TreeIndex(s);
    BinRange(s);
    Binned(g.bs[x := s], g.lists, g.tries[i := Insert(g.tries[i], RangeBase(i), FreeBits(i), x, s)])
  }

  ghost function WithoutLarge(g: Binned, x: int, s: nat): Binned
    requires MIN_LARGE_SIZE <= s < W64 && |g.tries| == 32 && TreeIndex(s) < 32
    requires WF(g.tries[TreeIndex(s)], RangeBase(TreeIndex(s)), FreeBits(TreeIndex(s)))
    requires Has(g.tries[TreeIndex(s)], s)
  {
    var i := TreeIndex(s);
    BinRange(s);
    Binned(g.bs - {x}, g.lists, g.tries[i := Remove(g.tries[i], RangeBase(i), FreeBits(i), x, s)])
  }

  /** What the bins say about the tree bin of a large size. */
  lemma TreeBinOf(m: Mem, smallmap: nat, treemap: nat, roots: seq<int>, hdr: int, tbin: int, g: Binned, s: nat)
    requires BinsOk(m, smallmap, treemap, roots, hdr, tbin, g) && MIN_LARGE_SIZE <= s < W64
    ensures |g.lists| == 32 && |g.tries| == 32 && |roots| == 32 && smallmap < W32 && treemap < W32 && tbin > 0
    ensures var i := TreeIndex(s);
            && i < 32 && TreeBin(m, treemap, roots[i], tbin + 8 * i, g.bs, g.tries[i], i)
            && RangeBase(i) <= s < RangeBase(i) + Pow2(FreeBits(i))
            && AllApart(g.tries[i])
  {
    hide Bit, WF, Rep, Typed, TreeIndex, RangeBase, FreeBits, Pow2, In, Complete, HeadsOk, SmallBin;
    BinRange(s);
    var t := g.tries[TreeIndex(s)];
    forall x, y | In(t, x) && In(t, y) && x != y ensures Apart(x, y) {
      if x < y { assert x + g.bs[x] <= y; } else { assert y + g.bs[y] <= x; }
    }
  }

  lemma InsertLargeKeeps(m: Mem, m': Mem, smallmap: nat, treemap: nat, roots: seq<int>, hdr: int, tbin: int, g: Binned,
                         x: int, s: nat, root': int, at: set<int>)
    requires BinsOk(m, smallmap, treemap, roots, hdr, tbin, g) && MIN_LARGE_SIZE <= s < W64
    requires x !in g.bs && Spaced(g.bs[x := s], hdr) && SizeOf(Head(m, x)) == s
    requires |g.tries| == 32 && |roots| == 32 && TreeIndex(s) < 32
    requires WF(g.tries[TreeIndex(s)], RangeBase(TreeIndex(s)), FreeBits(TreeIndex(s)))
    requires var i := TreeIndex(s);
             && Rep(m', WithLarge(g, x, s).tries[i], root', tbin + 8 * i, i)
             && Only(m, m', at) && (forall z :: z in at ==> z == x || In(g.tries[i], z))
    ensures BinsOk(m', smallmap, Marking(treemap, TreeIndex(s)), roots[TreeIndex(s) := root'], hdr, tbin,
                   WithLarge(g, x, s))
    ensures OnlySlots(m, m', g.bs[x := s], hdr)
  {
    hide Bit, Mark, WF, Rep, Typed, TreeIndex, RangeBase, FreeBits, Pow2, In, Insert, Spaced, Only, OnlySlots,
         SmallBinsOk, TreeBinsOk, Head, SizeOf, Has;
    var i := TreeIndex(s);
    var bs' := g.bs[x := s];
    TreeBinOf(m, smallmap, treemap, roots, hdr, tbin, g, s);
    var t, t' := g.tries[i], WithLarge(g, x, s).tries[i];
    InsertAddsOne(t, RangeBase(i), FreeBits(i), x, s, g.bs);
    MarkEffect(treemap, i);
    assert InBin(at, bs', i);
    InsertIsNode(t, RangeBase(i), FreeBits(i), x, s);
    ListsKept(m, m', smallmap, hdr, g.bs, bs', bs', g.lists, at, i);
    OtherTreesKept(m, m', treemap, Marking(treemap, i), roots, roots[i := root'], tbin, hdr, g.bs, bs', bs', g.tries,
                   t', at, i);
    TreeIsSlots(m, m', at, bs', hdr, i);
    forall z | z in bs' ensures SizeOf(Head(m', z)) == bs'[z] { SlotsMissHead(m, m', bs', hdr, z); }
    InsertComplete(g, x, s, t');
  }

  lemma InsertIsNode(t: Trie, lo: nat, k: nat, x: int, s: nat)
    requires WF(t, lo, k) && lo <= s < lo + Pow2(k)
    ensures Insert(t, lo, k, x, s).Node?
  {
    SubAtIsPart(t, lo, k, s);
  }

  lemma InsertComplete(g: Binned, x: int, s: nat, t': Trie)
    requires |g.lists| == 32 && |g.tries| == 32 && Complete(g.bs, g.lists, g.tries)
    requires s >= MIN_LARGE_SIZE && TreeIndex(s) < 32
    requires forall y :: In(t', y) <==> In(g.tries[TreeIndex(s)], y) || y == x
    ensures Complete(g.bs[x := s], g.lists, g.tries[TreeIndex(s) := t'])
  {
    hide TreeIndex, In;
  }

  lemma RemoveLargeKeeps(m: Mem, m': Mem, smallmap: nat, treemap: nat, roots: seq<int>, hdr: int, tbin: int, g: Binned,
                         x: int, s: nat, root': int, at: set<int>)
    requires BinsOk(m, smallmap, treemap, roots, hdr, tbin, g) && MIN_LARGE_SIZE <= s < W64
    requires x in g.bs && g.bs[x] == s
    requires |g.tries| == 32 && |roots| == 32 && TreeIndex(s) < 32
    requires WF(g.tries[TreeIndex(s)], RangeBase(TreeIndex(s)), FreeBits(TreeIndex(s)))
    requires Has(g.tries[TreeIndex(s)], s)
    requires var i := TreeIndex(s);
             && Rep(m', WithoutLarge(g, x, s).tries[i], root', tbin + 8 * i, i)
             && Only(m, m', at) && (forall z :: z in at ==> In(g.tries[i], z))
    ensures var i := TreeIndex(s);
            BinsOk(m', smallmap, if root' != 0 then treemap else Unmark(treemap, i), roots[i := root'], hdr, tbin,
                   WithoutLarge(g, x, s))
    ensures OnlySlots(m, m', g.bs, hdr)
  {
    hide Bit, Unmark, WF, Rep, Typed, TreeIndex, RangeBase, FreeBits, Pow2, In, Remove, Only, OnlySlots,
         SmallBinsOk, TreeBinsOk, Head, SizeOf, Has;
    var i := TreeIndex(s);
    var bs' := g.bs - {x};
    TreeBinOf(m, smallmap, treemap, roots, hdr, tbin, g, s);
    var t, t' := g.tries[i], WithoutLarge(g, x, s).tries[i];
    assert Spaced(bs', hdr);
    hide Spaced;
    RemoveTakesOne(t, RangeBase(i), FreeBits(i), x, s, g.bs);
    TypedMono(t', g.bs, bs');
    MarkEffect(treemap, i);
    RootIn(m', t', root', tbin + 8 * i, i);
    assert InBin(at, g.bs, i);
    MarkedBin(m, smallmap, treemap, roots, hdr, tbin, g, x);
    ListsKept(m, m', smallmap, hdr, g.bs, bs', g.bs, g.lists, at, i);
    var map' := if root' != 0 then treemap else Unmark(treemap, i);
    OtherTreesKept(m, m', treemap, map', roots, roots[i := root'], tbin, hdr, g.bs, bs', g.bs, g.tries, t', at, i);
    TreeIsSlots(m, m', at, g.bs, hdr, i);
    forall z | z in bs' ensures SizeOf(Head(m', z)) == bs'[z] { SlotsMissHead(m, m', g.bs, hdr, z); }
    RemoveComplete(g, x, s, t');
  }

  lemma MarkedBin(m: Mem, smallmap: nat, treemap: nat, roots: seq<int>, hdr: int, tbin: int, g: Binned, x: int)
    requires BinsOk(m, smallmap, treemap, roots, hdr, tbin, g) && x in g.bs && g.bs[x] >= MIN_LARGE_SIZE
    ensures var i := TreeIndex(g.bs[x]); i < |g.tries| && In(g.tries[i], x) && g.tries[i].Node? && Bit(treemap, i)
  {
    hide Bit, WF, Rep, Typed, TreeIndex, SmallBin, Spaced, HeadsOk;
  }

  lemma RemoveComplete(g: Binned, x: int, s: nat, t': Trie)
    requires |g.lists| == 32 && |g.tries| == 32 && Complete(g.bs, g.lists, g.tries)
    requires s >= MIN_LARGE_SIZE && TreeIndex(s) < 32
    requires forall y :: In(t', y) <==> In(g.tries[TreeIndex(s)], y) && y != x
    ensures Complete(g.bs - {x}, g.lists, g.tries[TreeIndex(s) := t'])
  {
    hide TreeIndex, In;
  }
}
