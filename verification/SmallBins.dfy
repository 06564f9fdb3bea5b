/** The small bins: one circular list per size, threaded through a header that lives in the allocator state. */
module SmallBins {
  import opened Words
  import opened BitMaps
  import opened Memory
  import opened Tries
  import opened Rings

  /** The header of bin `i`, addressed so that its fd and bk fields overlay the array of bin pointers. */
  function Header(hdr: int, i: nat): int { hdr + 16 * i }

  /** Free chunks keep clear of each other and of the bin headers. */
  ghost predicate Spaced(bs: map<int, nat>, hdr: int) {
    && hdr > 0
    && (forall x :: x in bs ==>
          0 < x && 32 <= bs[x] < W64 && bs[x] % 16 == 0 && (x + bs[x] <= hdr || hdr + BIN_HEADERS <= x))
    && (forall x, y :: x in bs && y in bs && x < y ==> x + bs[x] <= y)
  }

  /** Bin `i`: marked exactly when it has chunks, all of its size, in a circular list through the header. */
  ghost predicate SmallBin(m: Mem, map32: nat, hdr: int, bs: map<int, nat>, list: seq<int>, i: nat) {
    && Bit(map32, i) == (list != [])
    && NoDup(list)
    && (forall x :: x in list ==> x in bs && bs[x] == 8 * i)
    && (list != [] ==> RingOk(m, [Header(hdr, i)] + list))
  }

  ghost predicate SmallBinsOk(m: Mem, map32: nat, hdr: int, bs: map<int, nat>, lists: seq<seq<int>>) {
    && map32 < W32 && |lists| == 32
    && (forall i :: 0 <= i < 32 ==> SmallBin(m, map32, hdr, bs, lists[i], i))
  }

  /** Only list paragraphs of the chunks in `at` differ. */
  ghost predicate OnlyLists(m: Mem, m': Mem, at: set<int>) {
    forall a :: a - 16 !in at ==> Lo(m, a) == Lo(m', a) && Hi(m, a) == Hi(m', a)
  }

  // ---- memory updates ------------------------------------------------------------------------------------

  function LinkAfter(m: Mem, b: int, f: int, x: int): Mem {
    SetBk(SetFd(SetBk(SetFd(m, b, x), f, x), x, f), x, b)
  }

  function Bridge(m: Mem, f: int, b: int): Mem {
    SetFd(SetBk(m, f, b), b, f)
  }

  lemma LinkAfterEffect(m: Mem, b: int, f: int, x: int)
    requires x != b && x != f
    ensures var m' := LinkAfter(m, b, f, x);
            && Fd(m', b) == x && Bk(m', f) == x && Fd(m', x) == f && Bk(m', x) == b
            && (forall y :: y != b && y != x ==> Fd(m', y) == Fd(m, y))
            && (forall y :: y != f && y != x ==> Bk(m', y) == Bk(m, y))
            && OnlyLists(m, m', {b, f, x})
  {
  }

  lemma BridgeEffect(m: Mem, f: int, b: int)
    ensures var m' := Bridge(m, f, b);
            && Bk(m', f) == b && Fd(m', b) == f
            && (forall y :: y != b ==> Fd(m', y) == Fd(m, y))
            && (forall y :: y != f ==> Bk(m', y) == Bk(m, y))
            && OnlyLists(m, m', {f, b})
  {
  }

  lemma HeaderRing(hdr: int, i: nat, bs: map<int, nat>, list: seq<int>)
    requires Spaced(bs, hdr) && i < 32 && NoDup(list) && forall x :: x in list ==> x in bs
    ensures NoDup([Header(hdr, i)] + list) && Header(hdr, i) !in list && Header(hdr, i) > 0
  {
    if Header(hdr, i) in list { assert false; }
  }

  /** The map after an insertion into bin `i`: the bit is set when it was clear. */
  function Marking(map32: nat, i: nat): nat {
    if Bit(map32, i) then map32 else Mark(map32, i)
  }

  /** A chunk enters at the front of its bin; a stale header of an empty bin is overwritten. */
  lemma InsertOne(m: Mem, m': Mem, map32: nat, hdr: int, bs: map<int, nat>, list: seq<int>, i: nat, x: int)
    requires i < 32 && map32 < W32 && Spaced(bs[x := 8 * i], hdr) && Spaced(bs, hdr) && x !in bs
    requires SmallBin(m, map32, hdr, bs, list, i)
    requires var b := Header(hdr, i);
             m' == LinkAfter(m, b, if Bit(map32, i) then Fd(m, b) else b, x)
    ensures SmallBin(m', Marking(map32, i), hdr, bs[x := 8 * i], [x] + list, i)
  {
    hide Bit, Mark, Fd, Bk, LinkAfter, Spaced;
    var b := Header(hdr, i);
    var f := if Bit(map32, i) then Fd(m, b) else b;
    MarkEffect(map32, i);
    HeaderRing(hdr, i, bs, list);
    HeaderRing(hdr, i, bs[x := 8 * i], [x]);
    if list == [] {
      LinkAfterEffect(m, b, b, x);
      assert [b] + ([x] + list) == [b, x];
    } else {
      var ring := [b] + list;
      HeadOf(m, ring);
      assert f in ring;
      LinkAfterEffect(m, b, f, x);
      RingInsert(m, m', ring, x);
      assert [ring[0], x] + ring[1..] == [b] + ([x] + list);
    }
  }

  lemma HeadOf(m: Mem, ring: seq<int>)
    requires ring != [] && RingOk(m, ring)
    ensures Fd(m, ring[0]) == ring[Next(0, |ring|)] && Bk(m, ring[0]) == ring[|ring| - 1]
  {
  }

  /** The neighbours of a binned chunk: equal exactly when it is the only one. */
  lemma Neighbours(m: Mem, map32: nat, hdr: int, bs: map<int, nat>, list: seq<int>, i: nat, x: int)
    requires i < 32 && Spaced(bs, hdr) && SmallBin(m, map32, hdr, bs, list, i) && x in list
    ensures var f, b := Fd(m, x), Bk(m, x);
            && f in [Header(hdr, i)] + list && b in [Header(hdr, i)] + list && f != x && b != x
            && Bk(m, f) == x && Fd(m, b) == x
            && (f == b <==> |list| == 1)
            && (list[0] == x <==> b == Header(hdr, i))
  {
    hide Bit, Fd, Bk, RingOk, Spaced;
    var ring := [Header(hdr, i)] + list;
    HeaderRing(hdr, i, bs, list);
    var q :| 0 <= q < |list| && list[q] == x;
    NeighboursAt(m, ring, q + 1);
    assert ring[q + 1] == x;
    assert ring[q] == Header(hdr, i) <==> q == 0;
  }

  lemma NeighboursAt(m: Mem, ring: seq<int>, p: nat)
    requires RingOk(m, ring) && NoDup(ring) && 0 < p < |ring|
    ensures var f, b := Fd(m, ring[p]), Bk(m, ring[p]);
            && f in ring && b == ring[p - 1] && f != ring[p] && b != ring[p]
            && Bk(m, f) == ring[p] && Fd(m, b) == ring[p]
            && (f == b <==> |ring| == 2)
  {
    hide Fd, Bk;
    var n := |ring|;
    assert Fd(m, ring[p]) == ring[Next(p, n)] && Bk(m, ring[p]) == ring[p - 1];
    assert Bk(m, ring[Next(p, n)]) == ring[Prev(Next(p, n), n)];
    assert Fd(m, ring[p - 1]) == ring[Next(p - 1, n)];
  }

  /** A chunk leaves its bin. When it was the last one the list is not touched at all: only the mark is cleared. */
  lemma DeleteOne(m: Mem, m': Mem, map32: nat, hdr: int, bs: map<int, nat>, list: seq<int>, i: nat, x: int)
    requires i < 32 && map32 < W32 && Spaced(bs, hdr) && SmallBin(m, map32, hdr, bs, list, i) && x in list
    requires m' == if Fd(m, x) == Bk(m, x) then m else Bridge(m, Fd(m, x), Bk(m, x))
    ensures SmallBin(m', if Fd(m, x) == Bk(m, x) then Unmark(map32, i) else map32, hdr, bs - {x}, Without(list, x), i)
    ensures forall y :: y in Without(list, x) <==> y in list && y != x
  {
    hide Bit, Unmark, Fd, Bk, Bridge, Without, RingOk, Spaced, NoDup;
    MarkEffect(map32, i);
    HeaderRing(hdr, i, bs, list);
    Neighbours(m, map32, hdr, bs, list, i, x);
    WithoutIs(list, x);
    var q :| 0 <= q < |list| && list[q] == x;
    if |list| > 1 {
      var ring := [Header(hdr, i)] + list;
      assert ring[q + 1] == x;
      BridgeEffect(m, Fd(m, x), Bk(m, x));
      RingDelete(m, m', ring, q + 1);
      DeleteInList(Header(hdr, i), list, q);
    }
  }

  lemma DeleteInList(b: int, list: seq<int>, q: nat)
    requires q < |list| && NoDup(list)
    ensures var ring := [b] + list;
            ring[..q + 1] + ring[q + 2..] == [b] + Without(list, list[q])
  {
    WithoutIsSlice(list, q);
  }

  // ---- the other bins --------------------------------------------------------------------------------------

  /** Bin `j` is unaffected by an update that stays away from its chunks and its header. */
  lemma SmallBinFrame(m: Mem, m': Mem, map32: nat, map32': nat, hdr: int, bs: map<int, nat>, bs': map<int, nat>,
                      list: seq<int>, j: nat, at: set<int>)
    requires SmallBin(m, map32, hdr, bs, list, j) && Bit(map32', j) == Bit(map32, j)
    requires OnlyLists(m, m', at) && Header(hdr, j) !in at && forall x :: x in list ==> x !in at
    requires forall x :: x in list && x in bs ==> x in bs' && bs'[x] == bs[x]
    ensures SmallBin(m', map32', hdr, bs', list, j)
  {
    hide Bit;
    if list != [] {
      RingFrame(m, m', [Header(hdr, j)] + list);
    }
  }
}
