/** The bookkeeping of internal_bulk_free: which chunks are gone after some entries of the array were handled. */
module BulkFacts {
  import opened Memory
  import opened Layout
  import opened HeapBase
  import opened HeapSteps
  import opened Mappings
  import opened Growth
  import opened Canonical

  /** Every entry is null or points to a live chunk. */
  ghost predicate AllPointers(a: seq<int>, live: map<int, int>) {
    forall k {:trigger a[k]} :: 0 <= k < |a| ==> a[k] == 0 || a[k] - 16 in live
  }

  ghost predicate NoTwice(a: seq<int>) {
    forall j, k {:trigger a[j], a[k]} :: 0 <= j < k < |a| && a[j] != 0 ==> a[j] != a[k]
  }

  /**
   * The state when entry `i` is next; chunk `c`, if not 0, stands for a joined run of chunks and is stored in entry
   * `i`.
   */
  ghost predicate BulkInv(
    cs0: Chunks, maps0: map<int, Mapping>, a0: seq<int>, cs: Chunks, maps: map<int, Mapping>, a: seq<int>, i: nat,
    c: int
  ) {
    && |a| == |a0| && i <= |a| && (c != 0 ==> i < |a|)
    && (forall j {:trigger a[j]} :: 0 <= j < i ==> a[j] == 0)
    && (forall j {:trigger a[j]} :: i < j < |a| ==> a[j] == a0[j])
    && (i < |a| ==>
          if c == 0 then a[i] == a0[i]
          else a[i] == c + 16 && a0[i] != 0 && a0[i] - 16 in cs0 && c in PtrSet(a0, i) && UsedAt(cs, c) &&
               cs[c].kind.Live?)
    && UseBut(cs0, cs, Gone(cs0, a0, i, c), c)
    && maps == maps0 - PtrSet(a0, i)
  }

  lemma BulkStart(cs0: Chunks, maps0: map<int, Mapping>, a0: seq<int>)
    ensures BulkInv(cs0, maps0, a0, cs0, maps0, a0, 0, 0)
  {
    assert maps0 - PtrSet(a0, 0) == maps0;
  }

  lemma NotBefore(a: seq<int>, i: nat)
    requires NoTwice(a) && i < |a| && a[i] != 0
    ensures a[i] - 16 !in PtrSet(a, i)
  {
    if a[i] - 16 in PtrSet(a, i) { var j := PtrFrom(a, i, a[i] - 16); }
  }

  /** The next entry points to a live chunk. */
  lemma NextPending(
    cs0: Chunks, maps0: map<int, Mapping>, a0: seq<int>, cs: Chunks, maps: map<int, Mapping>, a: seq<int>, i: nat,
    c: int
  )
    requires BulkInv(cs0, maps0, a0, cs, maps, a, i, c) && AllPointers(a0, Lives(cs0) + MappedLives(maps0))
    requires NoTwice(a0) && i < |a| && a[i] != 0
    ensures var p := a[i] - 16; (p in Lives(cs) || p in maps) && (p in maps ==> p in maps0)
    ensures c == 0 ==> a[i] - 16 !in PtrSet(a0, i) && (a[i] - 16 in Lives(cs) ==> a[i] - 16 in cs0)
    ensures c != 0 ==> a[i] - 16 == c && c in Lives(cs) && c in cs0
  {
    var p := a[i] - 16;
    if c == 0 {
      NotBefore(a0, i);
      if p in Lives(cs0) { assert UsedAt(cs0, p); assert UsedAt(cs, p); }
      if p in Lives(cs) { assert UsedAt(cs, p); }
    } else {
      assert UsedAt(cs, c);
    }
  }

  /** The entry after the next one, if it points to a chunk of a segment. */
  lemma AfterPending(
    cs0: Chunks, maps0: map<int, Mapping>, a0: seq<int>, cs: Chunks, maps: map<int, Mapping>, a: seq<int>, i: nat,
    c: int
  )
    requires BulkInv(cs0, maps0, a0, cs, maps, a, i, c) && AllPointers(a0, Lives(cs0) + MappedLives(maps0))
    requires NoTwice(a0) && i + 1 < |a| && a[i + 1] != 0
    ensures var n := a[i + 1] - 16; (n in Lives(cs) || n in maps) && (n in Lives(cs) ==> n in cs0)
    ensures a[i + 1] == a0[i + 1]
  {
    var n := a[i + 1] - 16;
    NotBefore(a0, i + 1);
    assert n !in PtrSet(a0, i);
    if n in Lives(cs0) {
      assert UsedAt(cs0, n);
      assert n !in Gone(cs0, a0, i, c) by { GoneBefore(cs0, a0, i, c, n); }
      assert UsedAt(cs, n);
    }
    if n in Lives(cs) { assert UsedAt(cs, n); }
  }

  lemma GoneBefore(cs: Chunks, a: seq<int>, i: nat, c: int, x: int)
    requires i + 1 <= |a| && x !in PtrSet(a, i + 1)
    ensures x !in Gone(cs, a, i, c)
  {
  }

  lemma Skipped(
    cs0: Chunks, maps0: map<int, Mapping>, a0: seq<int>, cs: Chunks, maps: map<int, Mapping>, a: seq<int>, i: nat
  )
    requires BulkInv(cs0, maps0, a0, cs, maps, a, i, 0) && i < |a| && a[i] == 0
    ensures BulkInv(cs0, maps0, a0, cs, maps, a, i + 1, 0)
  {
    GoneSkipped(cs0, a0, i);
  }

  lemma Unmapped(
    cs0: Chunks, maps0: map<int, Mapping>, a0: seq<int>, cs: Chunks, maps: map<int, Mapping>, a: seq<int>, i: nat,
    c: int
  )
    requires BulkInv(cs0, maps0, a0, cs, maps, a, i, c) && i < |a| && a[i] != 0 && c == 0 && a[i] - 16 !in cs0
    ensures BulkInv(cs0, maps0, a0, cs, maps - {a[i] - 16}, a[i := 0], i + 1, 0)
  {
    GoneSkipped(cs0, a0, i);
    PtrStep(a0, i);
    assert maps - {a[i] - 16} == maps0 - PtrSet(a0, i + 1);
  }

  lemma FreedEntry(
    cs0: Chunks, maps0: map<int, Mapping>, a0: seq<int>, cs: Chunks, maps: map<int, Mapping>, a: seq<int>, i: nat,
    c: int, segs: seq<Segment>, hdr: int
  )
    requires BulkInv(cs0, maps0, a0, cs, maps, a, i, c) && i < |a| && a[i] != 0 && LayoutOk(cs, segs, hdr) && 0 !in cs0
    requires var p := a[i] - 16;
      p in cs && cs[p].kind.Live? && p in cs0 && (c == 0 || c == p) && (forall x :: x in cs0 ==> x !in maps0)
    ensures BulkInv(cs0, maps0, a0, Freed(cs, a[i] - 16), maps, a[i := 0], i + 1, 0)
  {
    var p := a[i] - 16;
    FreedUseBut(cs0, cs, segs, hdr, Gone(cs0, a0, i, c), c, p);
    GoneFreed(cs0, a0, i, c, p);
    PtrStep(a0, i);
    hide LayoutOk, Freed;
    assert maps == maps0 - PtrSet(a0, i + 1);
  }

  lemma JoinedEntry(
    cs0: Chunks, maps0: map<int, Mapping>, a0: seq<int>, v: View, v': View, maps: map<int, Mapping>, a: seq<int>,
    i: nat, c: int, segs: seq<Segment>, hdr: int, s: int
  )
    requires BulkInv(cs0, maps0, a0, v.cs, maps, a, i, c) && i + 1 < |a| && a[i] != 0 && Tile(v.cs, segs, hdr)
    requires Shape(v.cs, segs) && 0 !in cs0 && NoTwice(a0)
    requires var p := a[i] - 16;
      p in cs0 && (c == 0 || c == p) && Grows(v, v', p, s, Live) && (forall x :: x in cs0 ==> x !in maps0)
    requires var p := a[i] - 16;
      var n := NextOf(v.cs, p);
      s == v.cs[p].size + v.cs[n].size && v.cs[n].kind.Live? && a[i + 1] == n + 16 && n in cs0 && n != p && n != -16
    ensures BulkInv(cs0, maps0, a0, v'.cs, maps, a[i := 0][i + 1 := a[i]], i + 1, a[i] - 16)
  {
    var p := a[i] - 16;
    var n := NextOf(v.cs, p);
    JoinUseBut(cs0, v, v', segs, hdr, Gone(cs0, a0, i, c), c, p, s);
    GrowGrewTo(v, v', segs, hdr, p, s, Live);
    if c == 0 { NotBefore(a0, i); }
    GoneJoined(cs0, a0, i, c, p);
    PtrStep(a0, i);
    hide Tile, Shape, Grow, Grows;
    assert maps == maps0 - PtrSet(a0, i + 1);
  }

  /** The chunks of segments that the array points to, in order. */
  ghost function SegPtrs(a: seq<int>, cs: Chunks, k: nat): seq<int>
    requires k <= |a|
  {
    if k == 0 then [] else SegPtrs(a, cs,
                                   k - 1) + (if a[k - 1] != 0 && a[k - 1] - 16 in cs then [a[k - 1] - 16] else [])
  }

  lemma {:induction false} SegPtrsAre(a: seq<int>, cs: Chunks, maps: map<int, Mapping>, k: nat)
    requires k <= |a| && NoTwice(a) && AllPointers(a, Lives(cs) + MappedLives(maps)) && 0 !in cs
    requires forall x :: x in cs ==> x !in maps
    ensures Elems(SegPtrs(a, cs, k)) == Gone(cs, a, k, 0) && Distinct(SegPtrs(a, cs, k))
    ensures AllLive(cs, SegPtrs(a, cs, k))
  {
    hide Elems, PtrSet, Gone;
    if k == 0 {
      NoPtrs(a, cs);
    } else {
      SegPtrsAre(a, cs, maps, k - 1);
      var ps, p := SegPtrs(a, cs, k - 1), a[k - 1] - 16;
      if a[k - 1] != 0 && p in cs {
        assert p !in Gone(cs, a, k - 1, 0) by { NotBefore(a, k - 1); NotGone(cs, a, k - 1, p); }
        GoneFreed(cs, a, k - 1, 0, p);
        AppendOne(cs, ps, p) by { PointsToLive(a, cs, maps, k - 1); }
      } else {
        GoneSkipped(cs, a, k - 1);
        assert SegPtrs(a, cs, k) == ps;
      }
    }
  }

  lemma NoPtrs(a: seq<int>, cs: Chunks)
    ensures Elems(SegPtrs(a, cs, 0)) == Gone(cs, a, 0, 0) && Distinct(SegPtrs(a, cs, 0))
    ensures AllLive(cs, SegPtrs(a, cs, 0))
  {
  }

  lemma NotGone(cs: Chunks, a: seq<int>, i: nat, p: int)
    requires i <= |a| && p !in PtrSet(a, i)
    ensures p !in Gone(cs, a, i, 0)
  {
  }

  lemma PointsToLive(a: seq<int>, cs: Chunks, maps: map<int, Mapping>, k: nat)
    requires k < |a| && AllPointers(a, Lives(cs) + MappedLives(maps)) && a[k] != 0 && a[k] - 16 in cs
    requires a[k] - 16 !in maps
    ensures cs[a[k] - 16].kind.Live?
  {
    assert a[k] - 16 in Lives(cs) + MappedLives(maps);
  }

  lemma AppendOne(cs: Chunks, ps: seq<int>, p: int)
    requires Distinct(ps) && AllLive(cs, ps) && p !in Elems(ps) && p in cs && cs[p].kind.Live?
    ensures Distinct(ps + [p]) && AllLive(cs, ps + [p]) && Elems(ps + [p]) == Elems(ps) + {p}
  {
    var ps' := ps + [p];
    hide Elems;
    forall x ensures x in Elems(ps') <==> x in Elems(ps) || x == p { }
    forall i | 0 <= i < |ps'| ensures ps'[i] in cs && cs[ps'[i]].kind.Live? { if i < |ps| { assert ps'[i] == ps[i]; } }
    forall i, j | 0 <= i < j < |ps'| ensures ps'[i] != ps'[j] {
      assert ps'[i] == ps[i] && ps[i] in ps;
    }
  }

  /** After the last entry: the live chunks are those not in the array, and the layout is that of freeing one by one. */
  lemma BulkEnd(
    cs0: Chunks, maps0: map<int, Mapping>, a0: seq<int>, cs: Chunks, maps: map<int, Mapping>, a: seq<int>,
    segs: seq<Segment>, hdr: int
  )
    requires BulkInv(cs0, maps0, a0, cs, maps, a, |a0|, 0) && NoTwice(a0)
    requires AllPointers(a0, Lives(cs0) + MappedLives(maps0)) && 0 !in cs0
    requires LayoutOk(cs0, segs, hdr) && LayoutOk(cs, segs, hdr) && forall x :: x in cs0 ==> x !in maps0
    ensures SameChunks(cs, FreeAll(cs0, SegPtrs(a0, cs0, |a0|)))
    ensures Lives(cs) + MappedLives(maps) == (Lives(cs0) + MappedLives(maps0)) - PtrSet(a0, |a0|)
  {
    hide LayoutOk, PtrSet, Elems, BulkInv, SegPtrs, FreeAll;
    var ps, n := SegPtrs(a0, cs0, |a0|), |a0|;
    SegPtrsAre(a0, cs0, maps0, n);
    BulkUse(cs0, maps0, a0, cs, maps, a);
    SameAsOneByOne(cs0, cs, segs, hdr, ps);
    BulkLives(cs0, maps0, cs, maps, PtrSet(a0, n), Gone(cs0, a0, n, 0));
  }

  lemma BulkUse(cs0: Chunks, maps0: map<int, Mapping>, a0: seq<int>, cs: Chunks, maps: map<int, Mapping>, a: seq<int>)
    requires BulkInv(cs0, maps0, a0, cs, maps, a, |a0|, 0) && 0 !in cs0
    ensures UseWithout(cs0, cs, Gone(cs0, a0, |a0|, 0)) && UseBut(cs0, cs, Gone(cs0, a0, |a0|, 0), 0)
    ensures maps == maps0 - PtrSet(a0, |a0|)
  {
    hide PtrSet, Gone;
  }

  lemma BulkLives(
    cs0: Chunks, maps0: map<int, Mapping>, cs: Chunks, maps: map<int, Mapping>, ps: set<int>, gone: set<int>
  )
    requires UseBut(cs0, cs, gone, 0) && gone == (set x | x in ps && x in cs0 && x != 0) && maps == maps0 - ps
    requires 0 !in cs0
    ensures Lives(cs) + MappedLives(maps) == (Lives(cs0) + MappedLives(maps0)) - ps
  {
    var l, l' := (Lives(cs0) + MappedLives(maps0)) - ps, Lives(cs) + MappedLives(maps);
    forall x ensures x in Lives(cs) <==> x in Lives(cs0) && x !in ps {
      assert UsedAt(cs, x) <==> UsedAt(cs0, x) && x !in gone;
    }
    forall x | x in Lives(cs) ensures Lives(cs)[x] == Lives(cs0)[x] { assert UsedAt(cs, x); }
    assert forall x :: x in l' <==> x in l;
    assert forall x :: x in l ==> l[x] == l'[x];
  }

  lemma BulkShape(
    cs0: Chunks, maps0: map<int, Mapping>, a0: seq<int>, cs: Chunks, maps: map<int, Mapping>, a: seq<int>, i: nat,
    c: int
  )
    requires BulkInv(cs0, maps0, a0, cs, maps, a, i, c) && i < |a|
    ensures |a| == |a0| && (a[i] == 0 ==> c == 0)
  {
    if c != 0 { var j := PtrFrom(a0, i, c); }
  }

  /** The chunks that are not in the array are untouched so far. */
  lemma OthersLive(
    cs0: Chunks, maps0: map<int, Mapping>, a0: seq<int>, cs: Chunks, maps: map<int, Mapping>, a: seq<int>, i: nat,
    c: int, others: map<int, int>
  )
    requires BulkInv(cs0, maps0, a0, cs, maps, a, i, c) && i < |a| && 0 !in cs0
    requires (forall x :: x in cs0 ==> x !in maps0)
    requires others == (Lives(cs0) + MappedLives(maps0)) - PtrSet(a0, |a0|)
    ensures forall x {:trigger x in others} :: x in others ==>
      ((x in Lives(cs) && Lives(cs)[x] == others[x]) ||
       (x in MappedLives(maps) && MappedLives(maps)[x] == others[x]))
    ensures a[i] != 0 ==> a[i] - 16 !in others
    ensures i + 1 < |a| && a[i + 1] != 0 ==> a[i + 1] - 16 !in others
  {
    forall x | x in others
      ensures ((x in Lives(cs) && Lives(cs)[x] == others[x]) ||
               (x in MappedLives(maps) && MappedLives(maps)[x] == others[x]))
    {
      OtherLive(cs0, maps0, a0, cs, maps, a, i, c, x);
    }
    if a[i] != 0 {
      if c == 0 { PtrIn(a0, |a0|, i); } else { PtrMore(a0, i, |a0|, c); }
    }
    if i + 1 < |a| && a[i + 1] != 0 { PtrIn(a0, |a0|, i + 1); }
  }

  lemma {:induction false} PtrMore(a: seq<int>, i: nat, k: nat, x: int)
    requires i <= k <= |a| && x in PtrSet(a, i)
    ensures x in PtrSet(a, k)
  {
    if i < k { PtrMore(a, i, k - 1, x); }
  }

  lemma OtherLive(
    cs0: Chunks, maps0: map<int, Mapping>, a0: seq<int>, cs: Chunks, maps: map<int, Mapping>, a: seq<int>, i: nat,
    c: int, x: int
  )
    requires BulkInv(cs0, maps0, a0, cs, maps, a, i, c) && i < |a| && 0 !in cs0
    requires (forall y :: y in cs0 ==> y !in maps0)
    requires x in Lives(cs0) + MappedLives(maps0) && x !in PtrSet(a0, |a0|)
    ensures x in Lives(cs0) ==> x in Lives(cs) && x !in maps && Lives(cs)[x] == Lives(cs0)[x]
    ensures x !in Lives(cs0) ==> x in maps && x !in Lives(cs) && MappedLives(maps)[x] == MappedLives(maps0)[x]
  {
    assert x !in PtrSet(a0, i) && x !in PtrSet(a0, i + 1) by {
      if x in PtrSet(a0, i) { PtrMore(a0, i, |a0|, x); }
      if x in PtrSet(a0, i + 1) { PtrMore(a0, i + 1, |a0|, x); }
    }
    assert UsedAt(cs, x) <==> UsedAt(cs0, x) && x !in Gone(cs0, a0, i, c);
  }

  lemma KeptOthers(m0: Mem, m1: Mem, m2: Mem, others: map<int, int>, a: map<int, int>, b: map<int, int>)
    requires Kept(m0, m1, others) && Kept(m1, m2, a) && Kept(m1, m2, b)
    requires forall x {:trigger x in others} :: x in others ==>
      (x in a && a[x] == others[x]) || (x in b && b[x] == others[x])
    ensures Kept(m0, m2, others)
  {
    forall x | x in others ensures SameWords(m1, m2, x + 16, x + others[x]) {
      if x in a && a[x] == others[x] {
        assert SameWords(m1, m2, x + 16, x + a[x]);
      } else {
        assert SameWords(m1, m2, x + 16, x + b[x]);
      }
    }
    KeptTrans(m0, m1, m2, others);
  }
}
