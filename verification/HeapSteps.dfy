/** What each step of the allocator does to the layout, the tags, the bins and the payloads together. */
module HeapSteps {
  import opened Words
  import opened Memory
  import opened SmallBins
  import opened BinStore
  import opened Layout
  import opened Tags
  import opened HeapBase

  /** Every free chunk is the designated victim or in a bin, not both. */
  ghost predicate FreesBinned(cs: Chunks, bs: map<int, nat>, dv: int) {
    forall x {:trigger x in bs} {:trigger cs[x]} :: x in cs && cs[x].kind.Free? ==> (x in bs <==> x != dv)
  }

  ghost predicate VictimOk(cs: Chunks, dv: int, dvsize: int) {
    if dv == 0 then dvsize == 0 else dv in cs && cs[dv].kind.Free? && cs[dv].size == dvsize
  }

  ghost predicate TopOk(cs: Chunks, segs: seq<Segment>, top: int, topsize: int) {
    && (if segs == [] then top == 0 && topsize == 0 && cs == map[]
        else top in cs && cs[top].kind.Top? && cs[top].size == topsize)
    && (forall x {:trigger cs[x]} :: x in cs && cs[x].kind.Top? ==> x == top)
  }

  ghost predicate Above(cs: Chunks, least: int) {
    forall x {:trigger x in cs} :: x in cs ==> least <= x
  }

  datatype View = View(cs: Chunks, bs: map<int, nat>, dv: int, dvsize: int, top: int, topsize: int)

  /** The heap invariant: layout, tags, and the place of every free chunk. */
  ghost predicate HeapOk(m: Mem, v: View, segs: seq<Segment>, hdr: int, least: int) {
    && hdr > 0 && LayoutOk(v.cs, segs, hdr) && Tagged(m, v.cs)
    && Binnable(v.cs, v.bs) && FreesBinned(v.cs, v.bs, v.dv)
    && VictimOk(v.cs, v.dv, v.dvsize) && TopOk(v.cs, segs, v.top, v.topsize) && Above(v.cs, least)
  }

  // ---- releasing a chunk -----------------------------------------------------------------------------------

  /** What the tags of a live chunk say about its neighbours. */
  lemma NeighbourTags(m: Mem, cs: Chunks, segs: seq<Segment>, hdr: int, p: int)
    requires LayoutOk(cs, segs, hdr) && Tagged(m, cs) && p in cs && cs[p].kind.Live?
    ensures ChunkSize(m, p) == cs[p].size && Cinuse(m, p)
    ensures var q := MergeStart(cs, p);
            if Pinuse(m, p) then q == p
            else q in cs && q != p && cs[q].kind.Free? && Foot(m, p) == cs[q].size && q == p - cs[q].size
    ensures var n := NextOf(cs, p);
            && n in cs && Pinuse(m, n) && (Cinuse(m, n) <==> InUse(cs[n].kind))
            && (!InUse(cs[n].kind) ==>
                  (cs[n].kind.Free? || cs[n].kind.Top?) && ChunkSize(m, n) == cs[n].size && NextOf(cs, n) in cs)
  {
    NextTag(cs, segs, hdr, p);
    var n, b := NextOf(cs, p), cs[p].prev;
    assert TagOk(m, cs, p) && TagOk(m, cs, n);
    At(cs, segs, hdr, p);
    At(cs, segs, hdr, n);
    TagParts(m, cs, p);
    TagParts(m, cs, n);
    NoZero(cs, segs, hdr);
    if b != 0 {
      At(cs, segs, hdr, b);
      assert TagOk(m, cs, b);
    }
  }

  lemma NoZero(cs: Chunks, segs: seq<Segment>, hdr: int)
    requires Tile(cs, segs, hdr)
    ensures 0 !in cs
  {
    forall p | p in cs ensures 0 < p { assert ChunkOk(cs, segs, p); }
  }

  lemma TagParts(m: Mem, cs: Chunks, p: int)
    requires p in cs && TagOk(m, cs, p) && !cs[p].kind.Fence? && cs[p].size % 16 == 0
    ensures ChunkSize(m, p) == cs[p].size && (Pinuse(m, p) <==> PrevInUse(cs, p))
    ensures (Cinuse(m, p) <==> InUse(cs[p].kind))
  {
    var b, c := if PrevInUse(cs, p) then 1 else 0, if InUse(cs[p].kind) then 2 else 0;
    assert Head(m, p) == cs[p].size + b + c;
    HeadParts(cs[p].size, b, c);
  }

  lemma HeadParts(s: int, b: int, c: int)
    requires s % 16 == 0 && 0 <= b <= 1 && (c == 0 || c == 2)
    ensures SizeOf(s + b + c) == s && (s + b + c) % 2 == b && (s + b + c) / 2 % 2 == c / 2
  {
    var k := s / 16;
    Halves(s + b + c, 8 * k + c / 2, b);
    Halves(8 * k + c / 2, 4 * k, c / 2);
    Eighths(s + b + c, 2 * k, b + c);
  }

  lemma Halves(h: int, q: int, r: int)
    requires h == 2 * q + r && 0 <= r < 2
    ensures h / 2 == q && h % 2 == r
  {
  }

  lemma Eighths(h: int, q: int, r: int)
    requires h == 8 * q + r && 0 <= r < 8
    ensures h % 8 == r
  {
  }

  /** The tag writes of a release keep the bins, the tags and all other payloads. */
  lemma ReleaseEdits(m: Mem, m': Mem, cs: Chunks, segs: seq<Segment>, hdr: int, p: int, bs: map<int, nat>)
    requires LayoutOk(cs, segs, hdr) && hdr > 0 && Tagged(m, cs) && Binnable(cs, bs) && p in cs && cs[p].kind.Live?
    requires NextOf(cs, p) in cs && (InUse(cs[NextOf(cs, p)].kind) || NextOf(cs, NextOf(cs, p)) in cs)
    requires var q, e, k := MergeStart(cs, p), MergeEnd(cs, p), MergeKind(cs, p);
             && q !in bs && NextOf(cs, p) !in bs
             && Edited(m, m', {q, e}, {e}) && Head(m', q) == e - q + 1 && Head(m', e) == ClearBit0(Head(m, e))
             && (k.Free? ==> Foot(m', e) == e - q)
    ensures Tagged(m', Release(cs, p)) && Kept(m, m', Lives(cs) - {p}) && OuterKept(m, m', segs, hdr)
    ensures var q, e := MergeStart(cs, p), MergeEnd(cs, p);
            && e !in bs && !LinkSlot(bs, hdr, q) && !LinkSlot(bs, hdr, e)
  {
    var q, e, n := MergeStart(cs, p), MergeEnd(cs, p), NextOf(cs, p);
    ReleaseTags(m, m', cs, segs, hdr, p);
    At(cs, segs, hdr, p);
    At(cs, segs, hdr, n);
    assert Merged(cs, n);
    Placed(cs, segs, hdr, q);
    Placed(cs, segs, hdr, e);
    SlotsMiss(cs, segs, hdr, bs, q, q);
    SlotsMiss(cs, segs, hdr, bs, e, e);
    ReleaseClear(cs, segs, hdr, p);
    EditsKeepLives(m, m', {q, e}, {e}, Lives(cs) - {p});
    InSegment(cs, segs, hdr, q, q);
    InSegment(cs, segs, hdr, e, e);
    EditsKeepOuter(m, m', {q, e}, {e}, segs, hdr);
  }

  lemma ReleaseClear(cs: Chunks, segs: seq<Segment>, hdr: int, p: int)
    requires Tile(cs, segs, hdr) && Shape(cs, segs) && p in cs && cs[p].kind.Live?
    requires NextOf(cs, p) in cs && MergeEnd(cs, p) in cs
    ensures Clear(Lives(cs) - {p}, {MergeStart(cs, p), MergeEnd(cs, p)}, {MergeEnd(cs, p)})
  {
    var q, e, n := MergeStart(cs, p), MergeEnd(cs, p), NextOf(cs, p);
    var live := Lives(cs) - {p};
    NextTag(cs, segs, hdr, p);
    if !InUse(cs[n].kind) { NextTag(cs, segs, hdr, n); }
    forall x | x in live ensures !(x < q < x + live[x]) && !(x < e <= x + live[x]) {
      Placed(cs, segs, hdr, q);
      Placed(cs, segs, hdr, e);
      Disjoint(cs, segs, hdr, x, q);
      Disjoint(cs, segs, hdr, x, e);
      EndsAt(cs, segs, hdr, x, e);
    }
  }

  /** A chunk of the layout that ends where `e` starts is the one before `e`. */
  lemma EndsAt(cs: Chunks, segs: seq<Segment>, hdr: int, x: int, e: int)
    requires Tile(cs, segs, hdr) && Shape(cs, segs) && x in cs && e in cs && Plain(cs[x].kind)
    ensures x + cs[x].size == e <==> cs[e].prev == x
  {
    At(cs, segs, hdr, x);
    At(cs, segs, hdr, e);
  }

  /** Where the free chunks are after a release. */
  lemma ReleaseFrees(
    cs: Chunks, segs: seq<Segment>, hdr: int, p: int, bs: map<int, nat>, dv: int, bs': map<int, nat>, dv': int
  )
    requires LayoutOk(cs, segs, hdr) && p in cs && cs[p].kind.Live? && Binnable(cs, bs) && FreesBinned(cs, bs, dv)
    requires NextOf(cs, p) in cs && (InUse(cs[NextOf(cs, p)].kind) || NextOf(cs, NextOf(cs, p)) in cs)
    requires var q, n := MergeStart(cs, p), NextOf(cs, p);
             && (forall x {:trigger x in bs'} :: x != q ==> (x in bs' <==> x in bs && x != n))
             && (forall x {:trigger bs'[x]} :: x != q && x in bs' ==> bs'[x] == bs[x])
             && (q in bs' <==> MergeKind(cs, p).Free? && q != dv') && (q in bs' ==> bs'[q] == MergeEnd(cs, p) - q)
             && (dv' == dv || (dv in {0, q, n} && dv' in {0, q}))
    ensures Binnable(Release(cs, p), bs') && FreesBinned(Release(cs, p), bs', dv')
  {
    var q, e, n, cs' := MergeStart(cs, p), MergeEnd(cs, p), NextOf(cs, p), Release(cs, p);
    ReleaseFuses(cs, segs, hdr, p);
    ReleaseSpan(cs, segs, hdr, p);
    hide Release, LayoutOk;
    forall x | x in bs' ensures x in cs' && cs'[x].kind.Free? && cs'[x].size == bs'[x] {
      if x != q { assert x in bs && x in cs; }
    }
    forall x | x in cs' && cs'[x].kind.Free? ensures x in bs' <==> x != dv' {
      if x != q { assert x in cs && cs[x].kind.Free? && x != n; }
    }
  }

  /** The chunks that a release swallows. */
  lemma ReleaseSpan(cs: Chunks, segs: seq<Segment>, hdr: int, p: int)
    requires LayoutOk(cs, segs, hdr) && p in cs && cs[p].kind.Live?
    requires NextOf(cs, p) in cs && (InUse(cs[NextOf(cs, p)].kind) || NextOf(cs, NextOf(cs, p)) in cs)
    ensures var q, e, n := MergeStart(cs, p), MergeEnd(cs, p), NextOf(cs, p);
            && (forall x {:trigger x in cs} :: x in cs && q < x < e ==> x == p || x == n)
            && (q != p ==> q < p < e && cs[q].kind.Free?)
            && (e != n ==> q < n < e && (cs[n].kind.Free? || cs[n].kind.Top?))
            && q < e && 0 !in cs && !cs[e].kind.Free? && cs[n].prev == p && (e == n <==> InUse(cs[n].kind))
  {
    var q, e, n := MergeStart(cs, p), MergeEnd(cs, p), NextOf(cs, p);
    NextTag(cs, segs, hdr, p);
    NoZero(cs, segs, hdr);
    At(cs, segs, hdr, p);
    if !InUse(cs[n].kind) { NextTag(cs, segs, hdr, n); NoneInside(cs, segs, hdr, n); }
    assert Merged(cs, n);
    if q != p { At(cs, segs, hdr, q); NoneInside(cs, segs, hdr, q); }
    NoneInside(cs, segs, hdr, p);
  }

  lemma SlotsTrans(m: Mem, m1: Mem, m2: Mem, bs: map<int, nat>, bs1: map<int, nat>, hdr: int)
    requires OnlySlots(m, m1, bs, hdr) && OnlySlots(m1, m2, bs1, hdr)
    requires forall x :: x in bs1 ==> x in bs && bs1[x] == bs[x]
    ensures OnlySlots(m, m2, bs, hdr)
  {
    hide Lo, Hi;
    forall a | !LinkSlot(bs, hdr, a) ensures !LinkSlot(bs1, hdr, a) { }
  }

  /** The chunk after `p` is in use: set_free_with_pinuse on the merged space. */
  lemma FreeBeforeUse(m: Mem, cs: Chunks, p: int)
    requires p in cs && NextOf(cs, p) in cs && InUse(cs[NextOf(cs, p)].kind) && MergeStart(cs, p) < NextOf(cs, p)
    ensures var q, e := MergeStart(cs, p), MergeEnd(cs, p);
            var m' := SetFreeBefore(m, q, e - q, NextOf(cs, p));
            && Edited(m, m', {q, e}, {e}) && Head(m', q) == e - q + 1 && Head(m', e) == ClearBit0(Head(m, e))
            && Foot(m', e) == e - q
  {
    SetFreeBeforeEdits(m, MergeStart(cs, p), MergeEnd(cs, p) - MergeStart(cs, p), NextOf(cs, p));
  }

  /** The chunk after `p` is free or top: the bit in the chunk after that is clear already. */
  lemma FreeBeforeFree(m: Mem, m': Mem, cs: Chunks, segs: seq<Segment>, hdr: int, p: int)
    requires LayoutOk(cs, segs, hdr) && Tagged(m, cs) && p in cs && cs[p].kind.Live? && NextOf(cs, p) in cs
    requires !InUse(cs[NextOf(cs, p)].kind) && NextOf(cs, NextOf(cs, p)) in cs
    requires var q, e := MergeStart(cs, p), MergeEnd(cs, p);
             m' == (if MergeKind(cs, p).Top? then SetHead(m, q, e - q + 1) else SetFreeHead(m, q, e - q))
    ensures var q, e, k := MergeStart(cs, p), MergeEnd(cs, p), MergeKind(cs, p);
            && Edited(m, m', {q, e}, {e}) && Head(m', q) == e - q + 1 && Head(m', e) == ClearBit0(Head(m, e))
            && (k.Free? ==> Foot(m', e) == e - q)
  {
    var n := NextOf(cs, p);
    NextTag(cs, segs, hdr, p);
    NextTag(cs, segs, hdr, n);
    var e := NextOf(cs, n);
    assert TagOk(m, cs, e);
    ReleaseSpan(cs, segs, hdr, p);
    PinWord(cs, cs, e);
  }

  /** The view of the heap after a release. */
  ghost predicate Releases(v: View, v': View, p: int) {
    && p in v.cs && NextOf(v.cs, p) in v.cs && v'.cs == Freed(v.cs, p)
    && (InUse(v.cs[NextOf(v.cs, p)].kind) || NextOf(v.cs, NextOf(v.cs, p)) in v.cs)
    && var q, e, n, k := MergeStart(v.cs, p), MergeEnd(v.cs, p), NextOf(v.cs, p), MergeKind(v.cs, p);
       && (forall x {:trigger x in v'.bs} :: x != q ==> (x in v'.bs <==> x in v.bs && x != n))
       && (forall x {:trigger v'.bs[x]} :: x != q && x in v'.bs ==> v'.bs[x] == v.bs[x])
       && (q in v'.bs <==> k.Free? && q != v'.dv) && (q in v'.bs ==> v'.bs[q] == e - q)
       && (if v.dv == q || v.dv == n then v'.dv in {0, q} else v'.dv == v.dv)
       && (v'.dvsize == if v'.dv == 0 then 0 else if v'.dv == q then e - q else v.dvsize)
       && (v'.dv == q ==> k.Free?)
       && (if k.Top? then v'.top == q && v'.topsize == e - q else v'.top == v.top && v'.topsize == v.topsize)
  }

  lemma ReleaseDone(
    m: Mem, m2: Mem, m3: Mem, m': Mem, v: View, v': View, segs: seq<Segment>, hdr: int, least: int, p: int
  )
    requires HeapOk(m, v, segs, hdr, least) && p in v.cs && v.cs[p].kind.Live? && Releases(v, v', p)
    requires OnlySlots(m, m2, v.bs, hdr) && OnlySlots(m3, m', v'.bs, hdr)
    requires Tagged(m3, Freed(v.cs, p)) && Kept(m2, m3, Lives(v.cs) - {p}) && OuterKept(m2, m3, segs, hdr)
    ensures HeapOk(m', v', segs, hdr, least) && Kept(m, m', Lives(v.cs) - {p}) && Lives(v'.cs) == Lives(v.cs) - {p}
    ensures OuterKept(m, m', segs, hdr)
  {
    var cs, cs' := v.cs, v'.cs;
    ReleaseKeeps(cs, segs, hdr, p);
    ReleaseFuses(cs, segs, hdr, p);
    ReleaseSpan(cs, segs, hdr, p);
    hide Release, Tile, Shape, AllMerged;
    NextTag(cs, segs, hdr, p);
    ReleaseRest(v, v', segs, least, p);
    ReleaseFrees(cs, segs, hdr, p, v.bs, v.dv, v'.bs, v'.dv);
    SlotsKeepTags(m3, m', cs', segs, hdr, v'.bs);
    SlotsKeepLives(m, m2, cs, segs, hdr, v.bs);
    SlotsKeepLives(m3, m', cs', segs, hdr, v'.bs);
    KeptPart(m, m2, Lives(cs), Lives(cs) - {p});
    KeptTrans(m, m2, m3, Lives(cs) - {p});
    KeptTrans(m, m3, m', Lives(cs) - {p});
    SlotsKeepOuter(m, m2, cs, segs, hdr, v.bs);
    SlotsKeepOuter(m3, m', cs', segs, hdr, v'.bs);
    OuterTrans(m, m2, m3, segs, hdr);
    OuterTrans(m, m3, m', segs, hdr);
  }

  lemma ReleaseRest(v: View, v': View, segs: seq<Segment>, least: int, p: int)
    requires p in v.cs && v.cs[p].kind.Live? && Releases(v, v', p)
    requires var q, e, n, k := MergeStart(v.cs, p), MergeEnd(v.cs, p), NextOf(v.cs, p), MergeKind(v.cs, p);
             && Fused(v.cs, v'.cs, q, e, k) && (k.Free? || k.Top?)
             && (forall x {:trigger x in v.cs} :: x in v.cs && q < x < e ==> x == p || x == n)
             && (q != p ==> q < p < e && v.cs[q].kind.Free?)
             && (e != n ==> q < n < e && (v.cs[n].kind.Free? || v.cs[n].kind.Top?))
             && !v.cs[e].kind.Free? && (e == n <==> InUse(v.cs[n].kind)) && 0 !in v.cs
    requires VictimOk(v.cs, v.dv, v.dvsize) && TopOk(v.cs, segs, v.top, v.topsize) && Above(v.cs, least) && segs != []
    ensures VictimOk(v'.cs, v'.dv, v'.dvsize) && TopOk(v'.cs, segs, v'.top, v'.topsize) && Above(v'.cs, least)
    ensures Lives(v'.cs) == Lives(v.cs) - {p}
  {
    var q, e, n, k, cs, cs' := MergeStart(v.cs, p), MergeEnd(v.cs, p), NextOf(v.cs, p), MergeKind(v.cs, p), v.cs, v'.cs;
    hide Freed;
    assert VictimOk(cs', v'.dv, v'.dvsize) by {
      if v'.dv != 0 && v'.dv != q { assert v.dv in cs && v.dv in cs' && cs'[v.dv] == cs[v.dv]; }
    }
    forall x | x in cs' && cs'[x].kind.Top? ensures x == v'.top {
      if x != q { assert x in cs && cs[x].kind.Top?; }
    }
    assert v'.top in cs';
    assert cs'[v'.top].kind.Top? && cs'[v'.top].size == v'.topsize;
    SameLives(cs, cs', p) by {
      forall x ensures (x in cs' && cs'[x].kind.Live?) <==> (x in cs && cs[x].kind.Live? && x != p) {
        assert x in cs' <==> x in cs && !(q < x < e);
        if x in cs' && x != q && x != e { assert cs'[x] == cs[x]; }
      }
    }
  }

  lemma SameLives(cs: Chunks, cs': Chunks, p: int)
    requires forall x {:trigger x in cs'} {:trigger x in cs} ::
      (x in cs' && cs'[x].kind.Live?) <==> (x in cs && cs[x].kind.Live? && x != p)
    requires forall x {:trigger cs'[x]} :: x in cs' && cs'[x].kind.Live? ==> cs'[x].size == cs[x].size
    ensures Lives(cs') == Lives(cs) - {p}
  {
    var l, l' := Lives(cs) - {p}, Lives(cs');
    assert forall x :: x in l' <==> x in l;
    assert forall x :: x in l ==> l[x] == l'[x];
  }

  /** The tags written when `p` is released, whatever follows it. */
  ghost function ReleasedMem(m: Mem, cs: Chunks, p: int): Mem
    requires p in cs && NextOf(cs, p) in cs
  {
    var q, e, n := MergeStart(cs, p), MergeEnd(cs, p), NextOf(cs, p);
    if InUse(cs[n].kind) then SetFreeBefore(m, q, e - q, n)
    else if cs[n].kind.Top? then SetHead(m, q, e - q + 1)
    else SetFreeHead(m, q, e - q)
  }

  ghost predicate SubMap(bs: map<int, nat>, bs': map<int, nat>) {
    forall x :: x in bs ==> x in bs' && bs[x] == bs'[x]
  }

  /** The tags are those of the merged space around `p`. */
  ghost predicate ReleaseWritten(m: Mem, m': Mem, cs: Chunks, p: int)
    requires p in cs && NextOf(cs, p) in cs
  {
    var q, e, k := MergeStart(cs, p), MergeEnd(cs, p), MergeKind(cs, p);
    && Edited(m, m', {q, e}, {e}) && Head(m', q) == e - q + 1 && Head(m', e) == ClearBit0(Head(m, e))
    && (k.Free? ==> Foot(m', e) == e - q)
  }

  /** The writes of dispose_chunk do just that. */
  lemma ReleasedIs(m: Mem, m2: Mem, v: View, segs: seq<Segment>, hdr: int, least: int, p: int)
    requires HeapOk(m, v, segs, hdr, least) && p in v.cs && v.cs[p].kind.Live? && NextOf(v.cs, p) in v.cs
    requires OnlySlots(m, m2, v.bs, hdr)
    ensures ReleaseWritten(m2, ReleasedMem(m2, v.cs, p), v.cs, p)
  {
    hide Tile, Shape, AllMerged, Tagged, Binnable, FreesBinned, TopOk, VictimOk, OnlySlots, LinkSlot, Edited, Kept,
         OuterKept,
         Release, SetFreeBefore, SetFreeHead, SetHead;
    var cs, n := v.cs, NextOf(v.cs, p);
    SlotsKeepTags(m, m2, cs, segs, hdr, v.bs);
    NeighbourTags(m, cs, segs, hdr, p);
    ReleaseSpan(cs, segs, hdr, p);
    if InUse(cs[n].kind) {
      FreeBeforeUse(m2, cs, p);
    } else {
      FreeBeforeFree(m2, ReleasedMem(m2, cs, p), cs, segs, hdr, p);
    }
  }

  lemma ReleaseWrites(
    m: Mem, m2: Mem, m3: Mem, v: View, bs2: map<int, nat>, segs: seq<Segment>, hdr: int, least: int, p: int
  )
    requires HeapOk(m, v, segs, hdr, least) && p in v.cs && v.cs[p].kind.Live? && NextOf(v.cs, p) in v.cs
    requires OnlySlots(m, m2, v.bs, hdr) && SubMap(bs2, v.bs) && MergeStart(v.cs, p) !in bs2 && NextOf(v.cs, p) !in bs2
    requires ReleaseWritten(m2, m3, v.cs, p)
    ensures var q, e := MergeStart(v.cs, p), MergeEnd(v.cs, p);
            && Tagged(m3, Freed(v.cs, p)) && Kept(m2, m3, Lives(v.cs) - {p}) && OuterKept(m2, m3, segs, hdr)
            && Edited(m2, m3, {q, e}, {e}) && e !in bs2 && q !in bs2 && !LinkSlot(bs2, hdr, q) && !LinkSlot(bs2, hdr, e)
            && Head(m3, q) == e - q + 1 && (e - q) % 16 == 0
  {
    hide Tile, Shape, AllMerged, Tagged, Binnable, FreesBinned, TopOk, VictimOk, OnlySlots, LinkSlot, Edited, Kept,
         OuterKept,
         Release;
    var cs, q, e := v.cs, MergeStart(v.cs, p), MergeEnd(v.cs, p);
    SlotsKeepTags(m, m2, cs, segs, hdr, v.bs);
    NeighbourTags(m, cs, segs, hdr, p);
    ReleaseSpan(cs, segs, hdr, p);
    SpanAligned(cs, segs, hdr, q, e);
    assert Binnable(cs, bs2) by { BinnablePart(cs, v.bs, bs2); }
    ReleaseEdits(m2, m3, cs, segs, hdr, p, bs2);
  }

  lemma SpanAligned(cs: Chunks, segs: seq<Segment>, hdr: int, q: int, e: int)
    requires Tile(cs, segs, hdr) && q in cs && e in cs
    ensures (e - q) % 16 == 0
  {
    assert ChunkOk(cs, segs, q) && ChunkOk(cs, segs, e);
  }

  lemma BinnablePart(cs: Chunks, bs: map<int, nat>, bs': map<int, nat>)
    requires Binnable(cs, bs) && SubMap(bs', bs)
    ensures Binnable(cs, bs')
  {
  }

  /** A release that puts nothing into a bin. */
  lemma ReleaseFinish(m: Mem, m2: Mem, m': Mem, v: View, v': View, segs: seq<Segment>, hdr: int, least: int, p: int,
                      smallmap: nat, treemap: nat, roots: seq<int>, tbin: int, g: Binned)
    requires HeapOk(m, v, segs, hdr, least) && p in v.cs && v.cs[p].kind.Live? && Releases(v, v', p)
    requires OnlySlots(m, m2, v.bs, hdr) && BinsOk(m2, smallmap, treemap, roots, hdr, tbin, g) && g.bs == v'.bs
    requires MergeStart(v.cs, p) !in v'.bs && ReleaseWritten(m2, m', v.cs, p)
    ensures && HeapOk(m', v', segs, hdr, least) && BinsOk(m', smallmap, treemap, roots, hdr, tbin, g)
            && Kept(m, m', Lives(v.cs) - {p}) && OuterKept(m, m', segs, hdr) && Lives(v'.cs) == Lives(v.cs) - {p}
  {
    hide HeapOk, BinsOk, LayoutOk, Freed, Lives, Kept, OnlySlots, Tagged, Edited, LinkSlot, OuterKept, ReleaseWritten;
    ReleasesWithin(v, v', p);
    ReleaseWrites(m, m2, m', v, v'.bs, segs, hdr, least, p);
    var q, e := MergeStart(v.cs, p), MergeEnd(v.cs, p);
    EditsKeepBins(m2, m', {q, e}, {e}, smallmap, treemap, roots, hdr, tbin, g);
    OnlySlotsSelf(m', v'.bs, hdr);
    ReleaseDone(m, m2, m', m', v, v', segs, hdr, least, p);
  }

  lemma ReleasesWithin(v: View, v': View, p: int)
    requires Releases(v, v', p) && MergeStart(v.cs, p) !in v'.bs
    ensures SubMap(v'.bs, v.bs) && NextOf(v.cs, p) !in v'.bs
  {
  }

  lemma OnlySlotsSelf(m: Mem, bs: map<int, nat>, hdr: int)
    ensures OnlySlots(m, m, bs, hdr)
  {
  }

  // ---- handing out free space ---------------------------------------------------------------------------------

  /** The tags are those of `p` carved to `nb` bytes. */
  ghost predicate CarveWritten(m: Mem, m': Mem, cs: Chunks, p: int, nb: int)
    requires p in cs
  {
    var n, r, rs := NextOf(cs, p), p + nb, cs[p].size - nb;
    if nb == cs[p].size then
      Edited(m, m', {p, n}, {}) && Head(m', p) == nb + 3 && Head(m', n) == SetBit0(Head(m, n))
    else
      && Edited(m, m', {p, r}, {n}) && Head(m', p) == nb + 3 && Head(m', r) == rs + 1
      && (cs[p].kind.Free? ==> Foot(m', n) == rs)
      && (cs[p].kind.Top? ==> Edited(m, m', {p, r}, {}))
  }

  /** Free or top space that can be carved to `nb` bytes. */
  ghost predicate Carvable(cs: Chunks, p: int, nb: int) {
    && p in cs && NextOf(cs, p) in cs && MIN_CHUNK_SIZE <= nb && nb % 16 == 0
    && if cs[p].kind.Top? then nb < cs[p].size
       else cs[p].kind.Free? && (nb == cs[p].size || nb + MIN_CHUNK_SIZE <= cs[p].size)
  }

  lemma CarveEdits(m: Mem, m': Mem, cs: Chunks, segs: seq<Segment>, hdr: int, p: int, nb: int, bs: map<int, nat>)
    requires LayoutOk(cs, segs, hdr) && hdr > 0 && Tagged(m, cs) && Binnable(cs, bs) && Carvable(cs, p, nb)
    requires p !in bs && CarveWritten(m, m', cs, p, nb)
    ensures Tagged(m', Carve(cs, p, nb)) && Kept(m, m', Lives(cs)) && OuterKept(m, m', segs, hdr)
    ensures var n := NextOf(cs, p);
            && Edited(m, m', {p, if nb == cs[p].size then n else p + nb}, {n})
            && n !in bs && p + nb !in bs && !LinkSlot(bs, hdr, p) && !LinkSlot(bs, hdr, p + nb) && !LinkSlot(bs, hdr, n)
  {
    var n, r := NextOf(cs, p), p + nb;
    NextTag(cs, segs, hdr, p);
    assert Merged(cs, p);
    if nb == cs[p].size {
      TakeTags(m, m', cs, segs, hdr, p);
    } else {
      CarveTags(m, m', cs, segs, hdr, p, nb); NoneInside(cs, segs, hdr, p);
    }
    hide AllMerged, Tagged, LinkSlot, Edited, Kept, OuterKept, Outside;
    SlotsMiss(cs, segs, hdr, bs, p, p);
    SlotsMiss(cs, segs, hdr, bs, n, n);
    InSegment(cs, segs, hdr, p, p);
    InSegment(cs, segs, hdr, n, n);
    if nb < cs[p].size { SlotsMiss(cs, segs, hdr, bs, p, r); InSegment(cs, segs, hdr, p, r); }
    var hs := {p, r};
    assert Edited(m, m', hs, {n}) by { EditedMore(m, m', cs, p, nb); }
    CarveClear(cs, segs, hdr, p, nb);
    EditsKeepLives(m, m', hs, {n}, Lives(cs));
    EditsKeepOuter(m, m', hs, {n}, segs, hdr);
  }

  lemma EditedMore(m: Mem, m': Mem, cs: Chunks, p: int, nb: int)
    requires p in cs && CarveWritten(m, m', cs, p, nb)
    ensures Edited(m, m', {p, p + nb}, {NextOf(cs, p)})
  {
    hide Lo, Hi;
  }

  lemma CarveClear(cs: Chunks, segs: seq<Segment>, hdr: int, p: int, nb: int)
    requires Tile(cs, segs, hdr) && Shape(cs, segs) && Carvable(cs, p, nb)
    ensures Clear(Lives(cs), {p, p + nb}, {NextOf(cs, p)})
  {
    var n := NextOf(cs, p);
    NextTag(cs, segs, hdr, p);
    var live := Lives(cs);
    forall x | x in live ensures !(x < p < x + live[x]) && !(x < p + nb < x + live[x]) && !(x < n <= x + live[x]) {
      Disjoint(cs, segs, hdr, x, p);
      Disjoint(cs, segs, hdr, x, n);
      EndsAt(cs, segs, hdr, x, n);
    }
  }

  /** The view of the heap after `p` is carved: the remainder is top, the victim, or in a bin. */
  ghost predicate Carves(v: View, v': View, p: int, nb: int) {
    && Carvable(v.cs, p, nb) && v'.cs == Carve(v.cs, p, nb)
    && var r, rs := p + nb, v.cs[p].size - nb;
       if v.cs[p].kind.Top? then v' == v.(cs := v'.cs, top := r, topsize := rs)
       else
         && v'.top == v.top && v'.topsize == v.topsize && p !in v'.bs
         && (forall x {:trigger x in v'.bs} :: x != p && x != r && x != v.dv ==> (x in v'.bs <==> x in v.bs))
         && (forall x {:trigger v'.bs[x]} :: x in v'.bs && x != r && x != v.dv ==> v'.bs[x] == v.bs[x])
         && (rs > 0 ==> (r in v'.bs <==> r != v'.dv) && (r in v'.bs ==> v'.bs[r] == rs)) && (rs == 0 ==> r !in v'.bs)
         && (v.dv != 0 && v.dv != p ==>
               (v.dv in v'.bs <==> v'.dv != v.dv) && (v.dv in v'.bs ==> v'.bs[v.dv] == v.dvsize))
         && (v.dv == 0 ==> 0 !in v'.bs)
         && (if v'.dv == 0 then v'.dvsize == 0 && (v.dv == p || v.dv == 0)
             else if v'.dv == r && rs > 0 then v'.dvsize == rs
             else v'.dv == v.dv && v.dv != p && v'.dvsize == v.dvsize)
  }

  /** What becomes of each chunk when `p` is carved. */
  lemma CarveSpan(cs: Chunks, segs: seq<Segment>, hdr: int, p: int, nb: int)
    requires LayoutOk(cs, segs, hdr) && Carvable(cs, p, nb)
    ensures var cs', r, n, rs := Carve(cs, p, nb), p + nb, NextOf(cs, p), cs[p].size - nb;
            && 0 !in cs && p != r && r != 0 && p in cs' && cs'[p] == cs[p].(size := nb, kind := Live)
            && (forall x {:trigger x in cs'} :: x in cs' <==> x in cs || (x == r && rs > 0))
            && (rs > 0 ==> r !in cs && r in cs' && cs'[r].kind == cs[p].kind && cs'[r].size == rs && p < r)
            && (rs == 0 ==> r in cs && !cs[r].kind.Free?)
            && (forall x {:trigger cs'[x]} :: x in cs' && x != p && x != r ==>
                  cs'[x].kind == cs[x].kind && cs'[x].size == cs[x].size)
            && (rs == 0 ==> cs'[r] == cs[r])
  {
    NoZero(cs, segs, hdr);
    NextTag(cs, segs, hdr, p);
    assert Merged(cs, p);
    NoneInside(cs, segs, hdr, p);
  }

  lemma CarveBins(v: View, v': View, segs: seq<Segment>, hdr: int, p: int, nb: int)
    requires LayoutOk(v.cs, segs, hdr) && Binnable(v.cs, v.bs) && FreesBinned(v.cs, v.bs, v.dv) && Carves(v, v', p, nb)
    requires VictimOk(v.cs, v.dv, v.dvsize)
    ensures Binnable(v'.cs, v'.bs) && FreesBinned(v'.cs, v'.bs, v'.dv)
  {
    hide LayoutOk, Carve;
    var cs, cs', r := v.cs, v'.cs, p + nb;
    CarveSpan(cs, segs, hdr, p, nb);
    forall x | x in v'.bs ensures x in cs' && cs'[x].kind.Free? && cs'[x].size == v'.bs[x] {
      if x != r && x != v.dv { assert x in v.bs; }
    }
    forall x | x in cs' && cs'[x].kind.Free? ensures x in v'.bs <==> x != v'.dv {
      if x != r { assert x in cs && cs[x].kind.Free?; }
    }
  }

  lemma CarveRest(v: View, v': View, segs: seq<Segment>, hdr: int, least: int, p: int, nb: int)
    requires LayoutOk(v.cs, segs, hdr) && Carves(v, v', p, nb)
    requires VictimOk(v.cs, v.dv, v.dvsize) && TopOk(v.cs, segs, v.top, v.topsize) && Above(v.cs, least)
    ensures VictimOk(v'.cs, v'.dv, v'.dvsize) && TopOk(v'.cs, segs, v'.top, v'.topsize) && Above(v'.cs, least)
    ensures Lives(v'.cs) == Lives(v.cs)[p := nb] && p !in Lives(v.cs)
  {
    hide LayoutOk, Carve, Lives;
    CarveSpan(v.cs, segs, hdr, p, nb);
    CarveLives(v.cs, v'.cs, p, nb, p + nb);
  }

  lemma CarveLives(cs: Chunks, cs': Chunks, p: int, nb: int, r: int)
    requires p in cs && p in cs' && cs'[p] == cs[p].(size := nb, kind := Live) && !cs[p].kind.Live?
    requires r in cs' && (r in cs ==> cs'[r] == cs[r]) && (r !in cs ==> !cs'[r].kind.Live?)
    requires forall x {:trigger x in cs'} {:trigger x in cs} :: x in cs' <==> x in cs || x == r
    requires forall x {:trigger cs'[x]} :: x in cs' && x != p && x != r ==>
      cs'[x].kind == cs[x].kind && cs'[x].size == cs[x].size
    ensures Lives(cs') == Lives(cs)[p := nb] && p !in Lives(cs)
  {
    var l, l' := Lives(cs)[p := nb], Lives(cs');
    assert forall x :: x in l' <==> x in l;
    assert forall x :: x in l ==> l[x] == l'[x];
  }

  lemma CarveDone(
    m: Mem, m2: Mem, m3: Mem, m': Mem, v: View, v': View, segs: seq<Segment>, hdr: int, least: int, p: int, nb: int
  )
    requires HeapOk(m, v, segs, hdr, least) && Carves(v, v', p, nb)
    requires OnlySlots(m, m2, v.bs, hdr) && OnlySlots(m3, m', v'.bs, hdr)
    requires Tagged(m3, v'.cs) && Kept(m2, m3, Lives(v.cs)) && OuterKept(m2, m3, segs, hdr)
    ensures HeapOk(m', v', segs, hdr, least) && Kept(m, m', Lives(v.cs)) && Lives(v'.cs) == Lives(v.cs)[p := nb]
    ensures p !in Lives(v.cs)
    ensures OuterKept(m, m', segs, hdr)
  {
    hide Carve, Tile, Shape, AllMerged, Tagged, Kept, OuterKept, OnlySlots, Binnable, FreesBinned, VictimOk, TopOk,
         Lives;
    CarveKeeps(v.cs, segs, hdr, p, nb);
    CarveBins(v, v', segs, hdr, p, nb);
    CarveRest(v, v', segs, hdr, least, p, nb);
    SlotsKeepTags(m3, m', v'.cs, segs, hdr, v'.bs);
    SlotsKeepLives(m, m2, v.cs, segs, hdr, v.bs);
    SlotsKeepLives(m3, m', v'.cs, segs, hdr, v'.bs);
    LessKept(m3, m', Lives(v.cs), p, nb);
    KeptTrans(m, m2, m3, Lives(v.cs));
    KeptTrans(m, m3, m', Lives(v.cs));
    SlotsKeepOuter(m, m2, v.cs, segs, hdr, v.bs);
    SlotsKeepOuter(m3, m', v'.cs, segs, hdr, v'.bs);
    OuterTrans(m, m2, m3, segs, hdr);
    OuterTrans(m, m3, m', segs, hdr);
  }

  lemma LessKept(m: Mem, m': Mem, live: map<int, int>, p: int, s: int)
    requires Kept(m, m', live[p := s]) && p !in live
    ensures Kept(m, m', live)
  {
    KeptPart(m, m', live[p := s], live);
  }

  lemma CarveWrites(
    m: Mem, m2: Mem, m3: Mem, v: View, bs2: map<int, nat>, segs: seq<Segment>, hdr: int, least: int, p: int, nb: int
  )
    requires HeapOk(m, v, segs, hdr, least) && Carvable(v.cs, p, nb) && CarveWritten(m2, m3, v.cs, p, nb)
    requires OnlySlots(m, m2, v.bs, hdr) && SubMap(bs2, v.bs) && p !in bs2
    ensures Tagged(m3, Carve(v.cs, p, nb)) && Kept(m2, m3, Lives(v.cs)) && OuterKept(m2, m3, segs, hdr)
    ensures var n := NextOf(v.cs, p);
            && Edited(m2, m3, {p, p + nb}, {n}) && n !in bs2 && p + nb !in bs2
            && !LinkSlot(bs2, hdr, p) && !LinkSlot(bs2, hdr, p + nb) && !LinkSlot(bs2, hdr, n)
  {
    hide Carve, Tile, Shape, AllMerged, Tagged, Kept, OuterKept, OnlySlots, Binnable, FreesBinned, VictimOk, TopOk,
         Lives, LinkSlot, Edited;
    SlotsKeepTags(m, m2, v.cs, segs, hdr, v.bs);
    BinnablePart(v.cs, v.bs, bs2);
    EditedMore(m2, m3, v.cs, p, nb);
    CarveEdits(m2, m3, v.cs, segs, hdr, p, nb, bs2);
  }

  /** A carving that puts nothing into a bin. */
  lemma CarveFinish(
    m: Mem, m2: Mem, m': Mem, v: View, v': View, segs: seq<Segment>, hdr: int, least: int, p: int, nb: int,
    smallmap: nat, treemap: nat, roots: seq<int>, tbin: int, g: Binned
  )
    requires HeapOk(m, v, segs, hdr, least) && Carves(v, v', p, nb) && CarveWritten(m2, m', v.cs, p, nb)
    requires OnlySlots(m, m2, v.bs, hdr) && BinsOk(m2, smallmap, treemap, roots, hdr, tbin, g) && g.bs == v'.bs
    requires p !in v'.bs
    requires SubMap(v'.bs, v.bs)
    ensures && HeapOk(m', v', segs, hdr, least) && BinsOk(m', smallmap, treemap, roots, hdr, tbin, g)
            && Kept(m, m', Lives(v.cs)) && OuterKept(m, m', segs, hdr) && Lives(v'.cs) == Lives(v.cs)[p := nb]
            && p !in Lives(v.cs)
  {
    hide HeapOk, BinsOk, Carve, Lives, Kept, OnlySlots, Tagged, Edited, LinkSlot, OuterKept, CarveWritten;
    CarveWrites(m, m2, m', v, v'.bs, segs, hdr, least, p, nb);
    EditsKeepBins(m2, m', {p, p + nb}, {NextOf(v.cs, p)}, smallmap, treemap, roots, hdr, tbin, g);
    OnlySlotsSelf(m', v'.bs, hdr);
    CarveDone(m, m2, m', m', v, v', segs, hdr, least, p, nb);
  }

  /** A free chunk of the carved layout has room for its links, and its head word holds its size. */
  lemma CarveRoom(m: Mem, m3: Mem, v: View, v': View, segs: seq<Segment>, hdr: int, least: int, p: int, nb: int, x: int)
    requires HeapOk(m, v, segs, hdr, least) && Carves(v, v', p, nb) && Tagged(m3, v'.cs) && x in v'.bs
    ensures Spaced(v'.bs, hdr) && least <= x && v'.bs[x] < W64 && ChunkSize(m3, x) == v'.bs[x]
  {
    hide Carve;
    CarveKeeps(v.cs, segs, hdr, p, nb);
    CarveBins(v, v', segs, hdr, p, nb);
    CarveRest(v, v', segs, hdr, least, p, nb);
    SpacedIn(v'.cs, segs, hdr, v'.bs);
    Placed(v'.cs, segs, hdr, x);
    assert TagOk(m3, v'.cs, x);
    TagParts(m3, v'.cs, x);
  }

  // ---- cutting a live chunk ------------------------------------------------------------------------------------

  /** A live chunk that can be cut into two of at least the minimum size. */
  ghost predicate Cuttable(cs: Chunks, p: int, a: int) {
    p in cs && cs[p].kind.Live? && NextOf(cs,
                                          p) in cs && a % 16 == 0 && MIN_CHUNK_SIZE <= a <= cs[p].size - MIN_CHUNK_SIZE
  }

  /** Cutting, extended to all arguments. */
  function Cut(cs: Chunks, p: int, a: int): Chunks {
    if p in cs && NextOf(cs, p) in cs && 0 < a < cs[p].size then Split(cs, p, a, Live, Live) else cs
  }

  ghost predicate CutWritten(m: Mem, m': Mem, cs: Chunks, p: int, a: int)
    requires p in cs
  {
    var r, n, rs := p + a, NextOf(cs, p), cs[p].size - a;
    && Edited(m, m', {p, r, n}, {}) && Head(m', p) == a + Head(m, p) % 2 + 2 && Head(m', r) == rs + 3
    && Head(m', n) == SetBit0(Head(m, n))
  }

  /** What becomes of each chunk when `p` is cut. */
  lemma CutSpan(cs: Chunks, segs: seq<Segment>, hdr: int, p: int, a: int)
    requires Tile(cs, segs, hdr) && Shape(cs, segs) && Cuttable(cs, p, a)
    ensures var cs', r := Cut(cs, p, a), p + a;
            && 0 !in cs && r !in cs && p in cs' && cs'[p] == cs[p].(size := a) && r in cs' && cs'[r].kind.Live?
            && cs'[r].size == cs[p].size - a
            && (forall x {:trigger x in cs'} {:trigger x in cs} :: x in cs' <==> x in cs || x == r)
            && (forall x {:trigger cs'[x]} :: x in cs' && x != p && x != r ==>
                  cs'[x].kind == cs[x].kind && cs'[x].size == cs[x].size)
    ensures Lives(Cut(cs, p, a)) == Lives(cs)[p := a][p + a := cs[p].size - a] && p in Lives(cs) && p + a !in Lives(cs)
  {
    NoZero(cs, segs, hdr);
    NextTag(cs, segs, hdr, p);
    NoneInside(cs, segs, hdr, p);
    var l, l' := Lives(cs)[p := a][p + a := cs[p].size - a], Lives(Cut(cs, p, a));
    assert forall x :: x in l' <==> x in l;
    assert forall x :: x in l ==> l[x] == l'[x];
  }

  lemma CutKeeps(cs: Chunks, segs: seq<Segment>, hdr: int, p: int, a: int)
    requires LayoutOk(cs, segs, hdr) && Cuttable(cs, p, a)
    ensures LayoutOk(Cut(cs, p, a), segs, hdr)
  {
    var cs' := Cut(cs, p, a);
    ShapeAfterSplit(cs, segs, hdr, p, a, Live, Live);
    CutSpan(cs, segs, hdr, p, a);
    hide Cut, Tile, Shape;
    forall q | q in cs' ensures Merged(cs', q) {
      if q in cs {
        assert Merged(cs, q);
        At(cs, segs, hdr, q);
      }
    }
  }

  /** The tag writes of a cut keep the invariant, the bins and all other payloads. */
  lemma CutHeap(m: Mem, m': Mem, v: View, segs: seq<Segment>, hdr: int, least: int, p: int, a: int)
    requires HeapOk(m, v, segs, hdr, least) && Cuttable(v.cs, p, a) && CutWritten(m, m', v.cs, p, a)
    ensures HeapOk(m', v.(cs := Cut(v.cs, p, a)), segs, hdr, least)
    ensures Kept(m, m', Lives(v.cs) - {p}) && SameWords(m, m', p + 16, p + a) && OuterKept(m, m', segs, hdr)
    ensures var r, n := p + a, NextOf(v.cs, p);
            && Edited(m, m', {p, r, n}, {}) && (forall x :: x in {p, r, n} ==> !LinkSlot(v.bs, hdr, x))
            && (forall x :: x in v.bs && x in {p, r, n} ==> ChunkSize(m', x) == v.bs[x])
  {
    hide Cut, Tile, Shape, AllMerged, LinkSlot, OuterKept, Kept, Tagged, Lives, FreesBinned, VictimOk, TopOk, SameWords;
    CutKeeps(v.cs, segs, hdr, p, a);
    CutTags(m, m', v.cs, segs, hdr, p, a);
    assert Tagged(m', Cut(v.cs, p, a)) by { CutIs(v.cs, p, a); }
    CutFrame(m, m', v.cs, v.bs, segs, hdr, p, a);
    CutNext(m', v, segs, hdr, p, a);
    CutRest(v, segs, hdr, least, p, a);
  }

  lemma CutIs(cs: Chunks, p: int, a: int)
    requires Cuttable(cs, p, a)
    ensures Cut(cs, p, a) == Split(cs, p, a, Live, Live)
  {
  }

  lemma CutFrame(m: Mem, m': Mem, cs: Chunks, bs: map<int, nat>, segs: seq<Segment>, hdr: int, p: int, a: int)
    requires Tile(cs, segs, hdr) && Shape(cs, segs) && Binnable(cs, bs) && hdr > 0 && Cuttable(cs, p, a)
    requires Edited(m, m', {p, p + a, NextOf(cs, p)}, {})
    ensures Kept(m, m', Lives(cs) - {p}) && SameWords(m, m', p + 16, p + a) && OuterKept(m, m', segs, hdr)
    ensures forall x :: x in {p, p + a, NextOf(cs, p)} ==> !LinkSlot(bs, hdr, x)
  {
    hide Tile, Shape, LinkSlot, OuterKept, Kept, Outside, Binnable;
    var r, n := p + a, NextOf(cs, p);
    NextTag(cs, segs, hdr, p);
    CutClear(cs, segs, hdr, p, a);
    EditsKeepLives(m, m', {p, r, n}, {}, Lives(cs) - {p});
    assert p !in bs && n in cs && cs[n].size > 0 by { BinnableAt(cs, bs, p); }
    SlotsMiss(cs, segs, hdr, bs, p, p);
    SlotsMiss(cs, segs, hdr, bs, p, r);
    SlotsMiss(cs, segs, hdr, bs, n, n);
    InSegment(cs, segs, hdr, p, p);
    InSegment(cs, segs, hdr, p, r);
    InSegment(cs, segs, hdr, n, n);
    EditsKeepOuter(m, m', {p, r, n}, {}, segs, hdr);
  }

  lemma BinnableAt(cs: Chunks, bs: map<int, nat>, x: int)
    requires Binnable(cs, bs) && x in cs && !cs[x].kind.Free?
    ensures x !in bs
  {
  }

  lemma CutNext(m': Mem, v: View, segs: seq<Segment>, hdr: int, p: int, a: int)
    requires Tile(v.cs, segs, hdr) && Shape(v.cs, segs) && Cuttable(v.cs, p, a) && Tagged(m', Cut(v.cs, p, a))
    requires Binnable(v.cs, v.bs)
    ensures forall x :: x in v.bs && x in {p, p + a, NextOf(v.cs, p)} ==> ChunkSize(m', x) == v.bs[x]
  {
    CutSpan(v.cs, segs, hdr, p, a);
    forall x | x in v.bs && x in {p, p + a, NextOf(v.cs, p)} ensures ChunkSize(m', x) == v.bs[x] {
      Placed(v.cs, segs, hdr, x);
      assert TagOk(m', Cut(v.cs, p, a), x);
      TagParts(m', Cut(v.cs, p, a), x);
    }
  }

  lemma CutClear(cs: Chunks, segs: seq<Segment>, hdr: int, p: int, a: int)
    requires Tile(cs, segs, hdr) && Shape(cs, segs) && Cuttable(cs, p, a)
    ensures Clear(Lives(cs) - {p}, {p, p + a, NextOf(cs, p)}, {})
  {
    var n, live := NextOf(cs, p), Lives(cs) - {p};
    NextTag(cs, segs, hdr, p);
    forall x | x in live ensures !(x < p < x + live[x]) && !(x < p + a < x + live[x]) && !(x < n < x + live[x]) {
      Disjoint(cs, segs, hdr, x, p);
      Disjoint(cs, segs, hdr, x, n);
    }
  }

  lemma CutRest(v: View, segs: seq<Segment>, hdr: int, least: int, p: int, a: int)
    requires Tile(v.cs, segs, hdr) && Shape(v.cs, segs) && Cuttable(v.cs, p, a) && Binnable(v.cs, v.bs)
    requires FreesBinned(v.cs, v.bs, v.dv)
    requires VictimOk(v.cs, v.dv, v.dvsize) && TopOk(v.cs, segs, v.top, v.topsize) && Above(v.cs, least)
    ensures var cs' := Cut(v.cs, p, a);
            && Binnable(cs', v.bs) && FreesBinned(cs', v.bs, v.dv)
            && VictimOk(cs', v.dv, v.dvsize) && TopOk(cs', segs, v.top, v.topsize) && Above(cs', least)
  {
    CutSpan(v.cs, segs, hdr, p, a);
    hide Cut, Tile, Shape;
  }
}
