/** A live chunk grows in place over the boundary to the next chunk (try_realloc_chunk). */
module Growth {
  import opened Memory
  import opened BinStore
  import opened Layout
  import opened Tags
  import opened HeapBase
  import opened HeapSteps

  /** Live chunk `p` can take `nb` bytes from itself and the next chunk, leaving a chunk of kind `k` or nothing. */
  ghost predicate Growable(cs: Chunks, p: int, nb: int, k: Kind) {
    && p in cs && cs[p].kind.Live? && NextOf(cs, p) in cs && NextOf(cs, NextOf(cs, p)) in cs
    && var n := NextOf(cs, p);
       var total := cs[p].size + cs[n].size;
       && cs[p].size > 0 && cs[n].size > 0 && nb % 16 == 0 && MIN_CHUNK_SIZE <= nb && cs[p].size < nb <= total
       && (if cs[n].kind.Top? then k.Top? && nb < total
           else Plain(cs[n].kind) && Plain(k) && (nb == total || nb + MIN_CHUNK_SIZE <= total))
       && (cs[n].kind.Live? ==> k.Live?)
  }

  function Grow(cs: Chunks, p: int, nb: int, k: Kind): Chunks
    requires p in cs && NextOf(cs, p) in cs && NextOf(cs, NextOf(cs, p)) in cs
    requires cs[p].size > 0 && cs[NextOf(cs, p)].size > 0 && 0 < nb <= cs[p].size + cs[NextOf(cs, p)].size
  {
    if nb == cs[p].size + cs[NextOf(cs, p)].size then Join(cs, p, Live) else Split(Join(cs, p, k), p, nb, Live, k)
  }

  /** What becomes of each chunk when `p` grows. */
  lemma GrowSpan(cs: Chunks, segs: seq<Segment>, hdr: int, p: int, nb: int, k: Kind)
    requires Tile(cs, segs, hdr) && Shape(cs, segs) && Growable(cs, p, nb, k)
    ensures var n, r := NextOf(cs, p), p + nb;
            var e, cs', rs := NextOf(cs, n), Grow(cs, p, nb, k), cs[p].size + cs[n].size - nb;
            && Tile(cs', segs, hdr) && Shape(cs', segs) && 0 !in cs
            && p in cs' && cs'[p] == cs[p].(size := nb) && n !in cs' && p < n < r && (rs > 0 ==> r < e)
            && (rs == 0 ==> r == e)
            && (rs > 0 ==> r !in cs && r in cs' && cs'[r].kind == k && cs'[r].size == rs && cs'[r].prev == p)
            && (forall x {:trigger x in cs'} {:trigger x in cs} ::
                  x in cs' <==> (x in cs && x != n) || (rs > 0 && x == r))
            && (forall x {:trigger cs'[x]} :: x in cs' && x != p && (rs == 0 || x != r) ==>
                  cs'[x].kind == cs[x].kind && cs'[x].size == cs[x].size)
  {
    var n := NextOf(cs, p);
    NoZero(cs, segs, hdr);
    NextTag(cs, segs, hdr, p);
    NextTag(cs, segs, hdr, n);
    NoneInside(cs, segs, hdr, p);
    NoneInside(cs, segs, hdr, n);
    if nb == cs[p].size + cs[n].size {
      ShapeAfterJoin(cs, segs, hdr, p, Live);
    } else {
      var cs1 := Join(cs, p, k);
      ShapeAfterJoin(cs, segs, hdr, p, k);
      ShapeAfterSplit(cs1, segs, hdr, p, nb, Live, k);
    }
  }

  lemma GrowKeeps(cs: Chunks, segs: seq<Segment>, hdr: int, p: int, nb: int, k: Kind)
    requires LayoutOk(cs, segs, hdr) && Growable(cs, p, nb, k)
    ensures LayoutOk(Grow(cs, p, nb, k), segs, hdr)
  {
    var n, r := NextOf(cs, p), p + nb;
    var e, cs' := NextOf(cs, n), Grow(cs, p, nb, k);
    GrowSpan(cs, segs, hdr, p, nb, k);
    NextTag(cs, segs, hdr, p);
    NextTag(cs, segs, hdr, n);
    assert Merged(cs, n);
    hide Tile, Shape, Grow;
    forall q | q in cs' ensures Merged(cs', q) {
      GrowMerged(cs, cs', segs, hdr, p, nb, k, q);
    }
  }

  lemma GrowMerged(cs: Chunks, cs': Chunks, segs: seq<Segment>, hdr: int, p: int, nb: int, k: Kind, q: int)
    requires LayoutOk(cs, segs, hdr) && Growable(cs, p, nb, k) && cs' == Grow(cs, p, nb, k) && q in cs'
    ensures Merged(cs', q)
  {
    var n := NextOf(cs, p);
    GrowSpan(cs, segs, hdr, p, nb, k);
    hide Tile, Shape, Grow;
    if q in cs {
      MergedAtQ(cs, q);
      At(cs, segs, hdr, q);
      NextTag(cs, segs, hdr, p);
    } else {
      MergedAtQ(cs, n);
      NextTag(cs, segs, hdr, n);
    }
  }

  lemma MergedAtQ(cs: Chunks, q: int)
    requires AllMerged(cs) && q in cs
    ensures Merged(cs, q)
  {
  }

  /** The tags are those of `p` grown to `nb` bytes. */
  ghost predicate GrowWritten(m: Mem, m': Mem, cs: Chunks, p: int, nb: int, k: Kind)
    requires p in cs && NextOf(cs, p) in cs
  {
    var n, r := NextOf(cs, p), p + nb;
    var e, rs := NextOf(cs, n), cs[p].size + cs[n].size - nb;
    && Head(m', p) == nb + Head(m, p) % 2 + 2
    && if rs == 0 then Edited(m, m', {p, e}, {}) && Head(m', e) == SetBit0(Head(m, e))
       else
         && Edited(m, m', {p, r, e}, if k.Free? then {e} else {}) && Head(m', r) == rs + (if k.Live? then 3 else 1)
         && Head(m', e) == (if k.Live? then SetBit0(Head(m, e)) else ClearBit0(Head(m, e)))
         && (k.Free? ==> Foot(m', e) == rs)
  }

  lemma GrowTagged(m: Mem, m': Mem, cs: Chunks, segs: seq<Segment>, hdr: int, p: int, nb: int, k: Kind)
    requires Tile(cs, segs, hdr) && Shape(cs, segs) && Growable(cs, p, nb, k) && Tagged(m, cs)
    requires GrowWritten(m, m', cs, p, nb, k)
    ensures Tagged(m', Grow(cs, p, nb, k))
  {
    hide Tile, Shape, Tagged;
    var n := NextOf(cs, p);
    var e, rs := NextOf(cs, n), cs[p].size + cs[n].size - nb;
    if rs == 0 {
      JoinTags(m, m', cs, segs, hdr, p);
    } else {
      assert Edited(m, m', {p, p + nb, e}, {e});
      GrowTags(m, m', cs, segs, hdr, p, nb, k);
    }
  }

  /** The addresses that growing `p` writes. */
  ghost function GrowHeads(cs: Chunks, p: int, nb: int): set<int>
    requires p in cs && NextOf(cs, p) in cs
  {
    {p, p + nb, NextOf(cs, NextOf(cs, p))}
  }

  lemma GrowFrame(
    m: Mem, m': Mem, cs: Chunks, bs: map<int, nat>, segs: seq<Segment>, hdr: int, p: int, nb: int, k: Kind
  )
    requires Tile(cs, segs, hdr) && Shape(cs, segs) && Growable(cs, p, nb, k) && GrowWritten(m, m', cs, p, nb, k)
    requires Binnable(cs, bs) && hdr > 0
    requires NextOf(cs, p) !in bs
    ensures var n := NextOf(cs, p);
            var e, hs := NextOf(cs, n), GrowHeads(cs, p, nb);
            && Edited(m, m', hs, {e}) && Kept(m, m', Lives(cs) - {p} - {n}) && SameWords(m, m', p + 16, p + cs[p].size)
            && OuterKept(m, m', segs, hdr)
            && (forall a :: a in hs || a in {e} ==> !LinkSlot(bs, hdr, a))
  {
    hide Tile, Shape, LinkSlot, Kept, OuterKept, Outside, Edited, Clear, SameWords, Binnable, GrowWritten;
    var n := NextOf(cs, p);
    var e, r, hs := NextOf(cs, n), p + nb, GrowHeads(cs, p, nb);
    GrowPlaces(cs, segs, hdr, p, nb, k);
    assert Edited(m, m', hs, {e}) by { GrowEdits(m, m', cs, p, nb, k); }
    GrowClear(cs, segs, hdr, p, nb, k);
    EditsKeepLives(m, m', hs, {e}, Lives(cs) - {p} - {n});
    BinnableAt(cs, bs, p);
    SlotsMiss(cs, segs, hdr, bs, p, p);
    SlotsMiss(cs, segs, hdr, bs, e, e);
    InSegment(cs, segs, hdr, p, p);
    InSegment(cs, segs, hdr, e, e);
    if r < e {
      SlotsMiss(cs, segs, hdr, bs, n, r);
      InSegment(cs, segs, hdr, n, r);
    }
    EditsKeepOuter(m, m', hs, {e}, segs, hdr);
    FarWords(m, m', hs, e, p, cs[p].size, nb);
  }

  lemma GrowPlaces(cs: Chunks, segs: seq<Segment>, hdr: int, p: int, nb: int, k: Kind)
    requires Tile(cs, segs, hdr) && Shape(cs, segs) && Growable(cs, p, nb, k)
    ensures var n := NextOf(cs, p);
            var e := NextOf(cs, n);
            p < n < p + nb <= e && cs[p].size > 0 && cs[n].size > 0 && cs[e].size > 0 && n == p + cs[p].size &&
            e == n + cs[n].size
  {
    NextTag(cs, segs, hdr, p);
    Placed(cs, segs, hdr, NextOf(cs, NextOf(cs, p)));
  }

  lemma GrowEdits(m: Mem, m': Mem, cs: Chunks, p: int, nb: int, k: Kind)
    requires p in cs && NextOf(cs, p) in cs && GrowWritten(m, m', cs, p, nb, k)
    ensures Edited(m, m', GrowHeads(cs, p, nb), {NextOf(cs, NextOf(cs, p))})
  {
    hide Lo, Hi;
  }

  lemma FarWords(m: Mem, m': Mem, hs: set<int>, e: int, p: int, s: int, nb: int)
    requires Edited(m, m', hs, {e}) && hs == {p, p + nb, e} && s < nb && p + nb <= e
    ensures SameWords(m, m', p + 16, p + s)
  {
    hide Lo, Hi;
  }

  lemma GrowClear(cs: Chunks, segs: seq<Segment>, hdr: int, p: int, nb: int, k: Kind)
    requires Tile(cs, segs, hdr) && Shape(cs, segs) && Growable(cs, p, nb, k)
    ensures var n := NextOf(cs, p); Clear(Lives(cs) - {p} - {n}, GrowHeads(cs, p, nb), {NextOf(cs, n)})
  {
    var n := NextOf(cs, p);
    var e, live := NextOf(cs, n), Lives(cs) - {p} - {n};
    NextTag(cs, segs, hdr, p);
    NextTag(cs, segs, hdr, n);
    At(cs, segs, hdr, e);
    forall x | x in live ensures !(x < p < x + live[x]) && !(x < p + nb < x + live[x]) && !(x < e <= x + live[x]) {
      Disjoint(cs, segs, hdr, x, p);
      Disjoint(cs, segs, hdr, x, n);
      Disjoint(cs, segs, hdr, x, e);
      EndsAt(cs, segs, hdr, x, e);
    }
  }

  /** The view of the heap after `p` grew: the next chunk was top, the victim, in a bin, or in use. */
  ghost predicate Grows(v: View, v': View, p: int, nb: int, k: Kind) {
    && Growable(v.cs, p, nb, k) && v'.cs == Grow(v.cs, p, nb, k)
    && var n := NextOf(v.cs, p);
       var rs := v.cs[p].size + v.cs[n].size - nb;
       if v.cs[n].kind.Top? then v' == v.(cs := v'.cs, top := p + nb, topsize := rs)
       else if n == v.dv then
         && v' == v.(cs := v'.cs, dv := if rs == 0 then 0 else p + nb, dvsize := rs) && (rs > 0 ==> k.Free?)
       else if v.cs[n].kind.Free? then v' == v.(cs := v'.cs, bs := v.bs - {n}) && (rs > 0 ==> k.Live?)
       else v' == v.(cs := v'.cs) && rs == 0
  }

  /** Chunk `p` has `nb` bytes, chunk `n` is gone, and `r`, if `rs` is not 0, is new. */
  ghost predicate GrewTo(cs: Chunks, cs': Chunks, p: int, n: int, r: int, nb: int, rs: int, k: Kind) {
    && p in cs && cs[p].kind.Live? && n in cs && !cs[n].kind.Fence? && 0 !in cs && p != n && n != r && p != r && rs >= 0
    && p in cs' && cs'[p] == cs[p].(size := nb) && n !in cs' && 0 < p <= r
    && (rs > 0 ==> r !in cs && r in cs' && cs'[r].kind == k && cs'[r].size == rs)
    && (forall x {:trigger x in cs'} {:trigger x in cs} :: x in cs' <==> (x in cs && x != n) || (rs > 0 && x == r))
    && (forall x {:trigger cs'[x]} :: x in cs' && x != p && (rs == 0 || x != r) ==>
          cs'[x].kind == cs[x].kind && cs'[x].size == cs[x].size)
  }

  lemma GrowGrewTo(v: View, v': View, segs: seq<Segment>, hdr: int, p: int, nb: int, k: Kind)
    requires Tile(v.cs, segs, hdr) && Shape(v.cs, segs) && Grows(v, v', p, nb, k)
    ensures var n := NextOf(v.cs, p); GrewTo(v.cs, v'.cs, p, n, p + nb, nb, v.cs[p].size + v.cs[n].size - nb, k)
  {
    GrowSpan(v.cs, segs, hdr, p, nb, k);
    NextTag(v.cs, segs, hdr, p);
  }

  lemma GrowBins(v: View, v': View, p: int, n: int, r: int, nb: int, rs: int, k: Kind)
    requires GrewTo(v.cs, v'.cs, p, n, r, nb, rs, k) && Binnable(v.cs, v.bs) && FreesBinned(v.cs, v.bs, v.dv)
    requires if v.cs[n].kind.Top? then v'.bs == v.bs && v'.dv == v.dv && (rs > 0 ==> k.Top?)
             else if n == v.dv then v'.bs == v.bs && v'.dv == (if rs == 0 then 0 else r) && (rs > 0 ==> k.Free?)
             else if v.cs[n].kind.Free? then v'.bs == v.bs - {n} && v'.dv == v.dv && (rs > 0 ==> k.Live?)
             else v'.bs == v.bs && v'.dv == v.dv && rs == 0
    ensures Binnable(v'.cs, v'.bs) && FreesBinned(v'.cs, v'.bs, v'.dv)
  {
    forall x | x in v'.bs ensures x in v'.cs && v'.cs[x].kind.Free? && v'.cs[x].size == v'.bs[x] {
      assert x in v.bs && x in v.cs;
    }
    forall x | x in v'.cs && v'.cs[x].kind.Free? ensures x in v'.bs <==> x != v'.dv {
      if x in v.cs { assert v.cs[x].kind.Free?; }
    }
  }

  lemma GrowRest(v: View, v': View, segs: seq<Segment>, hdr: int, least: int, p: int, nb: int, k: Kind)
    requires Tile(v.cs, segs, hdr) && Shape(v.cs, segs) && Grows(v, v', p, nb, k) && Binnable(v.cs, v.bs)
    requires FreesBinned(v.cs, v.bs, v.dv)
    requires VictimOk(v.cs, v.dv, v.dvsize) && TopOk(v.cs, segs, v.top, v.topsize) && Above(v.cs, least)
    ensures Binnable(v'.cs, v'.bs) && FreesBinned(v'.cs, v'.bs, v'.dv)
    ensures VictimOk(v'.cs, v'.dv, v'.dvsize) && TopOk(v'.cs, segs, v'.top, v'.topsize) && Above(v'.cs, least)
  {
    hide Tile, Shape, Grow, Binnable, FreesBinned;
    GrowGrewTo(v, v', segs, hdr, p, nb, k);
    var n := NextOf(v.cs, p);
    var rs := v.cs[p].size + v.cs[n].size - nb;
    GrowBins(v, v', p, n, p + nb, nb, rs, k);
    if v.dv != 0 && v.dv != n { assert v.dv in v'.cs && v'.cs[v.dv].kind.Free? && v'.cs[v.dv].size == v.dvsize; }
    if v.top != 0 && v.top != n && v.top in v.cs { assert v.top in v'.cs && v'.cs[v.top].kind == v.cs[v.top].kind; }
    if rs > 0 { assert p + nb in v'.cs; }
  }

  lemma GrowLives(v: View, v': View, segs: seq<Segment>, hdr: int, p: int, nb: int, k: Kind)
    requires Tile(v.cs, segs, hdr) && Shape(v.cs, segs) && Grows(v, v', p, nb, k)
    ensures var n := NextOf(v.cs, p);
            var live, rs := (Lives(v.cs) - {n})[p := nb], v.cs[p].size + v.cs[n].size - nb;
            && Lives(v'.cs) == (if rs > 0 && k.Live? then live[p + nb := rs] else live) && p in Lives(v.cs)
            && (rs > 0 ==> p + nb !in Lives(v.cs))
  {
    hide Tile, Shape, Grow, Grows;
    GrowGrewTo(v, v', segs, hdr, p, nb, k);
    GrowParts(v, v', p, nb, k);
    var n := NextOf(v.cs, p);
    var live, rs := (Lives(v.cs) - {n})[p := nb], v.cs[p].size + v.cs[n].size - nb;
    var l, l' := if rs > 0 && k.Live? then live[p + nb := rs] else live, Lives(v'.cs);
    assert forall x :: x in l' <==> x in l;
    assert forall x :: x in l ==> l[x] == l'[x];
  }

  lemma GrowParts(v: View, v': View, p: int, nb: int, k: Kind)
    requires Grows(v, v', p, nb, k)
    ensures p in v.cs && NextOf(v.cs, p) in v.cs
  {
  }

  /** Growing keeps the heap invariant, the bins and all payloads. */
  lemma GrowHeap(
    m: Mem, m2: Mem, m': Mem, v: View, v': View, segs: seq<Segment>, hdr: int, least: int, p: int, nb: int, k: Kind,
    smallmap: nat, treemap: nat, roots: seq<int>, tbin: int, g: Binned
  )
    requires HeapOk(m, v, segs, hdr, least) && Grows(v, v', p, nb, k) && OnlySlots(m, m2, v.bs, hdr)
    requires GrowWritten(m2, m', v.cs, p, nb, k)
    requires BinsOk(m2, smallmap, treemap, roots, hdr, tbin, g) && g.bs == v'.bs
    ensures HeapOk(m', v', segs, hdr, least) && BinsOk(m', smallmap, treemap, roots, hdr, tbin, g)
    ensures Kept(m, m', Lives(v.cs) - {p} - {NextOf(v.cs, p)}) && SameWords(m, m', p + 16, p + v.cs[p].size)
    ensures OuterKept(m, m', segs, hdr)
  {
    hide Tile, Shape, AllMerged, Tagged, LinkSlot, Kept, OuterKept, Edited, SameWords, BinsOk, OnlySlots, GrowWritten,
         Lives, FreesBinned, VictimOk, TopOk, Grow;
    var n, cs := NextOf(v.cs, p), v.cs;
    var e := NextOf(cs, n);
    GrowKeeps(cs, segs, hdr, p, nb, k);
    GrowRest(v, v', segs, hdr, least, p, nb, k);
    SlotsKeepTags(m, m2, cs, segs, hdr, v.bs);
    GrowTagged(m2, m', cs, segs, hdr, p, nb, k);
    NextUnbinned(v, v', p, nb, k);
    GrowFrame(m2, m', cs, v'.bs, segs, hdr, p, nb, k);
    GrowHeadsOk(m', v', segs, hdr, GrowHeads(cs, p, nb));
    EditsKeepBins(m2, m', GrowHeads(cs, p, nb), {e}, smallmap, treemap, roots, hdr, tbin, g);
    SlotsKeepLives(m, m2, cs, segs, hdr, v.bs);
    SlotsKeepOuter(m, m2, cs, segs, hdr, v.bs);
    OuterTrans(m, m2, m', segs, hdr);
    KeptPart(m, m2, Lives(cs), Lives(cs) - {p} - {n});
    KeptTrans(m, m2, m', Lives(cs) - {p} - {n});
    KeptOne(m, m2, cs, p);
    WordsTrans(m, m2, m', p + 16, p + cs[p].size);
  }

  lemma NextUnbinned(v: View, v': View, p: int, nb: int, k: Kind)
    requires Grows(v, v', p, nb, k) && Binnable(v.cs, v.bs) && FreesBinned(v.cs, v.bs, v.dv)
    ensures NextOf(v.cs, p) !in v'.bs && Binnable(v.cs, v'.bs)
  {
  }

  lemma GrowHeadsOk(m': Mem, v': View, segs: seq<Segment>, hdr: int, hs: set<int>)
    requires Tile(v'.cs, segs, hdr) && Shape(v'.cs, segs) && Tagged(m', v'.cs) && Binnable(v'.cs, v'.bs)
    ensures forall x :: x in v'.bs && x in hs ==> SizeOf(Head(m', x)) == v'.bs[x]
  {
    forall x | x in v'.bs && x in hs ensures SizeOf(Head(m', x)) == v'.bs[x] {
      Placed(v'.cs, segs, hdr, x);
      assert TagOk(m', v'.cs, x);
      TagParts(m', v'.cs, x);
    }
  }

  lemma KeptOne(m: Mem, m': Mem, cs: Chunks, p: int)
    requires Kept(m, m', Lives(cs)) && p in cs && cs[p].kind.Live?
    ensures SameWords(m, m', p + 16, p + cs[p].size)
  {
    assert p in Lives(cs) && Lives(cs)[p] == cs[p].size;
  }

  lemma WordsTrans(m: Mem, m1: Mem, m2: Mem, a: int, b: int)
    requires SameWords(m, m1, a, b) && SameWords(m1, m2, a, b)
    ensures SameWords(m, m2, a, b)
  {
  }

  // ---- the writes of try_realloc_chunk --------------------------------------------------------------------

  lemma GrowTopWritten(m: Mem, cs: Chunks, segs: seq<Segment>, hdr: int, p: int, nb: int)
    requires Tile(cs, segs, hdr) && Shape(cs, segs) && Tagged(m, cs) && Growable(cs, p, nb, Top)
    ensures var rs := cs[p].size + cs[NextOf(cs, p)].size - nb;
            GrowWritten(m, SetHead(SetInuse(m, p, nb), p + nb, rs + 1), cs, p, nb, Top)
  {
    var n := NextOf(cs, p);
    NextTag(cs, segs, hdr, n);
    assert TagOk(m, cs, NextOf(cs, n));
    PinWord(cs, cs, NextOf(cs, n));
    GrowPlaces(cs, segs, hdr, p, nb, Top);
    hide Tile, Shape, Tagged, SetBit0, ClearBit0;
    SetInuseEdits(m, p, nb);
  }

  lemma GrowDvWritten(m: Mem, cs: Chunks, segs: seq<Segment>, hdr: int, p: int, nb: int)
    requires Tile(cs, segs, hdr) && Shape(cs, segs) && Growable(cs, p, nb, Free)
    requires nb < cs[p].size + cs[NextOf(cs, p)].size
    ensures var n := NextOf(cs, p);
            var rs := cs[p].size + cs[n].size - nb;
            GrowWritten(m, ClearPinuse(SetFreeHead(SetInuse(m, p, nb), p + nb, rs), p + nb + rs), cs, p, nb, Free)
  {
    GrowPlaces(cs, segs, hdr, p, nb, Free);
    hide Tile, Shape, SetBit0, ClearBit0;
    SetInuseEdits(m, p, nb);
  }

  lemma GrowWholeWritten(m: Mem, cs: Chunks, segs: seq<Segment>, hdr: int, p: int, k: Kind)
    requires Tile(cs, segs, hdr) && Shape(cs, segs) && p in cs && NextOf(cs, p) in cs
    requires Growable(cs, p, cs[p].size + cs[NextOf(cs, p)].size, k)
    ensures var s := cs[p].size + cs[NextOf(cs, p)].size; GrowWritten(m, SetInuse(m, p, s), cs, p, s, k)
  {
    var s := cs[p].size + cs[NextOf(cs, p)].size;
    hide Tile, Shape, SetBit0, SetInuse;
    SetInuseEdits(m, p, s);
  }

  lemma GrowLiveWritten(m: Mem, cs: Chunks, segs: seq<Segment>, hdr: int, p: int, nb: int)
    requires Tile(cs, segs, hdr) && Shape(cs, segs) && Growable(cs, p, nb, Live)
    requires nb < cs[p].size + cs[NextOf(cs, p)].size
    ensures var rs := cs[p].size + cs[NextOf(cs, p)].size - nb;
            GrowWritten(m, SetInuse(SetInuse(m, p, nb), p + nb, rs), cs, p, nb, Live)
  {
    var n, r := NextOf(cs, p), p + nb;
    var e, rs, m1 := NextOf(cs, n), cs[p].size + cs[n].size - nb, SetInuse(m, p, nb);
    GrowPlaces(cs, segs, hdr, p, nb, Live);
    assert SetBit0(Head(m, r)) % 2 == 1;
    hide Tile, Shape, SetBit0, SetInuse;
    SetInuseEdits(m, p, nb);
    SetInuseEdits(m1, r, rs);
    EditedTrans(m, m1, SetInuse(m1, r, rs), {p, r}, {}, {r, e}, {});
    var none: set<int> := {};
    assert {p, r} + {r, e} == {p, r, e} && none + none == none;
  }
}
