/** What growing, closing and shrinking segments does to tags, bins and payloads. */
module SegmentSteps {
  import opened Memory
  import opened BinStore
  import opened Layout
  import opened Tags
  import opened HeapBase
  import opened HeapSteps
  import opened Segments

  /** `segs'` differs from `segs` in the current segment only, and not in its base. */
  ghost predicate SameBut(segs: seq<Segment>, segs': seq<Segment>, i: nat) {
    && |segs'| == |segs| && i < |segs| && segs'[i].base == segs[i].base
    && forall j :: 0 <= j < |segs| && j != i ==> segs'[j] == segs[j]
  }

  /** The edits lie in the end of the current segment, from `p` on. */
  ghost predicate EditsAt(hs: set<int>, ls: set<int>, p: int, end: int) {
    && (forall a {:trigger a in hs} :: a in hs ==> p <= a < end)
    && (forall a {:trigger a in ls} :: a in ls ==> p < a < end)
  }

  lemma ResettleTags(
    m: Mem, m': Mem, cs: Chunks, segs: seq<Segment>, segs': seq<Segment>, hdr: int, p: int, d: Chunks, hs: set<int>,
    ls: set<int>
  )
    requires Tile(cs, segs, hdr) && Shape(cs, segs) && p in cs && cs[p].kind.Top? && SegsOk(segs', hdr)
    requires SameBut(segs, segs', cs[p].seg)
    requires Tagged(m, cs) && Edited(m, m', hs, ls) && EditsAt(hs, ls, p, End(segs'[cs[p].seg]))
    requires forall q {:trigger q in d} :: q in d ==> TagOk(m', Resettle(cs, p, d), q) && p <= q < End(segs'[cs[p].seg])
    requires p in d
    ensures Tagged(m', Resettle(cs, p, d))
  {
    var cs', e := Resettle(cs, p, d), NextOf(cs, p);
    NextTag(cs, segs, hdr, p);
    forall q | q in cs' ensures TagOk(m', cs', q) {
      if q !in d {
        hide Tagged, Tile, Shape, TagOk, Edited;
        assert TagOk(m, cs, q) by { TaggedAt(m, cs, q); }
        LastTwo(cs, segs, hdr, p, q);
        Separate(cs, segs, segs', hdr, p, q);
        At(cs, segs, hdr, q);
        Placed(cs, segs, hdr, q);
        if cs[q].prev != 0 {
          Separate(cs, segs, segs', hdr, p, cs[q].prev);
          Placed(cs, segs, hdr, cs[q].prev);
        }
        assert SameTag(cs, cs', q);
        SameTagOk(m, m', cs, cs', q, hs, ls);
      }
    }
  }

  lemma TaggedAt(m: Mem, cs: Chunks, q: int)
    requires Tagged(m, cs) && q in cs
    ensures TagOk(m, cs, q)
  {
  }


  lemma SameTagOk(m: Mem, m': Mem, cs: Chunks, cs': Chunks, q: int, hs: set<int>, ls: set<int>)
    requires q in cs && q in cs' && TagOk(m, cs, q) && SameTag(cs, cs', q) && Edited(m, m', hs, ls) && q !in hs
    requires cs[q].kind.Free? ==> q + cs[q].size !in ls
    ensures TagOk(m', cs', q)
  {
  }

  /** Such edits miss the bins, the payloads and everything outside the segments. */
  lemma ResettleFrame(
    m: Mem, m': Mem, cs: Chunks, bs: map<int, nat>, segs: seq<Segment>, segs': seq<Segment>, hdr: int, p: int,
    hs: set<int>, ls: set<int>
  )
    requires Tile(cs, segs, hdr) && Shape(cs, segs) && p in cs && cs[p].kind.Top? && SegsOk(segs', hdr)
    requires SameBut(segs, segs', cs[p].seg)
    requires Binnable(cs, bs) && hdr > 0 && Edited(m, m', hs, ls) && EditsAt(hs, ls, p, End(segs'[cs[p].seg]))
    ensures Kept(m, m', Lives(cs)) && OuterKept(m, m', segs', hdr)
    ensures forall a :: a in hs || a in ls ==> !LinkSlot(bs, hdr, a)
    ensures forall a :: a in hs ==> a !in bs
  {
    hide LinkSlot, Kept, OuterKept, Edited;
    At(cs, segs, hdr, p);
    NextTag(cs, segs, hdr, p);
    forall a | a in hs || a in ls ensures !LinkSlot(bs, hdr, a) && !Outside(segs', hdr, a) && a !in bs {
      EndSlot(cs, bs, segs, segs', hdr, p, a);
    }
    EditsKeepOuter(m, m', hs, ls, segs', hdr);
    var live := Lives(cs);
    forall x, a | x in live && (a in hs || a in ls)
      ensures !(x < a < x + live[x]) && (a in ls ==> !(x < a <= x + live[x]))
    {
      Separate(cs, segs, segs', hdr, p, x);
      EndsAt(cs, segs, hdr, x, p);
    }
    EditsKeepLives(m, m', hs, ls, live);
  }

  lemma EndSlot(cs: Chunks, bs: map<int, nat>, segs: seq<Segment>, segs': seq<Segment>, hdr: int, p: int, a: int)
    requires Tile(cs, segs, hdr) && Shape(cs, segs) && p in cs && cs[p].kind.Top? && SegsOk(segs', hdr)
    requires SameBut(segs, segs', cs[p].seg)
    requires Binnable(cs, bs) && hdr > 0 && p <= a < End(segs'[cs[p].seg])
    ensures !LinkSlot(bs, hdr, a) && !Outside(segs', hdr, a) && a !in bs
  {
    var i := cs[p].seg;
    At(cs, segs, hdr, p);
    NextTag(cs, segs, hdr, p);
    assert segs'[i].base <= a < End(segs'[i]);
    SpacedIn(cs, segs, hdr, bs);
    forall x | x in bs ensures !(x <= a < x + bs[x]) { Separate(cs, segs, segs', hdr, p, x); }
  }

  lemma ResettleLives(cs: Chunks, p: int, d: Chunks)
    requires p in cs && !cs[p].kind.Live? && (NextOf(cs, p) in cs ==> !cs[NextOf(cs, p)].kind.Live?)
    requires forall q {:trigger q in d} :: q in d ==> !d[q].kind.Live? && (q in cs ==> !cs[q].kind.Live?)
    ensures Lives(Resettle(cs, p, d)) == Lives(cs)
  {
    var l, l' := Lives(cs), Lives(Resettle(cs, p, d));
    assert forall x :: x in l' <==> x in l;
    assert forall x :: x in l ==> l[x] == l'[x];
  }

  // ---- top grows or shrinks -------------------------------------------------------------------------------

  /** init_top on an aligned chunk. */
  function TopWritten(m: Mem, p: int, t: int): Mem { SetHead(SetHead(m, p, t + 1), p + t, TOP_FOOT_SIZE) }

  lemma MoveEndHeap(m: Mem, v: View, v': View, segs: seq<Segment>, segs': seq<Segment>, hdr: int, least: int, t: int)
    requires HeapOk(m, v, segs, hdr, least) && v.top in v.cs && v.cs[v.top].seg < |segs| && 16 <= t && t % 16 == 0
    requires SegsOk(segs', hdr) && v' == v.(cs := Resettle(v.cs, v.top, TopEnd(v.cs, v.top, t)), topsize := t)
    requires var i := v.cs[v.top].seg; segs' == segs[i := segs[i].(size := segs[i].size + t - v.topsize)]
    ensures var m' := TopWritten(m, v.top, t);
            && HeapOk(m', v', segs', hdr, least) && Kept(m, m', Lives(v.cs)) && Lives(v'.cs) == Lives(v.cs)
            && OuterKept(m, m', segs', hdr)
            && Edited(m, m', {v.top, v.top + t}, {}) && !LinkSlot(v.bs, hdr, v.top) && !LinkSlot(v.bs, hdr, v.top + t)
            && v.top !in v.bs && v.top + t !in v.bs
  {
    var p, i, cs, cs', m' := v.top, v.cs[v.top].seg, v.cs, v'.cs, TopWritten(m, v.top, t);
    var d, e := TopEnd(cs, p, t), NextOf(cs, p);
    NoZero(cs, segs, hdr);
    MoveEnd(cs, segs, segs', hdr, p, t);
    NextTag(cs, segs, hdr, p);
    At(cs, segs, hdr, p);
    At(cs, segs, hdr, e);
    FreeFollowsUse(cs, segs, hdr, p);
    PrevBefore(cs, segs, hdr, p);
    assert cs'[p] == d[p] && cs'[p + t] == d[p + t];
    assert TagOk(m', cs', p) && TagOk(m', cs', p + t);
    hide Tile, Shape, AllMerged, TopWritten, Tagged, Kept, OuterKept, LinkSlot;
    assert Edited(m, m', {p, p + t}, {}) by { TopWrittenEdits(m, p, t); }
    ResettleTags(m, m', cs, segs, segs', hdr, p, d, {p, p + t}, {});
    ResettleFrame(m, m', cs, v.bs, segs, segs', hdr, p, {p, p + t}, {});
    MoveEndRest(v, v', segs, segs', hdr, least, t);
  }

  lemma TopWrittenEdits(m: Mem, p: int, t: int)
    ensures Edited(m, TopWritten(m, p, t), {p, p + t}, {})
  {
  }

  lemma MoveEndRest(v: View, v': View, segs: seq<Segment>, segs': seq<Segment>, hdr: int, least: int, t: int)
    requires LayoutOk(v.cs, segs, hdr) && v.top in v.cs && NextOf(v.cs, v.top) in v.cs && v.cs[v.top].kind.Top?
    requires v.cs[NextOf(v.cs, v.top)].kind.Tail?
    requires v' == v.(cs := Resettle(v.cs, v.top, TopEnd(v.cs, v.top, t)), topsize := t) && 16 <= t
    requires SegsOk(segs', hdr)
    requires SameBut(segs, segs', v.cs[v.top].seg) && End(segs'[v.cs[v.top].seg]) == v.top + t + TOP_FOOT_SIZE
    requires Binnable(v.cs, v.bs) && FreesBinned(v.cs, v.bs, v.dv) && VictimOk(v.cs, v.dv, v.dvsize)
    requires TopOk(v.cs, segs, v.top, v.topsize)
    requires Above(v.cs, least)
    ensures Binnable(v'.cs, v'.bs) && FreesBinned(v'.cs, v'.bs, v'.dv) && VictimOk(v'.cs, v'.dv, v'.dvsize)
    ensures TopOk(v'.cs, segs', v'.top, v'.topsize) && Above(v'.cs, least) && Lives(v'.cs) == Lives(v.cs)
  {
    var p, cs, cs', d := v.top, v.cs, v'.cs, TopEnd(v.cs, v.top, t);
    forall q | q in cs && q != p && q != NextOf(cs, p) ensures q != p + t {
      Separate(cs, segs, segs', hdr, p, q);
      Placed(cs, segs, hdr, q);
    }
    hide LayoutOk, SegsOk;
    ResettleLives(cs, p, d);
  }

  // ---- a new segment -----------------------------------------------------------------------------------------------

  lemma AddTopTags(m: Mem, m': Mem, cs: Chunks, segs: seq<Segment>, hdr: int, s: Segment, t: int)
    requires Tile(cs, segs, hdr) && Shape(cs, segs) && Fits(segs, hdr, s) && Tagged(m, cs)
    requires First(s) + t + TOP_FOOT_SIZE == End(s) && 16 <= t && First(s) !in cs && First(s) + t !in cs
    requires Edited(m, m', {First(s), First(s) + t}, {}) && Head(m', First(s)) == t + 1
    requires Head(m', First(s) + t) == TOP_FOOT_SIZE
    ensures Tagged(m', WithTop(cs, First(s), t, 0, |segs|))
  {
    hide First, Edited, Tile, Shape, SegsOk;
    var p := First(s);
    var cs' := WithTop(cs, p, t, 0, |segs|);
    FirstBounds(s) by { ApartFacts(segs, hdr, s); }
    assert TagOk(m', cs', p) && TagOk(m', cs', p + t);
    forall q | q in cs' && q != p && q != p + t ensures TagOk(m', cs', q) {
      assert TagOk(m, cs, q) by { TaggedAt(m, cs, q); }
      NoZero(cs, segs, hdr);
      At(cs, segs, hdr, q);
      assert SameTag(cs, cs', q);
      SameTagOk(m, m', cs, cs', q, {p, p + t}, {});
    }
  }

  lemma AddTopFrame(m: Mem, m': Mem, cs: Chunks, bs: map<int, nat>, segs: seq<Segment>, hdr: int, s: Segment, t: int)
    requires Tile(cs, segs, hdr) && Shape(cs, segs) && Fits(segs, hdr, s) && Binnable(cs, bs) && hdr > 0
    requires First(s) + t + TOP_FOOT_SIZE == End(s) && 16 <= t && Edited(m, m', {First(s), First(s) + t}, {})
    ensures Kept(m, m', Lives(cs)) && OuterKept(m, m', segs + [s], hdr)
    ensures !LinkSlot(bs, hdr, First(s)) && !LinkSlot(bs, hdr, First(s) + t) && First(s) !in bs && First(s) + t !in bs
  {
    hide First, Edited, Kept, OuterKept, LinkSlot;
    var p := First(s);
    FirstBounds(s) by { ApartFacts(segs, hdr, s); }
    forall a | a in {p, p + t}
      ensures !LinkSlot(bs, hdr, a) && !Outside(segs + [s], hdr, a) && a !in bs && s.base <= a < End(s)
    {
      NewSlot(cs, bs, segs, hdr, s, a);
    }
    assert p in {p, p + t} && p + t in {p, p + t};
    EditsKeepOuter(m, m', {p, p + t}, {}, segs + [s], hdr);
    var live := Lives(cs);
    NotThere(cs, segs, hdr, s, p);
    NotThere(cs, segs, hdr, s, p + t);
    EditsKeepLives(m, m', {p, p + t}, {}, live);
  }

  lemma NewSlot(cs: Chunks, bs: map<int, nat>, segs: seq<Segment>, hdr: int, s: Segment, a: int)
    requires Tile(cs, segs, hdr) && Shape(cs, segs) && Fits(segs, hdr, s) && Binnable(cs, bs) && hdr > 0
    requires s.base <= a < End(s)
    ensures !LinkSlot(bs, hdr, a) && !Outside(segs + [s], hdr, a) && a !in bs
  {
    SpacedIn(cs, segs, hdr, bs);
    NotThere(cs, segs, hdr, s, a);
    assert (segs + [s])[|segs|] == s;
    forall x | x in bs ensures !(x <= a < x + bs[x]) { assert x in cs; }
  }

  /** The first segment. */
  lemma FirstHeap(m: Mem, v: View, v': View, hdr: int, least: int, least': int, s: Segment, t: int)
    requires HeapOk(m, v, [], hdr, least) && Fits([], hdr, s) && least' <= s.base
    requires First(s) + t + TOP_FOOT_SIZE == End(s) && 16 <= t
    requires v' == v.(cs := WithTop(map[], First(s), t, 0, 0), top := First(s), topsize := t)
    ensures var m' := TopWritten(m, First(s), t);
            && HeapOk(m', v', [s], hdr, least') && OuterKept(m, m', [s], hdr) && Lives(v'.cs) == map[] == Lives(v.cs)
            && Edited(m, m', {First(s), First(s) + t}, {}) && v'.bs == map[] && !LinkSlot(map[], hdr, First(s))
            && !LinkSlot(map[], hdr, First(s) + t)
  {
    hide First, LinkSlot;
    var m' := TopWritten(m, First(s), t);
    assert forall x :: x !in v.bs;
    assert [] + [s] == [s];
    AddTop(map[], [], hdr, s, t);
    TopWrittenEdits(m, First(s), t);
    FirstBounds(s);
    hide Edited, Tile, Shape, AllMerged, Kept, OuterKept;
    AddTopTags(m, m', map[], [], hdr, s, t);
    AddTopFrame(m, m', map[], map[], [], hdr, s, t);
  }

  // ---- closing the current segment and adding another ---------------------------------------------------------------

  /** The tags of a closed segment end: the rest of top as a free chunk, the segment record, the first fencepost. */
  ghost predicate ClosedWritten(m: Mem, cs: Chunks, p: int)
    requires p in cs
  {
    var t := cs[p].size;
    var e := p + t;
    if t >= MIN_CHUNK_SIZE then
      Head(m, p) == t + 1 && Foot(m, e) == t && Head(m, e) == 50 && Head(m, e + 48) == FENCEPOST_HEAD
    else Head(m, p) == 51 && Head(m, p + 48) == FENCEPOST_HEAD
  }

  function Closed(cs: Chunks, p: int): Chunks
    requires p in cs
  {
    Resettle(cs, p, ClosedEnd(cs, p))
  }

  function ClosedSegs(segs: seq<Segment>, cs: Chunks, p: int): seq<Segment>
    requires p in cs && cs[p].seg < |segs|
  {
    segs[cs[p].seg := segs[cs[p].seg].(rec := RecordAt(cs, p))]
  }

  lemma CloseTags(m: Mem, m': Mem, v: View, segs: seq<Segment>, hdr: int, least: int, hs: set<int>, ls: set<int>)
    requires HeapOk(m, v, segs, hdr, least) && v.top in v.cs && v.cs[v.top].seg < |segs|
    requires Edited(m, m', hs, ls) && EditsAt(hs, ls, v.top, End(segs[v.cs[v.top].seg]))
    requires ClosedWritten(m', v.cs, v.top)
    ensures Tagged(m', Closed(v.cs, v.top)) && LayoutOk(Closed(v.cs, v.top), ClosedSegs(segs, v.cs, v.top), hdr)
    ensures NoTop(Closed(v.cs, v.top))
    ensures SameBut(segs, ClosedSegs(segs, v.cs, v.top), v.cs[v.top].seg) && SegsOk(ClosedSegs(segs, v.cs, v.top), hdr)
  {
    var p, i, cs, d, segs' := v.top, v.cs[v.top].seg, v.cs, ClosedEnd(v.cs, v.top), ClosedSegs(segs, v.cs, v.top);
    NoZero(cs, segs, hdr);
    NextTag(cs, segs, hdr, p);
    At(cs, segs, hdr, p);
    FreeFollowsUse(cs, segs, hdr, p);
    CloseTop(cs, segs, segs', hdr, p);
    hide Tagged, AllMerged, LayoutOk, Edited;
    RecordSegs(segs, hdr, i, RecordAt(cs, p)) by { TileSegs(cs, segs, hdr); }
    EndPrev(cs, segs, segs', hdr, p, d);
    PrevBefore(cs, segs, hdr, p);
    hide Tile, Shape, SegsOk;
    assert PrevInUse(Closed(cs, p), p) by { PrevStays(cs, segs', p, d); }
    forall q | q in d ensures TagOk(m', Closed(cs, p), q) && p <= q < End(segs'[i]) { ClosedTagOk(m', cs, p, q); }
    ResettleTags(m, m', cs, segs, segs', hdr, p, d, hs, ls);
  }

  lemma PrevStays(cs: Chunks, segs': seq<Segment>, p: int, d: Chunks)
    requires p in cs && p in d && d[p].prev == cs[p].prev && d[p].seg < |segs'| && PrevInUse(cs, p) && cs[p].kind.Top?
    requires 0 < cs[p].size
    requires forall q {:trigger q in d} :: q in d ==> p <= q
    requires cs[p].prev == 0 || cs[p].prev < p
    ensures p in Resettle(cs, p, d) && PrevInUse(Resettle(cs, p, d), p)
  {
  }

  lemma ClosedTagOk(m: Mem, cs: Chunks, p: int, q: int)
    requires p in cs && ClosedWritten(m, cs, p) && q in ClosedEnd(cs, p) && 0 < cs[p].size && 0 < p
    requires PrevInUse(Closed(cs, p), p)
    ensures TagOk(m, Closed(cs, p), q)
  {
    var cs', d := Closed(cs, p), ClosedEnd(cs, p);
    assert forall x :: x in d ==> cs'[x] == d[x];
  }

  /** The segment list and the view after add_segment; `bs'` also holds what is left of the old top. */
  ghost predicate Adds(v: View, v': View, segs: seq<Segment>, segs': seq<Segment>, s: Segment) {
    && v.top in v.cs && v.cs[v.top].seg < |segs| && segs' == ClosedSegs(segs, v.cs, v.top) + [s]
    && var t := End(s) - TOP_FOOT_SIZE - First(s);
       && 16 <= t && v'.cs == WithTop(Closed(v.cs, v.top), First(s), t, 0, |segs|) && v'.top == First(s)
       && v'.topsize == t
       && v'.bs == (if v.topsize >= MIN_CHUNK_SIZE then v.bs[v.top := v.topsize] else v.bs)
       && v'.dv == v.dv && v'.dvsize == v.dvsize
  }

  lemma AddsTags(
    m: Mem, m3: Mem, v: View, v': View, segs: seq<Segment>, segs': seq<Segment>, hdr: int, least: int, s: Segment,
    hs: set<int>, ls: set<int>
  )
    requires HeapOk(m, v, segs, hdr, least) && v.topsize >= 0 && Adds(v, v', segs, segs', s) && Fits(segs, hdr, s)
    requires EditsAt(hs, ls, v.top, End(segs[v.cs[v.top].seg])) && Edited(m, m3, hs + {v'.top, v'.top + v'.topsize}, ls)
    requires ClosedWritten(m3, v.cs, v.top) && Head(m3, v'.top) == v'.topsize + 1
    requires Head(m3, v'.top + v'.topsize) == TOP_FOOT_SIZE
    ensures Tagged(m3, v'.cs) && LayoutOk(v'.cs, segs', hdr)
    ensures Kept(m, m3, Lives(v.cs)) && OuterKept(m, m3, segs', hdr)
    ensures forall a :: a in hs || a in ls || a == v'.top || a == v'.top + v'.topsize ==>
      !LinkSlot(v.bs, hdr, a) && a !in v.bs
  {
    hide First, Tile, Shape, AllMerged, Tagged, Kept, OuterKept, LinkSlot, SegsOk, Fits, WithTop, Closed, Edited,
         EditsAt, ClosedWritten, SetHead;
    var f, t, p, i := v'.top, v'.topsize, v.top, v.cs[v.top].seg;
    var mA := SetHead(SetHead(m3, f, Head(m, f)), f + t, Head(m, f + t));
    ClosedTop(m, v, segs, hdr, least);
    FirstBounds(s) by { ApartFacts(segs, hdr, s); }
    FarApart(segs, hdr, s, i) by { TileSegs(v.cs, segs, hdr); }
    UndoTop(m, m3, hs, ls, f, t);
    UndoClosed(m3, v.cs, p, f, Head(m, f), f + t, Head(m, f + t));
    CloseTags(m, mA, v, segs, hdr, least, hs, ls);
    var cs1, segs1 := Closed(v.cs, p), ClosedSegs(segs, v.cs, p);
    FitsClosed(segs, hdr, s, i, RecordAt(v.cs, p));
    AddTop(cs1, segs1, hdr, s, t);
    AddTopTags(mA, m3, cs1, segs1, hdr, s, t);
    AddsFrame(m, mA, m3, v.cs, v.bs, segs, hdr, s, p, t, hs, ls);
  }

  /** The writes of add_segment miss the bins, the payloads and everything outside the segments. */
  lemma AddsFrame(
    m: Mem, mA: Mem, m3: Mem, cs: Chunks, bs: map<int, nat>, segs: seq<Segment>, hdr: int, s: Segment, p: int, t: int,
    hs: set<int>, ls: set<int>
  )
    requires Tile(cs, segs, hdr) && Shape(cs, segs) && Binnable(cs, bs) && hdr > 0 && Fits(segs, hdr, s)
    requires p in cs && cs[p].kind.Top? && cs[p].seg < |segs| && SegsOk(ClosedSegs(segs, cs, p), hdr)
    requires SameBut(segs, ClosedSegs(segs, cs, p), cs[p].seg)
    requires Edited(m, mA, hs, ls) && Edited(mA, m3, {First(s), First(s) + t}, {})
    requires EditsAt(hs, ls, p, End(ClosedSegs(segs, cs, p)[cs[p].seg]))
    requires First(s) + t + TOP_FOOT_SIZE == End(s) && 16 <= t
    ensures Kept(m, m3, Lives(cs)) && OuterKept(m, m3, ClosedSegs(segs, cs, p) + [s], hdr)
    ensures forall a :: a in hs || a in ls || a == First(s) || a == First(s) + t ==> !LinkSlot(bs, hdr, a) && a !in bs
  {
    hide First, Tile, Shape, Kept, OuterKept, LinkSlot, SegsOk, Fits, Edited, EditsAt, SameBut, Binnable, Lives;
    var segs1 := ClosedSegs(segs, cs, p);
    ResettleFrame(m, mA, cs, bs, segs, segs1, hdr, p, hs, ls);
    AddTopFrame(mA, m3, cs, bs, segs, hdr, s, t);
    KeptTrans(m, mA, m3, Lives(cs));
    SameSegsOuter(mA, m3, segs, segs1, s, hdr, cs[p].seg);
    MoreOuter(m, mA, segs1, s, hdr);
    OuterTrans(m, mA, m3, segs1 + [s], hdr);
    EndSlots(cs, bs, segs, segs1, hdr, p, hs, ls);
  }

  lemma EndSlots(
    cs: Chunks, bs: map<int, nat>, segs: seq<Segment>, segs': seq<Segment>, hdr: int, p: int, hs: set<int>,
    ls: set<int>
  )
    requires Tile(cs, segs, hdr) && Shape(cs, segs) && p in cs && cs[p].kind.Top? && SegsOk(segs', hdr)
    requires SameBut(segs, segs', cs[p].seg)
    requires Binnable(cs, bs) && hdr > 0 && EditsAt(hs, ls, p, End(segs'[cs[p].seg]))
    ensures forall a :: a in hs || a in ls ==> !LinkSlot(bs, hdr, a) && a !in bs
  {
    forall a | a in hs || a in ls ensures !LinkSlot(bs, hdr, a) && a !in bs {
      EndSlot(cs, bs, segs, segs', hdr, p, a) by { hide Tile, Shape, SegsOk, SameBut, Binnable; }
    }
  }

  /** The writes that close a segment survive writes elsewhere. */
  lemma UndoClosed(m: Mem, cs: Chunks, p: int, f: int, x: int, g: int, y: int)
    requires p in cs && ClosedWritten(m, cs, p) && cs[p].size > 0
    requires !(p <= f < p + cs[p].size + TOP_FOOT_SIZE) && !(p <= g < p + cs[p].size + TOP_FOOT_SIZE)
    ensures ClosedWritten(SetHead(SetHead(m, f, x), g, y), cs, p)
  {
  }

  lemma UndoTop(m: Mem, m3: Mem, hs: set<int>, ls: set<int>, f: int, t: int)
    requires Edited(m, m3, hs + {f, f + t}, ls)
    ensures var mA := SetHead(SetHead(m3, f, Head(m, f)), f + t, Head(m, f + t));
      Edited(m, mA, hs, ls) && Edited(mA, m3, {f, f + t}, {})
  {
    var mA := SetHead(SetHead(m3, f, Head(m, f)), f + t, Head(m, f + t));
    forall a | a !in hs ensures Hi(mA, a) == Hi(m, a) {
      if a != f && a != f + t { assert a !in hs + {f, f + t}; }
    }
  }

  lemma ClosedTop(m: Mem, v: View, segs: seq<Segment>, hdr: int, least: int)
    requires HeapOk(m, v, segs, hdr, least) && v.top in v.cs && v.cs[v.top].seg < |segs|
    ensures segs != [] && v.cs[v.top].kind.Top? && v.cs[v.top].size == v.topsize && v.cs[v.top].seg == |segs| - 1
    ensures 0 < v.topsize && v.topsize % 16 == 0
    ensures v.top + v.topsize + TOP_FOOT_SIZE == End(segs[|segs| - 1]) && segs[|segs| - 1].base <= v.top
    ensures v.top % 16 == 0 && least <= v.top
    ensures v.top !in v.bs && v.top + v.topsize !in v.bs && 0 < v.top
  {
    NoZero(v.cs, segs, hdr);
    NextTag(v.cs, segs, hdr, v.top);
    At(v.cs, segs, hdr, v.top);
    At(v.cs, segs, hdr, NextOf(v.cs, v.top));
  }

  lemma FarApart(segs: seq<Segment>, hdr: int, s: Segment, i: nat)
    requires SegsOk(segs, hdr) && Fits(segs, hdr, s) && i < |segs|
    ensures End(segs[i]) <= s.base || End(s) <= segs[i].base
  {
  }

  lemma FitsClosed(segs: seq<Segment>, hdr: int, s: Segment, i: nat, rec: int)
    requires Fits(segs, hdr, s) && i < |segs|
    ensures Fits(segs[i := segs[i].(rec := rec)], hdr, s)
  {
  }

  lemma SameSegsOuter(m: Mem, m': Mem, segs: seq<Segment>, segs1: seq<Segment>, s: Segment, hdr: int, i: nat)
    requires OuterKept(m, m', segs + [s], hdr) && i < |segs| && exists r :: segs1 == segs[i := segs[i].(rec := r)]
    ensures OuterKept(m, m', segs1 + [s], hdr)
  {
    forall a | Outside(segs1 + [s], hdr, a) ensures Outside(segs + [s], hdr, a) {
      forall j | 0 <= j < |segs + [s]| ensures a < (segs + [s])[j].base || End((segs + [s])[j]) <= a {
        assert (segs1 + [s])[j].base == (segs + [s])[j].base && End((segs1 + [s])[j]) == End((segs + [s])[j]);
      }
    }
  }

  lemma MoreOuter(m: Mem, m': Mem, segs: seq<Segment>, s: Segment, hdr: int)
    requires OuterKept(m, m', segs, hdr)
    ensures OuterKept(m, m', segs + [s], hdr)
  {
    forall a | Outside(segs + [s], hdr, a) ensures Outside(segs, hdr, a) {
      forall j | 0 <= j < |segs| ensures a < segs[j].base || End(segs[j]) <= a { assert (segs + [s])[j] == segs[j]; }
    }
  }

  /** Which chunks the layout holds after add_segment: `p` and `e` made way for `d`; `f` and `g` are new. */
  ghost predicate Spanned(cs: Chunks, cs': Chunks, p: int, e: int, d: Chunks, f: int, g: int) {
    && p in cs && cs[p].kind.Top? && e in cs && cs[e].kind.Tail? && f !in cs && g !in cs && f !in d && g !in d && f != g
    && f in cs' && cs'[f].kind.Top? && g in cs' && cs'[g].kind.Tail?
    && (forall x {:trigger x in cs'} {:trigger x in cs} ::
          x in cs' <==> x == f || x == g || x in d || (x in cs && x != p && x != e))
    && (forall x {:trigger cs'[x]} :: x in cs' && x != f && x != g ==> cs'[x] == if x in d then d[x] else cs[x])
    && (forall x {:trigger x in d} :: x in d ==> x !in cs || x == p || x == e)
  }

  lemma AddsPlaces(m: Mem, v: View, segs: seq<Segment>, hdr: int, least: int, s: Segment, f: int, g: int)
    requires HeapOk(m, v, segs, hdr, least) && v.top in v.cs && v.cs[v.top].seg < |segs| && Fits(segs, hdr, s)
    requires s.base <= f < End(s) && s.base <= g < End(s)
    ensures var p, e, d := v.top, v.top + v.topsize, ClosedEnd(v.cs, v.top);
            && v.cs[p].kind.Top? && e in v.cs && v.cs[e].kind.Tail? && v.cs[p].size == v.topsize && 0 < v.topsize
            && least <= p && p != 0
            && (forall x {:trigger x in d} :: x in d ==> x !in v.cs || x == p || x == e)
            && f !in v.cs && g !in v.cs && f !in d && g !in d
  {
    hide Fits;
    var p, e, d, i, cs := v.top, v.top + v.topsize, ClosedEnd(v.cs, v.top), v.cs[v.top].seg, v.cs;
    var segs1 := ClosedSegs(segs, cs, p);
    ClosedTop(m, v, segs, hdr, least);
    NextTag(cs, segs, hdr, p);
    RecordSegs(segs, hdr, i, RecordAt(cs, p));
    FarApart(segs, hdr, s, i);
    NotThere(cs, segs, hdr, s, f);
    NotThere(cs, segs, hdr, s, g);
    hide Tile, Shape, AllMerged, Tagged, SegsOk;
    forall x | x in d ensures p <= x < End(segs[i]) && (x !in v.cs || x == p || x == e) {
      if x in cs && x != p && x != e { Separate(cs, segs, segs1, hdr, p, x); Placed(cs, segs, hdr, x); }
    }
  }

  lemma AddsSpan(m: Mem, v: View, v': View, segs: seq<Segment>, segs': seq<Segment>, hdr: int, least: int, s: Segment)
    requires HeapOk(m, v, segs, hdr, least) && Adds(v, v', segs, segs', s) && Fits(segs, hdr, s)
    ensures Spanned(v.cs, v'.cs, v.top, v.top + v.topsize, ClosedEnd(v.cs, v.top), v'.top, v'.top + v'.topsize)
    ensures v'.cs[v'.top].size == v'.topsize && s.base <= v'.top && least <= v.top && 0 < v.topsize && v.top != 0
    ensures v.cs[v.top].size == v.topsize && 0 < v'.topsize
  {
    hide HeapOk, First, Fits, ClosedEnd;
    FirstBounds(s) by { ApartFacts(segs, hdr, s); }
    AddsPlaces(m, v, segs, hdr, least, s, v'.top, v'.top + v'.topsize);
  }

  lemma AddsBins(v: View, v': View, p: int, e: int, f: int, g: int)
    requires p in v.cs && p != 0 && Spanned(v.cs, v'.cs, p, e, ClosedEnd(v.cs, p), f, g) && Binnable(v.cs, v.bs)
    requires FreesBinned(v.cs, v.bs, v.dv)
    requires p == v.top && v.cs[p].size == v.topsize && v.topsize > 0 && e == p + v.topsize && v'.dv == v.dv
    requires VictimOk(v.cs, v.dv, v.dvsize)
    requires v'.bs == (if v.topsize >= MIN_CHUNK_SIZE then v.bs[p := v.topsize] else v.bs)
    ensures Binnable(v'.cs, v'.bs) && FreesBinned(v'.cs, v'.bs, v'.dv)
  {
    var d := ClosedEnd(v.cs, p);
    forall x | x in v'.bs ensures x in v'.cs && v'.cs[x].kind.Free? && v'.cs[x].size == v'.bs[x] {
      if x != p { assert x in v.bs && x in v.cs; }
    }
    forall x | x in v'.cs && v'.cs[x].kind.Free? ensures x in v'.bs <==> x != v'.dv {
      if x !in d { assert x in v.cs && v.cs[x].kind.Free?; }
    }
  }

  lemma AddsRest(
    m: Mem, v: View, v': View, segs: seq<Segment>, segs': seq<Segment>, hdr: int, least: int, least': int, s: Segment
  )
    requires HeapOk(m, v, segs, hdr, least) && Adds(v, v', segs, segs', s) && Fits(segs, hdr, s) && least' <= least
    requires least' <= s.base
    ensures Binnable(v'.cs, v'.bs) && FreesBinned(v'.cs, v'.bs, v'.dv) && VictimOk(v'.cs, v'.dv, v'.dvsize)
    ensures TopOk(v'.cs, segs', v'.top, v'.topsize) && Above(v'.cs, least') && Lives(v'.cs) == Lives(v.cs)
  {
    hide LayoutOk, Tagged, First, Fits, WithTop, Closed, Lives, FreesBinned, Binnable;
    AddsSpan(m, v, v', segs, segs', hdr, least, s);
    var p, e, f, g := v.top, v.top + v.topsize, v'.top, v'.top + v'.topsize;
    AddsBins(v, v', p, e, f, g);
    AddsLives(v.cs, v'.cs, p, e, ClosedEnd(v.cs, p), f, g);
    if v.dv != 0 { assert v.dv in v'.cs && v'.cs[v.dv] == v.cs[v.dv]; }
    forall x | x in v'.cs && x != f ensures !v'.cs[x].kind.Top? {
      if x in v.cs && x != p { assert !v.cs[x].kind.Top?; }
    }
  }

  lemma AddsLives(cs: Chunks, cs': Chunks, p: int, e: int, d: Chunks, f: int, g: int)
    requires Spanned(cs, cs', p, e, d, f, g)
    requires forall x {:trigger d[x]} :: x in d ==> !d[x].kind.Live?
    ensures Lives(cs') == Lives(cs)
  {
    var l, l' := Lives(cs), Lives(cs');
    forall x ensures x in l' <==> x in l {
      assert x in cs' <==> x == f || x == g || x in d || (x in cs && x != p && x != e);
    }
    forall x | x in l ensures l'[x] == l[x] { assert cs'[x] == cs[x]; }
  }

  lemma AddsDone(
    m: Mem, m3: Mem, m': Mem, v: View, v': View, segs: seq<Segment>, segs': seq<Segment>, hdr: int, least: int,
    least': int, s: Segment
  )
    requires HeapOk(m, v, segs, hdr, least) && Adds(v, v', segs, segs', s) && Fits(segs, hdr, s) && least' <= least
    requires least' <= s.base
    requires Tagged(m3, v'.cs) && LayoutOk(v'.cs, segs', hdr) && Kept(m, m3, Lives(v.cs))
    requires OuterKept(m, m3, segs', hdr)
    requires OnlySlots(m3, m', v'.bs, hdr)
    ensures HeapOk(m', v', segs', hdr, least') && Kept(m, m', Lives(v.cs)) && OuterKept(m, m', segs', hdr)
    ensures Lives(v'.cs) == Lives(v.cs)
  {
    AddsRest(m, v, v', segs, segs', hdr, least, least', s);
    hide Tile, Shape, AllMerged, Adds, Lives, Kept, OuterKept, OnlySlots, Tagged, Fits, VictimOk, TopOk, FreesBinned,
         Binnable;
    SlotsKeepTags(m3, m', v'.cs, segs', hdr, v'.bs);
    SlotsKeepLives(m3, m', v'.cs, segs', hdr, v'.bs);
    SlotsKeepOuter(m3, m', v'.cs, segs', hdr, v'.bs);
    KeptTrans(m, m3, m', Lives(v.cs));
    OuterTrans(m, m3, m', segs', hdr);
  }

  // ---- a segment grows downwards --------------------------------------------------------------------------

  lemma PrependTags(m: Mem, cs: Chunks, segs: seq<Segment>, hdr: int, i: nat, base: int)
    requires Tile(cs, segs, hdr) && Shape(cs, segs) && Tagged(m, cs) && i < |segs| && First(segs[i]) in cs
    requires var p, f := First(Extended(segs[i], base)), First(segs[i]);
      p !in cs && p < f && 0 < p && cs[f].prev == 0 && !cs[f].kind.Fence?
    ensures var p, f := First(Extended(segs[i], base)), First(segs[i]);
            Tagged(SetInuseHead(m, p, f - p), Prepend(cs, segs, i, base))
  {
    hide First, Tile, Shape;
    var p, f := First(Extended(segs[i], base)), First(segs[i]);
    var m', cs' := SetInuseHead(m, p, f - p), Prepend(cs, segs, i, base);
    assert Edited(m, m', {p}, {});
    NoZero(cs, segs, hdr);
    forall q | q in cs' ensures TagOk(m', cs', q) {
      if q != p {
        assert TagOk(m, cs, q) by { TaggedAt(m, cs, q); }
        At(cs, segs, hdr, q);
        assert SameTag(cs, cs', q);
        SameTagOk(m, m', cs, cs', q, {p}, {});
      }
    }
  }

  lemma PrependHeap(m: Mem, v: View, segs: seq<Segment>, hdr: int, least: int, least': int, i: nat, base: int)
    requires HeapOk(m, v, segs, hdr, least) && i < |segs| && 0 < base < segs[i].base
    requires SegsOk(segs[i := Extended(segs[i], base)], hdr)
    requires First(segs[i]) in v.cs && First(Extended(segs[i], base)) + MIN_CHUNK_SIZE <= First(segs[i])
    requires least' <= least && least' <= base
    ensures var p, f, segs', cs' := First(Extended(segs[i], base)), First(segs[i]), segs[i := Extended(segs[i], base)],
        Prepend(v.cs, segs, i, base);
            var m' := SetInuseHead(m, p, f - p);
            && HeapOk(m', v.(cs := cs'), segs', hdr, least') && Kept(m, m', Lives(v.cs)) && OuterKept(m, m', segs', hdr)
            && Edited(m, m', {p}, {}) && !LinkSlot(v.bs, hdr, p) && p !in v.bs && Lives(cs') == Lives(v.cs)[p := f - p]
            && p !in Lives(v.cs)
            && p in cs' && cs'[p].kind.Live? && cs'[p].size == f - p && NextOf(cs', p) == f && f in cs'
            && cs'[f] == v.cs[f].(prev := p)
  {
    hide First, Tile, Shape, AllMerged, SegsOk;
    var segs', cs' := segs[i := Extended(segs[i], base)], Prepend(v.cs, segs, i, base);
    var p, f := First(segs'[i]), First(segs[i]);
    var m' := SetInuseHead(m, p, f - p);
    PrependKeeps(v.cs, segs, hdr, i, base);
    FirstBounds(segs'[i]);
    FirstsAre(v.cs, segs, hdr, i);
    NotFence(v.cs, segs, hdr, f);
    Placed(v.cs, segs, hdr, f);
    assert f < End(segs[i]);
    PrependTags(m, v.cs, segs, hdr, i, base);
    assert Edited(m, m', {p}, {});
    hide Edited;
    assert !Outside(segs', hdr, p) by { FirstIn(segs', hdr, i); }
    EditsKeepOuter(m, m', {p}, {}, segs', hdr);
    EditsKeepLives(m, m', {p}, {}, Lives(v.cs));
    assert !LinkSlot(v.bs, hdr, p) by { PrependSlot(v.cs, v.bs, segs, segs', hdr, i, p, f); }
    PrependRest(v, cs', segs, segs', least, least', p, f);
  }

  lemma NotFence(cs: Chunks, segs: seq<Segment>, hdr: int, f: int)
    requires Tile(cs, segs, hdr) && Shape(cs, segs) && f in cs && cs[f].prev == 0
    ensures !cs[f].kind.Fence?
  {
    NoZero(cs, segs, hdr);
    At(cs, segs, hdr, f);
  }

  lemma FirstIn(segs: seq<Segment>, hdr: int, i: nat)
    requires SegsOk(segs, hdr) && i < |segs| && First(segs[i]) < End(segs[i])
    ensures !Outside(segs, hdr, First(segs[i]))
  {
    FirstBounds(segs[i]);
  }

  lemma PrependSlot(
    cs: Chunks, bs: map<int, nat>, segs: seq<Segment>, segs': seq<Segment>, hdr: int, i: nat, p: int, f: int
  )
    requires Tile(cs, segs, hdr) && Shape(cs, segs) && Binnable(cs, bs) && hdr > 0 && SegsOk(segs', hdr) && i < |segs'|
    requires p < f
    requires segs'[i].base <= p < End(segs'[i])
    requires forall q {:trigger q in cs} :: q in cs ==> q + cs[q].size <= p || f <= q
    ensures !LinkSlot(bs, hdr, p)
  {
    SpacedIn(cs, segs, hdr, bs);
    forall x | x in bs ensures !(x <= p < x + bs[x]) { assert x in cs; }
  }

  lemma PrependRest(
    v: View, cs': Chunks, segs: seq<Segment>, segs': seq<Segment>, least: int, least': int, p: int, f: int
  )
    requires f in v.cs && p !in v.cs && p != 0 && p < f
    requires cs' == v.cs[p := Chunk(f - p, Live, 0, v.cs[f].seg)][f := v.cs[f].(prev := p)]
    requires Binnable(v.cs, v.bs) && FreesBinned(v.cs, v.bs, v.dv) && VictimOk(v.cs, v.dv, v.dvsize)
    requires TopOk(v.cs, segs, v.top, v.topsize)
    requires Above(v.cs, least) && least' <= least && least' <= p && segs != [] && segs' != []
    ensures Binnable(cs', v.bs) && FreesBinned(cs', v.bs, v.dv) && VictimOk(cs', v.dv, v.dvsize)
    ensures TopOk(cs', segs', v.top, v.topsize) && Above(cs', least')
    ensures Lives(cs') == Lives(v.cs)[p := f - p] && p !in Lives(v.cs) && p !in v.bs
  {
    var l, l' := Lives(v.cs)[p := f - p], Lives(cs');
    assert forall x :: x in l' <==> x in l;
    assert forall x :: x in l ==> l[x] == l'[x];
  }

  // ---- the writes of add_segment --------------------------------------------------------------------------

  /** The addresses from `a` up to `b`. */
  ghost function Span(a: int, b: int): (r: set<int>)
    ensures forall x :: x in r <==> a <= x < b
    decreases b - a
  {
    if a >= b then {} else {a} + Span(a + 1, b)
  }

  /**
   * The heads and feet add_segment writes in the old segment: what is left of top at `p`, the record at `c`, the
   * fences.
   */
  ghost function ClosingHeads(p: int, c: int, end: int): set<int> { {p, c} + Span(c + 48, end) }
  ghost function ClosingFeet(p: int, c: int, end: int): set<int> { (if c == p then {} else {c}) + Span(c + 64, end) }

  lemma ClosingEdits(m1: Mem, m2: Mem, m3: Mem, m4: Mem, p: int, c: int, end: int)
    requires m2 == SetInuseHead(m1, c, 48) && Edited(m2, m3, Span(c + 48, end), Span(c + 64, end))
    requires m4 == (if c == p then m3 else SetFreeBefore(m3, p, c - p, c)) && p <= c
    ensures Edited(m1, m4, ClosingHeads(p, c, end), ClosingFeet(p, c, end))
  {
    assert Edited(m1, m2, {c}, {});
    EditedTrans(m1, m2, m3, {c}, {}, Span(c + 48, end), Span(c + 64, end));
    if c != p {
      SetFreeBeforeEdits(m3, p, c - p, c);
      EditedTrans(m1, m3, m4, {c} + Span(c + 48, end), {} + Span(c + 64, end), {p, c}, {c});
    }
    MoreEdits(m1, m4, {c} + Span(c + 48, end) + (if c == p then {} else {p, c}),
              {} + Span(c + 64, end) + (if c == p then {} else {c}),
              ClosingHeads(p, c, end), ClosingFeet(p, c, end));
  }

  /** Both ends of add_segment together: the closed segment and the new top at `f`. */
  lemma AddingEdits(m: Mem, m1: Mem, m4: Mem, p: int, c: int, end: int, f: int, t: int)
    requires m1 == TopWritten(m, f, t) && Edited(m1, m4, ClosingHeads(p, c, end), ClosingFeet(p, c, end)) && t != 0
    requires f !in ClosingHeads(p, c, end) && f + t !in ClosingHeads(p, c, end)
    ensures Edited(m, m4, ClosingHeads(p, c, end) + {f, f + t}, ClosingFeet(p, c, end))
    ensures Head(m4, f) == t + 1 && Head(m4, f + t) == TOP_FOOT_SIZE
  {
    TopWrittenEdits(m, f, t);
    EditedTrans(m, m1, m4, {f, f + t}, {}, ClosingHeads(p, c, end), ClosingFeet(p, c, end));
    MoreEdits(m, m4, {f, f + t} + ClosingHeads(p, c, end), {} + ClosingFeet(p, c, end),
              ClosingHeads(p, c, end) + {f, f + t}, ClosingFeet(p, c, end));
  }

  lemma MoreEdits(m: Mem, m': Mem, hs: set<int>, ls: set<int>, hs': set<int>, ls': set<int>)
    requires Edited(m, m', hs, ls) && hs <= hs' && ls <= ls'
    ensures Edited(m, m', hs', ls')
  {
    hide Lo, Hi;
  }

  lemma ClosingWrites(m1: Mem, m2: Mem, m3: Mem, m4: Mem, cs: Chunks, p: int, c: int, end: int)
    requires p in cs && p % 16 == 0 && cs[p].size % 16 == 0 && 0 < cs[p].size && c == RecordAt(cs, p)
    requires end == p + cs[p].size + TOP_FOOT_SIZE
    requires m2 == SetInuseHead(m1, c, 48) && Edited(m2, m3, Span(c + 48, end), Span(c + 64, end))
    requires Head(m3, c + 48) == FENCEPOST_HEAD
    requires m4 == (if c == p then m3 else SetFreeBefore(m3, p, c - p, c))
    ensures ClosedWritten(m4, cs, p)
  {
    assert Head(m3, c) == 51 by { assert c !in Span(c + 48, end); }
    if c != p { SetFreeBeforeEdits(m3, p, c - p, c); }
  }

  // ---- giving a segment back ------------------------------------------------------------------------------

  /**
   * A closed segment whose first chunk is free and reaches its end holds nothing but that chunk, the record and the
   * fences.
   */
  lemma OnlyFree(cs: Chunks, segs: seq<Segment>, hdr: int, i: nat, q: int)
    requires Tile(cs, segs, hdr) && Shape(cs, segs) && i + 1 < |segs| && First(segs[i]) in cs
    requires cs[First(segs[i])].seg == i
    requires var p := First(segs[i]); cs[p].kind.Free? && p + cs[p].size >= End(segs[i]) - TOP_FOOT_SIZE
    requires q in cs && cs[q].seg == i
    ensures q == First(segs[i]) || cs[q].kind.Record? || cs[q].kind.Fence?
    ensures var p := First(segs[i]); p + cs[p].size == End(segs[i]) - TOP_FOOT_SIZE
  {
    var p := First(segs[i]);
    At(cs, segs, hdr, p);
    var n := NextOf(cs, p);
    At(cs, segs, hdr, n);
    EndRecord(cs, segs, hdr, i, n);
    At(cs, segs, hdr, q);
    FirstBounds(segs[i]);
    Disjoint(cs, segs, hdr, q, p);
    Disjoint(cs, segs, hdr, q, n);
    var f := NextOf(cs, n);
    At(cs, segs, hdr, f);
    Disjoint(cs, segs, hdr, q, f);
  }

  /** The chunk that follows a free chunk so close to the end of a closed segment is the segment record. */
  lemma EndRecord(cs: Chunks, segs: seq<Segment>, hdr: int, i: nat, n: int)
    requires Tile(cs, segs, hdr) && Shape(cs, segs) && i + 1 < |segs| && n in cs && cs[n].seg == i
    requires n >= End(segs[i]) - TOP_FOOT_SIZE
    requires cs[n].prev in cs && cs[cs[n].prev].kind.Free?
    ensures cs[n].kind.Record? && n == End(segs[i]) - TOP_FOOT_SIZE && NextOf(cs, n) in cs
    ensures cs[NextOf(cs, n)].kind.Fence?
    ensures NextOf(cs, NextOf(cs, n)) == End(segs[i])
    decreases End(segs[i]) - n
  {
    At(cs, segs, hdr, n);
    if cs[n].kind.Live? || cs[n].kind.Free? || cs[n].kind.Record? {
      var f := NextOf(cs, n);
      At(cs, segs, hdr, f);
      if !cs[n].kind.Record? {
        LastRecord(cs, segs, hdr, i, f);
      }
    }
  }

  /** Every inner chunk of a closed segment leaves room for the record and the fences behind it. */
  lemma LastRecord(cs: Chunks, segs: seq<Segment>, hdr: int, i: nat, n: int)
    requires Tile(cs, segs, hdr) && Shape(cs, segs) && i + 1 < |segs| && n in cs && cs[n].seg == i && !cs[n].kind.Fence?
    ensures n + TOP_FOOT_SIZE <= End(segs[i])
    decreases End(segs[i]) - n
  {
    At(cs, segs, hdr, n);
    if !cs[n].kind.Tail? {
      var f := NextOf(cs, n);
      At(cs, segs, hdr, f);
      if !cs[f].kind.Fence? { LastRecord(cs, segs, hdr, i, f); }
    } else {
      At(cs, segs, hdr, cs[n].prev);
    }
  }

  /** The record of a closed segment lies in that segment. */
  lemma {:induction false} RecordIn(cs: Chunks, segs: seq<Segment>, hdr: int, i: nat, n: int)
    requires Tile(cs, segs, hdr) && Shape(cs, segs) && i + 1 < |segs| && n in cs && cs[n].seg == i
    ensures segs[i].base <= segs[i].rec < End(segs[i])
    ensures segs[i].rec in cs && cs[segs[i].rec].kind.Record? && cs[segs[i].rec].seg == i
    decreases End(segs[i]) - n
  {
    At(cs, segs, hdr, n);
    if cs[n].kind.Live? || cs[n].kind.Free? {
      var f := NextOf(cs, n);
      At(cs, segs, hdr, f);
      RecordIn(cs, segs, hdr, i, f);
    } else if !cs[n].kind.Record? {
      At(cs, segs, hdr, cs[n].prev);
    }
  }

  ghost predicate Idle(cs: Chunks, segs: seq<Segment>, i: nat) {
    && i + 1 < |segs| && First(segs[i]) in cs
    && var p := First(segs[i]); cs[p].kind.Free? && p + cs[p].size >= End(segs[i]) - TOP_FOOT_SIZE
  }

  lemma DropTags(m: Mem, cs: Chunks, segs: seq<Segment>, hdr: int, i: nat)
    requires Tile(cs, segs, hdr) && Shape(cs, segs) && Tagged(m, cs)
    ensures Tagged(m, Drop(cs, i))
  {
    var cs' := Drop(cs, i);
    NoZero(cs, segs, hdr);
    forall q | q in cs' ensures TagOk(m, cs', q) {
      assert TagOk(m, cs, q);
      At(cs, segs, hdr, q);
    }
  }

  lemma DropRest(v: View, segs: seq<Segment>, hdr: int, least: int, i: nat, v': View)
    requires Tile(v.cs, segs, hdr) && Shape(v.cs, segs) && Idle(v.cs, segs, i) && Binnable(v.cs, v.bs)
    requires FreesBinned(v.cs, v.bs, v.dv)
    requires VictimOk(v.cs, v.dv, v.dvsize) && TopOk(v.cs, segs, v.top, v.topsize) && Above(v.cs, least)
    requires var p := First(segs[i]);
             v' == View(Drop(v.cs, i), v.bs - {p}, if v.dv == p then 0 else v.dv, if v.dv == p then 0 else v.dvsize,
                        v.top, v.topsize)
    ensures Binnable(v'.cs, v'.bs) && FreesBinned(v'.cs, v'.bs, v'.dv) && VictimOk(v'.cs, v'.dv, v'.dvsize)
    ensures TopOk(v'.cs, segs[..i] + segs[i + 1..], v'.top, v'.topsize) && Above(v'.cs, least)
    ensures Lives(v'.cs) == Lives(v.cs)
  {
    var cs, cs', p := v.cs, v'.cs, First(segs[i]);
    FirstsAre(cs, segs, hdr, i);
    NoZero(cs, segs, hdr);
    At(cs, segs, hdr, v.top);
    forall q | q in cs && cs[q].seg == i ensures q == p || cs[q].kind.Record? || cs[q].kind.Fence? {
      OnlyFree(cs, segs, hdr, i, q);
    }
    hide Tile, Shape, First, Lives, Binnable, FreesBinned;
    assert Dropped(cs, cs', p);
    DroppedLives(cs, cs', p);
    DroppedBins(v, v', p);
  }

  /** What a segment takes with it: its free chunk at `p`, its record and its fences. */
  ghost predicate Dropped(cs: Chunks, cs': Chunks, p: int) {
    && p in cs && cs[p].kind.Free?
    && (forall q {:trigger q in cs'} :: q in cs' ==>
          q in cs && cs'[q].kind == cs[q].kind && cs'[q].size == cs[q].size && q != p)
    && (forall q {:trigger q in cs} :: q in cs && q !in cs' ==> q == p || cs[q].kind.Record? || cs[q].kind.Fence?)
  }

  lemma DroppedLives(cs: Chunks, cs': Chunks, p: int)
    requires Dropped(cs, cs', p)
    ensures Lives(cs') == Lives(cs)
  {
    var l, l' := Lives(cs), Lives(cs');
    assert forall x :: x in l' <==> x in l;
    assert forall x :: x in l ==> l[x] == l'[x];
  }

  lemma DroppedBins(v: View, v': View, p: int)
    requires Dropped(v.cs, v'.cs, p) && Binnable(v.cs, v.bs) && FreesBinned(v.cs, v.bs, v.dv)
    requires v'.bs == v.bs - {p} && v'.dv == if v.dv == p then 0 else v.dv
    requires 0 !in v.cs
    ensures Binnable(v'.cs, v'.bs) && FreesBinned(v'.cs, v'.bs, v'.dv)
  {
  }

  lemma DropHeap(m: Mem, m2: Mem, v: View, v': View, segs: seq<Segment>, hdr: int, least: int, i: nat)
    requires HeapOk(m, v, segs, hdr, least) && Idle(v.cs, segs, i) && OnlySlots(m, m2, v.bs, hdr)
    requires var p := First(segs[i]);
             v' == View(Drop(v.cs, i), v.bs - {p}, if v.dv == p then 0 else v.dv, if v.dv == p then 0 else v.dvsize,
                        v.top, v.topsize)
    ensures HeapOk(m2, v', segs[..i] + segs[i + 1..], hdr, least) && Lives(v'.cs) == Lives(v.cs)
    ensures Kept(m, m2, Lives(v.cs)) && OuterKept(m, m2, segs, hdr)
  {
    hide Tile, Shape, AllMerged, Tagged, Binnable, FreesBinned, VictimOk, TopOk, Lives, Kept, OuterKept, OnlySlots,
         Drop, First;
    DropKeeps(v.cs, segs, hdr, i);
    SlotsKeepTags(m, m2, v.cs, segs, hdr, v.bs);
    DropTags(m2, v.cs, segs, hdr, i);
    DropRest(v, segs, hdr, least, i, v');
    SlotsKeepLives(m, m2, v.cs, segs, hdr, v.bs);
    SlotsKeepOuter(m, m2, v.cs, segs, hdr, v.bs);
  }

  /** The chunk of an idle segment goes back into a bin when the segment could not be unmapped. */
  lemma RebinHeap(m: Mem, m': Mem, v: View, v': View, segs: seq<Segment>, hdr: int, least: int, i: nat, psize: nat)
    requires HeapOk(m, v, segs, hdr, least) && Idle(v.cs, segs, i) && OnlySlots(m, m', v'.bs, hdr)
    requires psize == v.cs[First(segs[i])].size
    requires var p := First(segs[i]);
             v' == v.(bs := v.bs[p := psize], dv := if v.dv == p then 0 else v.dv,
                      dvsize := if v.dv == p then 0 else v.dvsize)
    ensures HeapOk(m', v', segs, hdr, least) && Kept(m, m', Lives(v.cs)) && OuterKept(m, m', segs, hdr)
  {
    hide Tile, Shape, AllMerged, Tagged, VictimOk, TopOk, Lives, Kept, OuterKept, OnlySlots, First;
    NoZero(v.cs, segs, hdr);
    RebinRest(v, v', First(segs[i]), psize);
    SlotsKeepTags(m, m', v.cs, segs, hdr, v'.bs);
    SlotsKeepLives(m, m', v.cs, segs, hdr, v'.bs);
    SlotsKeepOuter(m, m', v.cs, segs, hdr, v'.bs);
  }

  lemma RebinRest(v: View, v': View, p: int, psize: nat)
    requires p in v.cs && v.cs[p].kind.Free? && v.cs[p].size == psize && Binnable(v.cs, v.bs)
    requires FreesBinned(v.cs, v.bs, v.dv) && VictimOk(v.cs, v.dv, v.dvsize) && 0 !in v.cs
    requires v' == v.(bs := v.bs[p := psize], dv := if v.dv == p then 0 else v.dv,
                      dvsize := if v.dv == p then 0 else v.dvsize)
    ensures Binnable(v'.cs, v'.bs) && FreesBinned(v'.cs, v'.bs, v'.dv) && VictimOk(v'.cs, v'.dv, v'.dvsize)
  {
  }
}
