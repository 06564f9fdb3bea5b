/** What adding, extending and prepending to segments rely on. */
module SegmentFacts {
  import opened Words
  import opened Memory
  import opened SmallBins
  import opened BinStore
  import opened Layout
  import opened Tags
  import opened HeapBase
  import opened HeapSteps
  import opened Segments
  import opened SegmentSteps

  // ---- segments ------------------------------------------------------------------------------------------------

  lemma TopSegment(m: Mem, v: View, segs: seq<Segment>, hdr: int, least: int)
    requires HeapOk(m, v, segs, hdr, least) && segs != []
    ensures v.top in v.cs && v.cs[v.top].seg == |segs| - 1 && Align16(v.top) == v.top && 0 < v.top
    ensures 0 < v.topsize && v.topsize % 16 == 0 && v.top + v.topsize + TOP_FOOT_SIZE == End(segs[|segs| - 1])
    ensures segs[|segs| - 1].base <= v.top
  {
    At(v.cs, segs, hdr, v.top);
    ClosedTop(m, v, segs, hdr, least);
  }

  lemma EmptyView(m: Mem, v: View, hdr: int, least: int)
    requires HeapOk(m, v, [], hdr, least)
    ensures v.bs == map[] && v.cs == map[] && v.top == 0 && v.topsize == 0
  {
    assert forall x :: x !in v.bs;
  }

  lemma EmptySlots(m: Mem, m': Mem, v: View, hdr: int, least: int, segs: seq<Segment>)
    requires HeapOk(m, v, [], hdr, least) && OnlySlots(m, m', map[], hdr)
    ensures HeapOk(m', v, [], hdr, least) && OuterKept(m, m', segs, hdr)
  {
    EmptyView(m, v, hdr, least);
  }

  lemma AlignedFirst(s: Segment)
    ensures Align16(s.base) == First(s)
  {
  }

  /** Where add_segment finds room for the record: right after what is left of top, or at top if that is too small. */
  lemma RecordPlace(m: Mem, v: View, segs: seq<Segment>, hdr: int, least: int)
    requires HeapOk(m, v, segs, hdr, least) && segs != []
    ensures v.top in v.cs
    ensures var end := End(segs[|segs| - 1]);
            var asp := Align16(end - 95);
            && end % 16 == 0 && v.top % 16 == 0 && asp == end - TOP_FOOT_SIZE == v.top + v.topsize
            && (if asp < v.top + MIN_CHUNK_SIZE then v.top else asp) == RecordAt(v.cs, v.top)
            && RecordAt(v.cs, v.top) % 16 == 0
            && (v.topsize >= MIN_CHUNK_SIZE <==> RecordAt(v.cs, v.top) != v.top) && RecordAt(v.cs, v.top) + 80 <= end
            && v.top <= RecordAt(v.cs, v.top) && v.cs[v.top].size == v.topsize
            && (RecordAt(v.cs, v.top) + 48) % 16 == 0
  {
    TopSegment(m, v, segs, hdr, least);
    ClosedTop(m, v, segs, hdr, least);
    EndAligned(v.top, v.topsize);
  }

  lemma EndAligned(p: int, t: int)
    requires p % 16 == 0 && t % 16 == 0
    ensures (p + t + 80) % 16 == 0 && Align16(p + t + 80 - 95) == p + t
  {
  }

  /** The writes that close the segment stay inside it, away from the new one. */
  lemma ClosingPlace(m: Mem, v: View, segs: seq<Segment>, hdr: int, least: int, c: int, s: Segment, a: int)
    requires HeapOk(m, v, segs, hdr, least) && segs != [] && Fits(segs, hdr, s) && v.top in v.cs
    requires c == RecordAt(v.cs, v.top) && s.base <= a < End(s)
    ensures var end := End(segs[|segs| - 1]);
            && v.cs[v.top].seg == |segs| - 1
            && EditsAt(ClosingHeads(v.top, c, end), ClosingFeet(v.top, c, end), v.top, end)
            && a !in ClosingHeads(v.top, c, end)
  {
    TopSegment(m, v, segs, hdr, least);
    ClosedTop(m, v, segs, hdr, least);
    RecordPlace(m, v, segs, hdr, least);
    FarApart(segs, hdr, s, |segs| - 1);
  }

  /** What is left of the old top has room for its links. */
  lemma RoomForRest(
    m: Mem, m4: Mem, v: View, v': View, segs: seq<Segment>, segs': seq<Segment>, hdr: int, least: int, s: Segment
  )
    requires HeapOk(m, v, segs, hdr, least) && Adds(v, v', segs, segs', s) && Fits(segs, hdr, s) && least <= s.base
    requires Tagged(m4, v'.cs) && LayoutOk(v'.cs, segs', hdr) && v.topsize >= MIN_CHUNK_SIZE
    ensures Spaced(v'.bs, hdr) && least <= v.top && v'.bs[v.top] == v.topsize < W64 && ChunkSize(m4, v.top) == v.topsize
    ensures v.top !in v.bs
  {
    hide First, Adds;
    AddsRest(m, v, v', segs, segs', hdr, least, least, s);
    assert v.top in v.cs && v.cs[v.top].seg < |segs| && v.top in v'.bs && v'.bs[v.top] == v.topsize by {
      AddsTop(v, v', segs, segs', s);
    }
    ClosedTop(m, v, segs, hdr, least);
    SpacedIn(v'.cs, segs', hdr, v'.bs);
    Placed(v'.cs, segs', hdr, v.top);
    assert TagOk(m4, v'.cs, v.top);
    TagParts(m4, v'.cs, v.top);
  }

  lemma AddsTop(v: View, v': View, segs: seq<Segment>, segs': seq<Segment>, s: Segment)
    requires Adds(v, v', segs, segs', s) && v.topsize >= MIN_CHUNK_SIZE
    ensures v.top in v.cs && v.cs[v.top].seg < |segs| && v.top in v'.bs && v'.bs[v.top] == v.topsize
  {
  }

  lemma FirstFence(m: Mem, tnext: int, end: int)
    requires tnext % 16 == 0 && tnext + 16 <= end
    ensures var m' := SetWord(m, tnext + 8, FENCEPOST_HEAD);
      Edited(m, m', Span(tnext, end), Span(tnext + 16, end)) && Head(m', tnext) == FENCEPOST_HEAD
  {
    hide Span;
  }

  lemma FenceFits(tnext: int, end: int, n: nat)
    requires tnext % 16 == 0 && end % 16 == 0 && n >= 1 && tnext + 8 * n + 8 < end
    ensures tnext + 8 * n + 16 <= end && (tnext + 8 * n + 8) % 8 == 0
  {
  }

  /** One more word of the run of fenceposts. */
  lemma NextFence(m0: Mem, m: Mem, tnext: int, end: int, w: int)
    requires Edited(m0, m, Span(tnext, end), Span(tnext + 16, end)) && Head(m, tnext) == FENCEPOST_HEAD
    requires tnext % 16 == 0 && w % 8 == 0 && tnext + 16 <= w < end
    ensures var m' := SetWord(m, w, FENCEPOST_HEAD);
      Edited(m0, m', Span(tnext, end), Span(tnext + 16, end)) && Head(m', tnext) == FENCEPOST_HEAD
  {
    hide Span, Edited;
    var m' := SetWord(m, w, FENCEPOST_HEAD);
    assert Edited(m, m', if w % 16 == 0 then {} else {w - 8}, if w % 16 == 0 then {w} else {}) by { OneWord(m, w); }
    EditedTrans(m0, m, m', Span(tnext, end), Span(tnext + 16, end), if w % 16 == 0 then {} else {w - 8},
                if w % 16 == 0 then {w} else {});
    assert Span(tnext, end) + (if w % 16 == 0 then {} else {w - 8}) == Span(tnext, end);
    assert Span(tnext + 16, end) + (if w % 16 == 0 then {w} else {}) == Span(tnext + 16, end);
  }

  /** The first `n` words of the run of fenceposts are written. */
  ghost predicate Fenced(m: Mem, tnext: int, n: nat) {
    forall j: nat :: j < n ==> GetWord(m, FenceWord(tnext, j)) == FENCEPOST_HEAD
  }

  function FenceWord(tnext: int, j: nat): int { tnext + 8 + 8 * j }

  lemma MoreFenced(m: Mem, tnext: int, n: nat)
    requires tnext % 16 == 0 && (n > 0 ==> Fenced(m, tnext, n))
    ensures Fenced(SetWord(m, tnext + 8 + 8 * n, FENCEPOST_HEAD), tnext, n + 1)
  {
    hide GetWord, SetWord;
    var w := FenceWord(tnext, n);
    var m' := SetWord(m, w, FENCEPOST_HEAD);
    WordAligned(tnext, n);
    forall j: nat | j < n + 1 ensures GetWord(m', FenceWord(tnext, j)) == FENCEPOST_HEAD {
      WordAligned(tnext, j);
      OtherWord(m, w, FenceWord(tnext, j));
    }
  }

  lemma WordAligned(tnext: int, j: nat)
    requires tnext % 16 == 0
    ensures FenceWord(tnext, j) % 8 == 0
  {
  }

  lemma OtherWord(m: Mem, w: int, u: int)
    requires w % 8 == 0 && u % 8 == 0
    ensures GetWord(SetWord(m, w, FENCEPOST_HEAD), u) == if u == w then FENCEPOST_HEAD else GetWord(m, u)
  {
  }

  lemma OneWord(m: Mem, w: int)
    ensures Edited(m, SetWord(m, w, FENCEPOST_HEAD), if w % 16 == 0 then {} else {w - 8},
                   if w % 16 == 0 then {w} else {})
  {
  }

  /** The writes of add_segment, one after the other, give the layout with the closed segment and the new top. */
  lemma AddingWrites(
    m0: Mem, m1: Mem, m2: Mem, m3: Mem, m4: Mem, v: View, v': View, segs: seq<Segment>, segs': seq<Segment>, hdr: int,
    least: int, s: Segment, c: int, smallmap: nat, treemap: nat, roots: seq<int>, tbin: int, g: Binned
  )
    requires HeapOk(m0, v, segs, hdr, least) && segs != [] && Adds(v, v', segs, segs', s) && Fits(segs, hdr, s)
    requires BinsOk(m0, smallmap, treemap, roots, hdr, tbin, g) && g.bs == v.bs && c == RecordAt(v.cs, v.top)
    requires m1 == TopWritten(m0, v'.top, v'.topsize) && m2 == SetInuseHead(m1, c, 48)
    requires var end := End(segs[|segs| - 1]);
      Edited(m2, m3, Span(c + 48, end), Span(c + 64, end)) && Head(m3, c + 48) == FENCEPOST_HEAD
    requires m4 == if c == v.top then m3 else SetFreeBefore(m3, v.top, c - v.top, c)
    ensures Tagged(m4, v'.cs) && LayoutOk(v'.cs, segs', hdr)
    ensures Kept(m0, m4, Lives(v.cs)) && OuterKept(m0, m4, segs', hdr)
    ensures BinsOk(m4, smallmap, treemap, roots, hdr, tbin, g)
  {
    hide HeapOk, BinsOk, Lives, Kept, OuterKept, Edited, LinkSlot, WithTop, Closed, Tagged, LayoutOk, TopWritten,
         SetInuseHead, SetFreeBefore, Span, ClosedWritten, Fits, EditsAt, ClosingHeads, ClosingFeet, SegsOk, First,
         RecordAt;
    var p, f, t, end := v.top, v'.top, v'.topsize, End(segs[|segs| - 1]);
    TopSegment(m0, v, segs, hdr, least);
    RecordPlace(m0, v, segs, hdr, least);
    ApartFacts(segs, hdr, s);
    FirstBounds(s);
    ClosingEdits(m1, m2, m3, m4, p, c, end);
    ClosingWrites(m1, m2, m3, m4, v.cs, p, c, end);
    ClosingPlace(m0, v, segs, hdr, least, c, s, f);
    ClosingPlace(m0, v, segs, hdr, least, c, s, f + t);
    AddingEdits(m0, m1, m4, p, c, end, f, t);
    var hs, ls := ClosingHeads(p, c, end), ClosingFeet(p, c, end);
    AddsTags(m0, m4, v, v', segs, segs', hdr, least, s, hs, ls);
    EditsKeepBins(m0, m4, hs + {f, f + t}, ls, smallmap, treemap, roots, hdr, tbin, g);
  }

  // ---- prepend_alloc -----------------------------------------------------------------------------------------------

  /** The layout with the new space cut at `nb`, before the rest is released. */
  ghost function Opened(cs: Chunks, segs: seq<Segment>, i: nat, base: int, nb: nat): Chunks
    requires i < |segs| && First(segs[i]) in cs
  {
    var p := First(Extended(segs[i], base));
    if p in Prepend(cs, segs, i, base) then Cut(Prepend(cs, segs, i, base), p, nb) else cs
  }

  /** The tags of the served chunk and of the rest. */
  function OpenedMem(m: Mem, p: int, nb: nat, f: int): Mem {
    SetHead(SetInuseHead(m, p, nb), p + nb, f - p - nb + 3)
  }

  lemma OpenedIs(m: Mem, v: View, segs: seq<Segment>, hdr: int, least: int, i: nat, base: int, nb: nat)
    requires HeapOk(m, v, segs, hdr, least) && i < |segs| && 0 < base < segs[i].base && least <= base
    requires SegsOk(segs[i := Extended(segs[i], base)], hdr) && MIN_CHUNK_SIZE <= nb && nb % 16 == 0
    requires First(Extended(segs[i], base)) + nb + MIN_CHUNK_SIZE <= First(segs[i])
    ensures First(segs[i]) in v.cs && First(Extended(segs[i], base)) in Prepend(v.cs, segs, i, base)
    ensures Opened(v.cs, segs, i, base, nb) ==
      Cut(Prepend(v.cs, segs, i, base), First(Extended(segs[i], base)), nb)
  {
    hide HeapOk, SegsOk;
    FirstsAt(m, v, segs, hdr, least, i);
  }

  /** The heap as prepend_alloc sees it: the new space is cut at `nb`, and the rest, at `q`, is about to be released. */
  lemma PrependCut(m: Mem, v: View, segs: seq<Segment>, hdr: int, least: int, i: nat, base: int, nb: nat,
                   smallmap: nat, treemap: nat, roots: seq<int>, tbin: int, g: Binned)
    requires HeapOk(m, v, segs, hdr, least) && i < |segs| && 0 < base < segs[i].base && least <= base
    requires SegsOk(segs[i := Extended(segs[i], base)], hdr) && MIN_CHUNK_SIZE <= nb && nb % 16 == 0
    requires First(Extended(segs[i], base)) + nb + MIN_CHUNK_SIZE <= First(segs[i])
    requires BinsOk(m, smallmap, treemap, roots, hdr, tbin, g) && g.bs == v.bs
    ensures First(segs[i]) in v.cs
    ensures var p, f, segs' := First(Extended(segs[i], base)), First(segs[i]), segs[i := Extended(segs[i], base)];
      var cs1, m1 := Opened(v.cs, segs, i, base, nb), OpenedMem(m, p, nb, f);
      && HeapOk(m1, v.(cs := cs1), segs', hdr, least) && BinsOk(m1, smallmap, treemap, roots, hdr, tbin, g)
      && BinsOk(SetInuseHead(m, p, nb), smallmap, treemap, roots, hdr, tbin, g)
      && Kept(m, m1, Lives(v.cs)) && OuterKept(m, m1, segs', hdr) && !LinkSlot(v.bs, hdr, p + nb)
  {
    hide First, HeapOk, BinsOk, Kept, OuterKept, Lives, LinkSlot, SegsOk, Opened, Prepend, Cut;
    OpenedIs(m, v, segs, hdr, least, i, base, nb);
    var p, f, segs' := First(Extended(segs[i], base)), First(segs[i]), segs[i := Extended(segs[i], base)];
    var q, csP := p + nb, Prepend(v.cs, segs, i, base);
    var m1 := OpenedMem(m, p, nb, f);
    var mB := SetInuseHead(m, p, f - p);
    PrependHeap(m, v, segs, hdr, least, least, i, base);
    EditsKeepBins(m, mB, {p}, {}, smallmap, treemap, roots, hdr, tbin, g);
    PrependCuttable(m, v, segs, hdr, least, i, base, nb);
    assert CutWritten(mB, m1, csP, p, nb) by { PrependWritten(mB, m1, m, v.(cs := csP), segs', hdr, least, p, f, nb); }
    CutHeap(mB, m1, v.(cs := csP), segs', hdr, least, p, nb);
    EditsKeepBins(mB, m1, {p, q, f}, {}, smallmap, treemap, roots, hdr, tbin, g);
    assert Edited(m1, SetInuseHead(m, p, nb), {q}, {});
    CutFacts(mB, v.(cs := csP), segs', hdr, least, p, nb);
    EditsKeepBins(m1, SetInuseHead(m, p, nb), {q}, {}, smallmap, treemap, roots, hdr, tbin, g);
    NewPart(mB, m1, Lives(v.cs), p, f - p);
    KeptTrans(m, mB, m1, Lives(v.cs));
    OuterTrans(m, mB, m1, segs', hdr);
  }

  lemma PrependCuttable(m: Mem, v: View, segs: seq<Segment>, hdr: int, least: int, i: nat, base: int, nb: nat)
    requires HeapOk(m, v, segs, hdr, least) && i < |segs| && 0 < base < segs[i].base && least <= base
    requires SegsOk(segs[i := Extended(segs[i], base)], hdr) && MIN_CHUNK_SIZE <= nb && nb % 16 == 0
    requires First(Extended(segs[i], base)) + nb + MIN_CHUNK_SIZE <= First(segs[i])
    ensures First(segs[i]) in v.cs
    ensures var p, f, csP := First(Extended(segs[i], base)), First(segs[i]), Prepend(v.cs, segs, i, base);
      && Cuttable(csP, p, nb) && p in csP && csP[p].size == f - p && NextOf(csP, p) == f && p % 16 == 0 && 0 < p
      && (f - p) % 16 == 0 && csP[p].prev == 0 && f in csP && csP[f].kind == v.cs[f].kind && csP[f].size == v.cs[f].size
  {
    hide First, HeapOk, SegsOk;
    FirstsAt(m, v, segs, hdr, least, i);
    FirstBounds(segs[i]);
    FirstBounds(Extended(segs[i], base));
  }

  /** A live chunk is followed by another one. */
  lemma OpenedEnd(m: Mem, v: View, segs: seq<Segment>, hdr: int, least: int, q: int)
    requires HeapOk(m, v, segs, hdr, least) && q in v.cs && v.cs[q].kind.Live?
    ensures q != NextOf(v.cs, q)
  {
    NextTag(v.cs, segs, hdr, q);
  }

  /** The chunks around the cut. */
  lemma PrependShape(m: Mem, v: View, segs: seq<Segment>, hdr: int, least: int, i: nat, base: int, nb: nat)
    requires HeapOk(m, v, segs, hdr, least) && i < |segs| && 0 < base < segs[i].base && least <= base
    requires SegsOk(segs[i := Extended(segs[i], base)], hdr) && MIN_CHUNK_SIZE <= nb && nb % 16 == 0
    requires First(Extended(segs[i], base)) + nb + MIN_CHUNK_SIZE <= First(segs[i])
    ensures First(segs[i]) in v.cs
    ensures var p, f := First(Extended(segs[i], base)), First(segs[i]);
      var q, cs1 := p + nb, Opened(v.cs, segs, i, base, nb);
      && q in cs1 && cs1[q].kind.Live? && cs1[q].size == f - q && cs1[q].prev == p && p in cs1 && cs1[p].kind.Live?
      && p != q && NextOf(cs1, q) == f && MergeStart(cs1, q) == q && p % 16 == 0 && 0 < p
      && Lives(cs1) == Lives(v.cs)[p := nb][q := f - q] && p !in Lives(v.cs) && q !in Lives(v.cs)
      && q !in v.bs && p !in v.bs
      && f in cs1 && cs1[f].kind == v.cs[f].kind && cs1[f].size == v.cs[f].size
  {
    hide First, HeapOk, Kept, OuterKept, Lives, LinkSlot, SegsOk, Prepend, Opened;
    OpenedIs(m, v, segs, hdr, least, i, base, nb);
    var p, f, segs' := First(Extended(segs[i], base)), First(segs[i]), segs[i := Extended(segs[i], base)];
    var csP, mB := Prepend(v.cs, segs, i, base), SetInuseHead(m, p, f - p);
    PrependHeap(m, v, segs, hdr, least, least, i, base);
    PrependCuttable(m, v, segs, hdr, least, i, base, nb);
    CutFacts(mB, v.(cs := csP), segs', hdr, least, p, nb);
    NewLives(Lives(v.cs), p, f - p, nb);
  }

  lemma FirstsAt(m: Mem, v: View, segs: seq<Segment>, hdr: int, least: int, i: nat)
    requires HeapOk(m, v, segs, hdr, least) && i < |segs|
    ensures First(segs[i]) in v.cs && v.cs[First(segs[i])].prev == 0 && v.cs[First(segs[i])].seg == i
    ensures SegsOk(segs, hdr)
  {
    FirstsAre(v.cs, segs, hdr, i);
  }

  lemma NewPart(m: Mem, m': Mem, live: map<int, int>, p: int, s: int)
    requires Kept(m, m', live[p := s] - {p}) && p !in live
    ensures Kept(m, m', live)
  {
    KeptPart(m, m', live[p := s] - {p}, live);
  }

  lemma NewLives(live: map<int, int>, p: int, s: int, a: int)
    requires p !in live && 0 < a < s
    ensures live[p := s][p := a] == live[p := a]
  {
  }

  lemma CutFacts(m: Mem, v: View, segs: seq<Segment>, hdr: int, least: int, p: int, a: int)
    requires HeapOk(m, v, segs, hdr, least) && Cuttable(v.cs, p, a)
    ensures var cs', r, n := Cut(v.cs, p, a), p + a, NextOf(v.cs, p);
            && r in cs' && cs'[r].kind.Live? && cs'[r].size == v.cs[p].size - a && cs'[r].prev == p
            && NextOf(cs', r) == n && MergeStart(cs', r) == r
            && p in cs' && cs'[p].kind.Live? && r !in v.bs && n in cs' && cs'[n].kind == v.cs[n].kind
            && cs'[n].size == v.cs[n].size
            && Lives(cs') == Lives(v.cs)[p := a][r := v.cs[p].size - a] && r !in Lives(v.cs) && p in Lives(v.cs)
            && Lives(v.cs)[p] == v.cs[p].size
  {
    CutSpan(v.cs, segs, hdr, p, a);
    NextTag(v.cs, segs, hdr, p);
  }

  lemma PrependWritten(
    mB: Mem, m1: Mem, m: Mem, v: View, segs: seq<Segment>, hdr: int, least: int, p: int, f: int, nb: nat
  )
    requires HeapOk(mB, v, segs, hdr, least) && p in v.cs && v.cs[p].kind.Live? && f == NextOf(v.cs, p)
    requires 0 < nb < f - p
    requires mB == SetInuseHead(m, p, f - p) && m1 == SetHead(SetInuseHead(m, p, nb), p + nb, f - p - nb + 3)
    requires (f - p) % 16 == 0
    ensures CutWritten(mB, m1, v.cs, p, nb)
  {
    NextTag(v.cs, segs, hdr, p);
    assert TagOk(mB, v.cs, f);
    TagParts(mB, v.cs, f);
    HeadParts(f - p, 1, 2);
  }

  lemma Overwritten(m: Mem, q: int, x: int, y: int, s: int, n: int)
    requires q != n
    ensures SetHead(SetHead(m, q, x), q, y) == SetHead(m, q, y)
    ensures SetFreeHead(SetHead(m, q, x), q, s) == SetFreeHead(m, q, s)
    ensures SetFreeBefore(SetHead(m, q, x), q, s, n) == SetFreeBefore(m, q, s, n)
  {
    assert m.hi[q := x][q := y] == m.hi[q := y];
    assert m.hi[q := x][q := s + 1] == m.hi[q := s + 1];
    assert m.hi[q := x][n := ClearBit0(Head(m, n))][q := s + 1] == m.hi[n := ClearBit0(Head(m, n))][q := s + 1];
  }

  lemma HeadAt(m: Mem, q: int, x: int, y: int)
    ensures y != q ==> Head(SetHead(m, q, x), y) == Head(m, y)
  {
  }

  lemma HeadEdit(m: Mem, q: int, x: int)
    ensures Edited(m, SetHead(m, q, x), {q}, {})
  {
  }

  /** Unlinking and writing the head of a chunk in no bin commute. */
  lemma UnlinkBeside(m: Mem, m2: Mem, bs: map<int, nat>, hdr: int, q: int, x: int)
    requires OnlySlots(m, m2, bs, hdr)
    ensures OnlySlots(SetHead(m, q, x), SetHead(m2, q, x), bs, hdr)
  {
    hide LinkSlot;
  }

  lemma SlotsFewer(bs: map<int, nat>, bs': map<int, nat>, hdr: int, a: int)
    requires !LinkSlot(bs, hdr, a) && forall y :: y in bs' ==> y in bs && bs'[y] == bs[y]
    ensures !LinkSlot(bs', hdr, a)
  {
  }

  /** set_free_with_pinuse up to the end of the merged space. */
  lemma MergedBefore(m: Mem, cs: Chunks, p: int)
    requires p in cs && NextOf(cs, p) in cs && MergeEnd(cs, p) != MergeStart(cs, p)
    ensures var q, e := MergeStart(cs, p), MergeEnd(cs, p); ReleaseWritten(m, SetFreeBefore(m, q, e - q, e), cs, p)
  {
    SetFreeBeforeEdits(m, MergeStart(cs, p), MergeEnd(cs, p) - MergeStart(cs, p), MergeEnd(cs, p));
  }

  lemma PrependedLives(live: map<int, int>, p: int, nb: int, q: int, s: int)
    requires p !in live && q !in live && p != q
    ensures live[p := nb][q := s] - {q} == live[p := nb]
    ensures forall y :: y in live ==> y in live[p := nb] && live[p := nb][y] == live[y]
  {
  }
}
