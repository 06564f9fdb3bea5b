/** The dlmalloc heap: one malloc_state, its segments and the chunks in them. */
module Heaps {
  import opened Words
  import opened BinIndex
  import opened BitMaps
  import opened Memory
  import opened SmallBins
  import opened BinStore
  import opened Bins
  import opened Layout
  import opened Tags
  import opened HeapBase
  import opened HeapSteps
  import opened HeapFacts
  import opened SegmentFacts
  import opened ReleaseFacts
  import opened SystemFacts
  import opened CallerFacts
  import opened ResizeFacts
  import opened ProgramFacts
  import opened Segments
  import opened SegmentSteps
  import opened Mappings
  import opened Growth
  import opened Canonical
  import opened BulkFacts
  import opened Rooms

  class Heap {
    const bins: BinTable
    const granularity: nat
    const pageSize: nat
    const mmapThreshold: nat
    const trimThreshold: nat
    const useMmap: bool
    var dv: int
    var dvsize: int
    var top: int
    var topsize: int
    var segs: seq<Segment>         // the last one is the current segment, which holds top
    var contiguous: bool
    var trimCheck: nat
    var releaseChecks: nat
    var maps: map<int, Mapping>    // the directly mapped chunks, by chunk address
    ghost var cs: Chunks

    ghost function TheView(): View
      reads this, bins
    {
      View(cs, bins.g.bs, dv, dvsize, top, topsize)
    }

    ghost function TheRoom(): Room
      reads this
    {
      Room(cs, segs, maps, bins.hdr, dv, dvsize, top, topsize, contiguous, trimCheck, releaseChecks, granularity,
           pageSize, mmapThreshold, trimThreshold, useMmap)
    }

    /** The invariant of the chunks in segments. */
    ghost predicate Core()
      reads this, bins
    {
      bins.Valid() && HeapOk(bins.mem, TheView(), segs, bins.hdr, bins.least)
    }

    lemma CoreHeap()
      requires Core()
      ensures HeapOk(bins.mem, TheView(), segs, bins.hdr, bins.least)
    {
    }

    /** What init_mparams checks: page size and granularity are powers of two (they divide 2^63). */
    ghost predicate Params() {
      && Multiple(pageSize, 4096) && 4096 <= pageSize <= granularity < W64 / 2 && Multiple(granularity, pageSize)
      && Multiple(W64 / 2, granularity) && Multiple(W64 / 2, pageSize)
    }

    ghost predicate Valid()
      reads this, bins
    {
      && Params() && Core() && MapsOk(bins.mem, maps, segs, bins.hdr, bins.least) && Whole(segs, granularity)
      && (if segs == [] then maps == map[] && 0 <= bins.least else 0 < bins.least)
      && (contiguous ==> BrkOnly(segs))
    }

    /** No free chunk can serve `nb` bytes. */
    ghost predicate NoFit(nb: int)
      reads this, bins
    {
      (forall x :: x in bins.g.bs ==> bins.g.bs[x] < nb) && dvsize < nb && topsize <= nb
    }

    ghost predicate Refuses(nb: nat, sys: Replies)
      requires Params()
      reads this
    {
      TheRoom().Refuses(nb, sys)
    }

    /** Every chunk in the hands of the program, with its size. */
    ghost function Live(): map<int, int>
      reads this
    {
      Lives(cs) + MappedLives(maps)
    }

    /** A zeroed malloc_state: no memory obtained from the system yet. */
    constructor (
      hdr: int, tbin: int, granularity: nat, pageSize: nat, mmapThreshold: nat, trimThreshold: nat, useMmap: bool
    )
      requires hdr > 0 && tbin > 0 && Multiple(pageSize, 4096) && 4096 <= pageSize <= granularity < W64 / 2
      requires Multiple(granularity, pageSize)
      requires Multiple(W64 / 2, granularity) && Multiple(W64 / 2, pageSize)
      ensures Valid() && fresh(bins) && Live() == map[] && segs == []
    {
      bins := new BinTable(hdr, tbin);
      this.granularity, this.pageSize, this.mmapThreshold, this.trimThreshold := granularity, pageSize, mmapThreshold,
          trimThreshold;
      this.useMmap, contiguous := useMmap, true;
      dv, dvsize, top, topsize, trimCheck, releaseChecks := 0, 0, 0, 0, 0, 0;
      segs, cs, maps := [], map[], map[];
      new;
    }

    // ---- segments ----------------------------------------------------------------------------------------------

    /** init_top: aligns the space, writes the heads of top and of its tail. */
    method InitTop(p: int, psize: int)
      requires 0 < p
      modifies this`top, this`topsize, this`trimCheck, bins`mem
      ensures top == Align16(p) && topsize == psize - (Align16(p) - p)
      ensures bins.mem == TopWritten(old(bins.mem), top, topsize) && trimCheck == trimThreshold
      ensures Edited(old(bins.mem), bins.mem, {top, top + topsize}, {})
      ensures Head(bins.mem, top + topsize) == TOP_FOOT_SIZE
      ensures topsize != 0 ==> Head(bins.mem, top) == topsize + 1
    {
      var offset := Align16(p) - p;
      top := p + offset;
      topsize := psize - offset;
      bins.mem := SetHead(SetHead(bins.mem, top, topsize + 1), top + topsize, TOP_FOOT_SIZE);
      trimCheck := trimThreshold;
    }

    /** sys_alloc and sys_trim: the current segment gets a new end and top the size `t`. */
    method MoveTopEnd(t: int)
      requires Core() && segs != [] && 16 <= t && t % 16 == 0
      requires SegsOk(segs[|segs| - 1 := segs[|segs| - 1].(size := segs[|segs| - 1].size + t - topsize)], bins.hdr)
      modifies this`top, this`topsize, this`trimCheck, this`segs, this`cs, bins`mem
      ensures Core() && top == old(top) && topsize == t && Lives(cs) == Lives(old(cs)) && trimCheck == trimThreshold
      ensures old(top) in old(cs) && cs == Resettle(old(cs), top, TopEnd(old(cs), top, t))
      ensures segs == old(segs[|segs| - 1 := segs[|segs| - 1].(size := segs[|segs| - 1].size + t - topsize)])
      ensures Kept(old(bins.mem), bins.mem, Lives(old(cs))) && OuterKept(old(bins.mem), bins.mem, segs, bins.hdr)
    {
      hide HeapOk, BinsOk, Lives, Kept, OuterKept, Edited, LinkSlot, Resettle, TopEnd;
      ghost var m0, v0, segs0 := bins.mem, TheView(), segs;
      TopSegment(m0, v0, segs, bins.hdr, bins.least);
      var last := |segs| - 1;
      segs := segs[last := segs[last].(size := segs[last].size + t - topsize)];
      cs := Resettle(cs, top, TopEnd(cs, top, t));
      MoveEndHeap(m0, v0, View(cs, bins.g.bs, dv, dvsize, top, t), segs0, segs, bins.hdr, bins.least, t);
      InitTop(top, t);
      EditsKeepBins(m0, bins.mem, {top, top + t}, {}, bins.smallmap, bins.treemap, bins.roots, bins.hdr, bins.tbin,
                    bins.g);
    }

    /** sys_alloc: the first segment. */
    method FirstSegment(tbase: int, tsize: int, mmapped: bool)
      requires Core() && segs == [] && Fits([], bins.hdr, Segment(tbase, tsize, mmapped, 0)) && tsize >= 128
      modifies this`top, this`topsize, this`trimCheck, this`releaseChecks, this`segs, this`cs, bins`mem, bins`least
      ensures Core() && segs == [Segment(tbase, tsize, mmapped, 0)] && Lives(cs) == map[]
      ensures top == First(segs[0]) && top + topsize + TOP_FOOT_SIZE == tbase + tsize && trimCheck == trimThreshold
      ensures releaseChecks == MAX_RELEASE_CHECK_RATE
      ensures bins.least == (if old(bins.least) == 0 || tbase < old(bins.least) then tbase else old(bins.least))
      ensures OuterKept(old(bins.mem), bins.mem, segs, bins.hdr)
    {
      hide HeapOk, BinsOk, Lives, OuterKept, Edited, LinkSlot, WithTop, OnlySlots;
      ghost var s, v0, m0, least0 := Segment(tbase, tsize, mmapped, 0), TheView(), bins.mem, bins.least;
      EmptyView(m0, v0, bins.hdr, least0);
      if bins.least == 0 || tbase < bins.least { bins.least := tbase; }
      segs := [Segment(tbase, tsize, mmapped, 0)];
      releaseChecks := MAX_RELEASE_CHECK_RATE;
      bins.InitBins();
      ghost var m1 := bins.mem;
      EmptySlots(m0, m1, v0, bins.hdr, least0, segs);
      FirstBounds(s);
      InitTop(tbase, tsize - TOP_FOOT_SIZE);
      cs := WithTop(map[], top, topsize, 0, 0);
      AlignedFirst(s);
      FirstHeap(m1, v0, TheView(), bins.hdr, least0, bins.least, s, topsize);
      EditsKeepBins(m1, bins.mem, {top, top + topsize}, {}, bins.smallmap, bins.treemap, bins.roots, bins.hdr,
                    bins.tbin, bins.g);
      OuterTrans(m0, m1, bins.mem, segs, bins.hdr);
    }

    /** add_segment: the run of fenceposts that ends a closed segment. */
    method WriteFences(tnext: int, end: int) returns (nfences: nat)
      requires tnext % 16 == 0 && end % 16 == 0 && tnext + 32 <= end
      modifies bins`mem
      ensures Edited(old(bins.mem), bins.mem, Span(tnext, end), Span(tnext + 16, end))
      ensures Head(bins.mem, tnext) == FENCEPOST_HEAD && Fenced(bins.mem, tnext, nfences)
      ensures nfences == (end - tnext) / 8 - 1 && nfences >= 2
    {
      hide Edited, Span, SetWord, Fenced;
      var p := tnext;
      nfences := 0;
      FirstFence(bins.mem, tnext, end);
      MoreFenced(bins.mem, tnext, 0);
      bins.mem := SetWord(bins.mem, p + 8, FENCEPOST_HEAD);
      nfences := 1;
      while p + 16 < end
        invariant nfences >= 1 && p == tnext + 8 * (nfences - 1) && p + 16 <= end
        invariant Edited(old(bins.mem), bins.mem, Span(tnext, end), Span(tnext + 16, end))
        invariant Head(bins.mem, tnext) == FENCEPOST_HEAD && Fenced(bins.mem, tnext, nfences)
        decreases end - p
      {
        FenceFits(tnext, end, nfences);
        p := p + 8;
        NextFence(old(bins.mem), bins.mem, tnext, end, p + 8);
        MoreFenced(bins.mem, tnext, nfences);
        bins.mem := SetWord(bins.mem, p + 8, FENCEPOST_HEAD);
        nfences := nfences + 1;
      }
    }

    /** add_segment: closes the current segment with a record and fenceposts, and moves top to the new one. */
    method AddSegment(tbase: int, tsize: int, mmapped: bool)
      requires Core() && segs != [] && Fits(segs, bins.hdr, Segment(tbase, tsize, mmapped, 0)) && tsize >= 128
      requires bins.least <= tbase
      modifies this`top, this`topsize, this`trimCheck, this`segs, this`cs, bins
      ensures Core() && bins.least == old(bins.least) && Lives(cs) == Lives(old(cs)) && segs != []
      ensures |segs| == |old(segs)| + 1 && trimCheck == trimThreshold
      ensures segs[|segs| - 1] == Segment(tbase, tsize, mmapped, 0) && top + topsize + TOP_FOOT_SIZE == tbase + tsize
      ensures top == First(segs[|segs| - 1])
      ensures forall i :: 0 <= i < |old(segs)| ==>
        segs[i].base == old(segs)[i].base && segs[i].size == old(segs)[i].size &&
        segs[i].mmapped == old(segs)[i].mmapped
      ensures AddsSegment(old(TheRoom()), TheRoom(), Segment(tbase, tsize, mmapped, 0), top)
      ensures Kept(old(bins.mem), bins.mem, Lives(old(cs))) && OuterKept(old(bins.mem), bins.mem, segs, bins.hdr)
    {
      hide HeapOk, BinsOk, Lives, Kept, OuterKept, Edited, LinkSlot, WithTop, OnlySlots, Closed, Tagged, LayoutOk,
           TopWritten, SetInuseHead, SetFreeBefore, Span, ClosedWritten, Fits, EditsAt, ClosingHeads, ClosingFeet,
           Fenced, SegsOk, First, SetHead, SetFoot, RecordAt, ClosedEnd, AddsSegment;
      ghost var m0, v0, segs0, hdr, least0, room := bins.mem, TheView(), segs, bins.hdr, bins.least, TheRoom();
      ghost var s := Segment(tbase, tsize, mmapped, 0);
      TopSegment(m0, v0, segs, hdr, least0);
      var last, oldTop := |segs| - 1, top;
      var oldEnd := End(segs[last]);
      var ssize := 48;
      var rawsp := oldEnd - (ssize + 32 + 15);
      var asp := Align16(rawsp);
      var csp := if asp < oldTop + MIN_CHUNK_SIZE then oldTop else asp;
      RecordPlace(m0, v0, segs, hdr, least0);
      var tnext := csp + ssize;
      ApartFacts(segs, hdr, s);
      FirstBounds(s);
      AlignedFirst(s);
      InitTop(tbase, tsize - TOP_FOOT_SIZE);
      ghost var m1 := bins.mem;
      bins.mem := SetInuseHead(bins.mem, csp, ssize);
      ghost var m2 := bins.mem;
      segs := segs[last := segs[last].(rec := csp)] + [Segment(tbase, tsize, mmapped, 0)];
      var nfences := WriteFences(tnext, oldEnd);
      ghost var m3 := bins.mem;
      if csp != oldTop { bins.mem := SetFreeBefore(bins.mem, oldTop, csp - oldTop, csp); }
      ghost var m4 := bins.mem;
      ghost var v' := View(WithTop(Closed(cs, oldTop), top, topsize, 0, |segs0|),
                           if csp != oldTop then bins.g.bs[oldTop := csp - oldTop] else bins.g.bs, dv, dvsize, top,
                           topsize);
      AddingWrites(m0, m1, m2, m3, m4, v0, v', segs0, segs, hdr, least0, s, csp, bins.smallmap, bins.treemap,
                   bins.roots, bins.tbin, bins.g);
      cs := v'.cs;
      OnlySlotsSelf(m4, v'.bs, hdr);
      if csp != oldTop {
        RoomForRest(m0, m4, v0, v', segs0, segs, hdr, least0, s);
        bins.InsertChunk(oldTop, csp - oldTop);
      }
      AddsDone(m0, m4, bins.mem, v0, v', segs0, segs, hdr, least0, bins.least, s);
      SegmentAdded(room, TheRoom(), s, csp);
    }

    /**
     * prepend_alloc: serves a request from the front of space that extends segment `i` downwards, and releases the
     * rest.
     */
    method PrependAlloc(i: nat, newbase: int, nb: nat) returns (p: int)
      requires Core() && i < |segs| && 0 < newbase < segs[i].base
      requires SegsOk(segs[i := Extended(segs[i], newbase)], bins.hdr) && bins.least <= newbase
      requires MIN_CHUNK_SIZE <= nb && nb % 16 == 0
      requires First(Extended(segs[i], newbase)) + nb + MIN_CHUNK_SIZE <= First(segs[i])
      modifies this`dv, this`dvsize, this`top, this`topsize, this`segs, this`cs, bins
      ensures Core() && bins.least == old(bins.least) && segs == old(segs)[i := Extended(old(segs)[i], newbase)]
      ensures p != 0 && p % 16 == 0 && p !in Lives(old(cs)) && Lives(cs) == Lives(old(cs))[p := nb]
      ensures Prepends(old(TheRoom()), TheRoom(), i, newbase, nb, p)
      ensures Kept(old(bins.mem), bins.mem, Lives(old(cs))) && OuterKept(old(bins.mem), bins.mem, segs, bins.hdr)
    {
      hide HeapOk, BinsOk, Freed, Lives, Kept, OnlySlots, OuterKept, SetFreeBefore, SetFreeHead, SetHead, SetInuseHead,
           First, LinkSlot, Cut, Prepend, Opened, Edited,
           MergeStart, MergeEnd, MergeKind, NextOf, Releases, ReleaseWritten, SegsOk;
      ghost var m0, v0, segs0, hdr, least := bins.mem, TheView(), segs, bins.hdr, bins.least;
      PrependCut(m0, v0, segs, hdr, least, i, newbase, nb, bins.smallmap, bins.treemap, bins.roots, bins.tbin, bins.g);
      PrependShape(m0, v0, segs, hdr, least, i, newbase, nb);
      OpenedIs(m0, v0, segs, hdr, least, i, newbase, nb);
      AlignedFirst(segs[i]);
      AlignedFirst(Extended(segs[i], newbase));
      var oldbase := segs[i].base;
      segs := segs[i := segs[i].(base := newbase, size := segs[i].size + (oldbase - newbase))];
      p := Align16(newbase);
      var oldfirst := Align16(oldbase);
      var psize := oldfirst - p;
      var q := p + nb;
      var qsize := psize - nb;
      bins.mem := SetInuseHead(bins.mem, p, nb);
      cs := Opened(v0.cs, segs0, i, newbase, nb);
      ghost var m1, v1, x, mR := SetHead(bins.mem, q, qsize + 3), TheView(), qsize + 3, bins.mem;
      ghost var cs1 := cs;
      OpenedEnd(m1, v1, segs, hdr, least, q);
      PrependSettle(q, qsize, oldfirst, m1, v1, x);
      PrependedLives(Lives(v0.cs), p, nb, q, cs1[q].size);
      KeptPart(m1, bins.mem, Lives(cs1) - {q}, Lives(v0.cs));
      KeptTrans(m0, m1, bins.mem, Lives(v0.cs));
      OuterTrans(m0, m1, bins.mem, segs, hdr);
    }

    /** prepend_alloc: what is left after serving joins top, the victim or a bin. */
    method PrependSettle(q: int, qsize: int, oldfirst: int, ghost m1: Mem, ghost v1: View, ghost x: int)
      requires HeapOk(m1, v1, segs, bins.hdr, bins.least) && v1 == TheView() && m1 == SetHead(bins.mem, q, x)
      requires bins.Valid()
      requires BinsOk(m1, bins.smallmap, bins.treemap, bins.roots, bins.hdr, bins.tbin, bins.g)
      requires q in cs && cs[q].kind.Live? && oldfirst == NextOf(cs, q) && MergeStart(cs, q) == q
      requires qsize == oldfirst - q
      requires q !in bins.g.bs && q != oldfirst && !LinkSlot(bins.g.bs, bins.hdr, q)
      modifies this`dv, this`dvsize, this`top, this`topsize, this`cs, bins
      ensures Core() && cs == Freed(v1.cs, q) && Lives(cs) == Lives(v1.cs) - {q}
      ensures dv == (if old(dv) == oldfirst then q else old(dv))
      ensures dvsize == (if old(dv) == oldfirst then old(dvsize) + qsize else old(dvsize))
      ensures Kept(m1, bins.mem, Lives(v1.cs) - {q})
      ensures OuterKept(m1, bins.mem, segs, bins.hdr) && bins.least == old(bins.least)
    {
      hide HeapOk, BinsOk, Freed, Lives, Kept, OnlySlots, OuterKept, SetFreeBefore, SetFreeHead, SetHead, LinkSlot,
           MergeStart, MergeEnd, MergeKind, NextOf, Releases, ReleaseWritten, Edited;
      ghost var hdr, least, mR := bins.hdr, bins.least, bins.mem;
      ghost var q', e, k := DisposeFacts(m1, v1, segs, hdr, least, q);
      OnlySlotsSelf(m1, v1.bs, hdr);
      ghost var cs1 := cs;
      if oldfirst == top {
        topsize := topsize + qsize;
        top := q;
        Overwritten(mR, q, x, topsize + 1, 0, oldfirst);
        ReleasedIs(m1, m1, v1, segs, hdr, least, q);
        bins.mem := SetHead(bins.mem, q, topsize + 1);
        cs := Freed(cs1, q);
        ForwardExit(m1, v1, TheView(), segs, hdr, least, q);
        ReleaseFinish(m1, m1, bins.mem, v1, TheView(), segs, hdr, least, q, bins.smallmap, bins.treemap, bins.roots,
                      bins.tbin, bins.g);
      } else if oldfirst == dv {
        dvsize := dvsize + qsize;
        dv := q;
        Overwritten(mR, q, x, 0, dvsize, oldfirst);
        ReleasedIs(m1, m1, v1, segs, hdr, least, q);
        bins.mem := SetFreeHead(bins.mem, q, dvsize);
        cs := Freed(cs1, q);
        ForwardExit(m1, v1, TheView(), segs, hdr, least, q);
        ReleaseFinish(m1, m1, bins.mem, v1, TheView(), segs, hdr, least, q, bins.smallmap, bins.treemap, bins.roots,
                      bins.tbin, bins.g);
      } else {
        PrependRest(q, qsize, oldfirst, m1, v1, x);
      }
    }

    /** The last branch of prepend_alloc: the rest is merged with a free first chunk and put into a bin. */
    method PrependRest(q: int, qsize0: int, first: int, ghost m1: Mem, ghost v1: View, ghost x: int)
      requires HeapOk(m1, v1, segs, bins.hdr, bins.least) && v1 == TheView() && m1 == SetHead(bins.mem, q, x)
      requires bins.Valid()
      requires BinsOk(m1, bins.smallmap, bins.treemap, bins.roots, bins.hdr, bins.tbin, bins.g)
      requires q in cs && cs[q].kind.Live? && first == NextOf(cs, q) && MergeStart(cs, q) == q && qsize0 == first - q
      requires q !in bins.g.bs
      requires first != top && first != dv && !LinkSlot(bins.g.bs, bins.hdr, q)
      modifies this`cs, bins
      ensures Core() && cs == Freed(v1.cs, q) && Lives(cs) == Lives(v1.cs) - {q}
      ensures Kept(m1, bins.mem, Lives(v1.cs) - {q})
      ensures OuterKept(m1, bins.mem, segs, bins.hdr) && bins.least == old(bins.least)
    {
      hide HeapOk, BinsOk, Freed, Lives, Kept, OnlySlots, OuterKept, SetFreeBefore, SetHead, LinkSlot, Edited,
           MergeStart, MergeEnd, MergeKind, NextOf, Releases, ReleaseWritten, ReleasedMem;
      ghost var hdr, least, mR := bins.hdr, bins.least, bins.mem;
      ghost var q', e, k := DisposeFacts(m1, v1, segs, hdr, least, q);
      OnlySlotsSelf(mR, v1.bs, hdr);
      var qsize, oldfirst := qsize0, first;
      HeadAt(mR, q, x, oldfirst);
      if Pinuse(bins.mem, oldfirst) && !Cinuse(bins.mem, oldfirst) {
        var nsize := ChunkSize(bins.mem, oldfirst);
        bins.UnlinkChunk(oldfirst, nsize);
        oldfirst := oldfirst + nsize;
        qsize := qsize + nsize;
      }
      ghost var m2 := SetHead(bins.mem, q, x);
      UnlinkBeside(mR, bins.mem, v1.bs, hdr, q, x);
      HeadEdit(bins.mem, q, x);
      SlotsFewer(v1.bs, bins.g.bs, hdr, q);
      EditsKeepBins(bins.mem, m2, {q}, {}, bins.smallmap, bins.treemap, bins.roots, hdr, bins.tbin, bins.g);
      Overwritten(bins.mem, q, x, 0, qsize, oldfirst);
      MergedBefore(m2, cs, q);
      bins.mem := SetFreeBefore(bins.mem, q, qsize, oldfirst);
      BinExit(m1, v1, TheView().(cs := Freed(v1.cs, q), bs := bins.g.bs[q := qsize]), segs, hdr, least, q);
      BinReleased(q, qsize, q, m1, m2, v1);
    }

    /**
     * release_unused_segments, one segment: unmaps it if it holds no chunk in use; `unmapped` is the system's answer.
     */
    method ReleaseSegment(i: nat, unmapped: bool) returns (released: nat)
      requires Params() && Core() && Whole(segs, granularity) && i + 1 < |segs|
      modifies this`dv, this`dvsize, this`segs, this`cs, bins
      ensures Core() && bins.least == old(bins.least) && Lives(cs) == Lives(old(cs))
      ensures released > 0 <==> old(segs)[i].mmapped && old(Idle(cs, segs, i)) && unmapped
      ensures released > 0 ==> released == old(segs)[i].size
      ensures segs == Spared(old(segs), i, released > 0)
      ensures cs == if released > 0 then Drop(old(cs), i) else old(cs)
      ensures dv == if VictimFills(old(cs), old(segs), old(dv), i) then 0 else old(dv)
      ensures dvsize == if VictimFills(old(cs), old(segs), old(dv), i) then 0 else old(dvsize)
      ensures Kept(old(bins.mem), bins.mem, Lives(old(cs))) && OuterKept(old(bins.mem), bins.mem, old(segs), bins.hdr)
    {
      hide HeapOk, BinsOk, Lives, Kept, OnlySlots, OuterKept, First, Drop, Spaced, Multiple, Idle, SubMap;
      ghost var m0, v0, segs0, hdr, least := bins.mem, TheView(), segs, bins.hdr, bins.least;
      AllKept(m0, Lives(cs), segs, hdr);
      released := 0;
      if segs[i].mmapped {
        var p := Align16(segs[i].base);
        var psize := ChunkSize(bins.mem, p);
        AlignedFirst(segs[i]);
        FirstTags(m0, v0, segs, hdr, least, i);
        IdleTest(v0.cs, segs, i);
        if Pinuse(bins.mem, p) && !Cinuse(bins.mem, p) && p + psize >= End(segs[i]) - TOP_FOOT_SIZE {
          IdleSize(m0, v0, segs, hdr, least, i, granularity);
          OnlySlotsSelf(m0, v0.bs, hdr);
          if p == dv {
            dv := 0;
            dvsize := 0;
          } else {
            bins.UnlinkLargeChunk(p);
          }
          ghost var m2 := bins.mem;
          if unmapped {
            released := segs[i].size;
            cs := Drop(cs, i);
            segs := segs[..i] + segs[i + 1..];
            NoSuch(v0.bs, p);
            DropHeap(m0, m2, v0, TheView(), segs0, hdr, least, i);
          } else {
            PartOf(v0.bs, p);
            RoomAgain(m0, m2, v0, segs, hdr, least, p, bins.g.bs);
            bins.InsertLargeChunk(p, psize);
            RebinSlots(m0, m2, bins.mem, v0.bs, bins.g.bs, p, psize, hdr);
            RebinHeap(m0, bins.mem, v0, TheView(), segs, hdr, least, i, psize);
          }
        }
      }
    }

    /** release_unused_segments, the loop over the segments before the current one. */
    method ScanSegments(answers: nat -> bool) returns (released: nat, nsegs: nat)
      requires Params() && Core() && Whole(segs, granularity) && segs != []
      modifies this`dv, this`dvsize, this`segs, this`cs, bins
      ensures Core() && bins.least == old(bins.least) && Lives(cs) == Lives(old(cs))
      ensures segs == Staying(old(cs), old(segs), answers, 0) && (released == 0 <==> segs == old(segs))
      ensures segs != [] && segs[|segs| - 1] == old(segs)[|old(segs)| - 1] && Fewer(segs, old(segs))
      ensures Whole(segs, granularity) && nsegs == |old(segs)| - 1
      ensures dv == if VictimIdle(old(cs), old(segs), old(dv), 0) then 0 else old(dv)
      ensures dvsize == if VictimIdle(old(cs), old(segs), old(dv), 0) then 0 else old(dvsize)
      ensures Kept(old(bins.mem), bins.mem, Lives(old(cs))) && OuterKept(old(bins.mem), bins.mem, old(segs), bins.hdr)
    {
      hide HeapOk, BinsOk, Lives, Kept, OuterKept, Multiple, Fewer, Whole, Idle, Drop, Scanned, Staying,
           Core, Params, Spared, VictimIdle, VictimFills;
      ghost var m0, live, hdr, cs0, segs0 := bins.mem, Lives(cs), bins.hdr, cs, segs;
      AllKept(m0, live, segs, hdr);
      FewerSelf(segs);
      ScanStart(cs, segs, answers);
      ghost var dv0, dvsize0 := dv, dvsize;
      VictimScanned(cs, segs, dv, |segs| - 1);
      released := 0;
      nsegs := 0;
      var i := |segs| - 1;
      while i > 0
        invariant 0 <= i < |segs| && Core() && bins.least == old(bins.least) && Lives(cs) == live
        invariant nsegs == |segs0| - 1 - i && Scanned(cs0, segs0, answers, cs, segs, i, released)
        invariant Fewer(segs, old(segs)) && Whole(segs, granularity)
        invariant dv == if VictimIdle(cs0, segs0, dv0, i) then 0 else dv0
        invariant dvsize == if VictimIdle(cs0, segs0, dv0, i) then 0 else dvsize0
        invariant Kept(m0, bins.mem, live) && OuterKept(m0, bins.mem, old(segs), hdr)
      {
        ghost var m1, v1, segs1 := bins.mem, TheView(), segs;
        CoreHeap();
        i := i - 1;
        nsegs := nsegs + 1;
        VictimStep(cs0, segs0, dv0, answers, m1, v1, segs1, hdr, bins.least, i, released);
        var r := ReleaseSegment(i, answers(nsegs));
        ScanStep(cs0, segs0, answers, m1, v1, segs1, hdr, bins.least, i, released, r);
        released := released + r;
        FewerLess(segs1, old(segs), i, r > 0, granularity);
        KeptTrans(m0, m1, bins.mem, live);
        FewerOuter(m1, bins.mem, segs1, old(segs), hdr);
        OuterTrans(m0, m1, bins.mem, old(segs), hdr);
      }
      ScanDone(cs0, segs0, answers, cs, segs, released);
    }

    /** release_unused_segments: `answers` says which unmap calls succeed. */
    method ReleaseUnusedSegments(answers: nat -> bool) returns (released: nat)
      requires Params() && Core() && Whole(segs, granularity) && segs != []
      modifies this`dv, this`dvsize, this`segs, this`cs, this`releaseChecks, bins
      ensures Core() && bins.least == old(bins.least) && Lives(cs) == Lives(old(cs))
      ensures Sweeps(old(TheRoom()), TheRoom(), answers) && (released == 0 <==> segs == old(segs))
      ensures segs != [] && segs[|segs| - 1] == old(segs)[|old(segs)| - 1] && Fewer(segs, old(segs))
      ensures Whole(segs, granularity)
      ensures Kept(old(bins.mem), bins.mem, Lives(old(cs))) && OuterKept(old(bins.mem), bins.mem, old(segs), bins.hdr)
    {
      hide HeapOk, BinsOk, Lives, Kept, OuterKept, Multiple, Fewer, Whole, Staying, VictimIdle;
      var nsegs;
      released, nsegs := ScanSegments(answers);
      releaseChecks := NextChecks(nsegs);
    }

    /** sys_trim, first part: gives back whole granularity units of top, so that more than `pad` bytes are left. */
    method TrimTop(pad: nat, shrinks: bool) returns (released: nat)
      requires Params() && Core() && Whole(segs, granularity) && segs != [] && topsize > pad >= TOP_FOOT_SIZE
      modifies this`top, this`topsize, this`trimCheck, this`segs, this`cs, bins`mem
      ensures Core() && Lives(cs) == Lives(old(cs)) && Whole(segs, granularity) && segs != []
      ensures Shrunk(segs, old(segs)) && top == old(top) && topsize == old(topsize) - released && topsize > pad
      ensures old(top) in old(cs) && TheRoom() == TopCut(old(TheRoom()), released)
      ensures released == TrimAmount(old(TheRoom()), pad, shrinks)
      ensures Kept(old(bins.mem), bins.mem, Lives(old(cs))) && OuterKept(old(bins.mem), bins.mem, old(segs), bins.hdr)
    {
      hide HeapOk, BinsOk, Lives, Kept, OuterKept, Multiple, TrimExtra, SegsOk, Shrunk, Whole;
      ghost var m0, segs0 := bins.mem, segs;
      AllKept(m0, Lives(cs), segs, bins.hdr);
      ShrunkSelf(segs);
      released := 0;
      var unit := granularity;
      var extra := TrimExtra(topsize, pad, unit);
      TrimLeavesPad(topsize, pad, unit);
      TopSegment(m0, TheView(), segs, bins.hdr, bins.least);
      NeverPinned(m0, TheView(), segs, bins.hdr, bins.least);
      var last := |segs| - 1;
      if segs[last].mmapped {
        if segs[last].size >= extra && !Pinned(segs) {
          if shrinks { released := extra; }
        }
      } else {
        if extra >= HALF_MAX_SIZE_T {
          CapExtra(extra, unit);
          extra := HALF_MAX_SIZE_T + 1 - unit;
        }
        if shrinks { released := extra; }
      }
      if released != 0 {
        ShrinkSegs(m0, TheView(), segs, bins.hdr, bins.least, released, unit, pageSize);
        WholeShrunk(segs, released, unit);
        MoveTopEnd(topsize - released);
        ShrunkOuter(m0, bins.mem, segs, segs0, bins.hdr);
      }
    }

    /** sys_trim: trims top and then gives back idle segments. `sys` holds the system's answers. */
    method SysTrim(pad0: nat, sys: Replies) returns (result: bool)
      requires Params() && Core() && Whole(segs, granularity)
      modifies this`dv, this`dvsize, this`top, this`topsize, this`trimCheck, this`segs, this`cs, this`releaseChecks,
          bins
      ensures Core() && bins.least == old(bins.least) && Lives(cs) == Lives(old(cs)) && Whole(segs, granularity)
      ensures segs != [] <==> old(segs) != []
      ensures Shrunk(segs, old(segs)) && top == old(top) && topsize <= old(topsize)
      ensures Trims(old(TheRoom()), TheRoom(), pad0, sys) && (result <==> segs != old(segs))
      ensures Kept(old(bins.mem), bins.mem, Lives(old(cs))) && OuterKept(old(bins.mem), bins.mem, old(segs), bins.hdr)
    {
      hide HeapOk, BinsOk, Lives, Kept, OuterKept, Multiple, Shrunk, Whole, Fewer, TopCut, TrimAmount, Sweeps;
      ghost var m0, v0, live, hdr, segs0, room := bins.mem, TheView(), Lives(cs), bins.hdr, segs, TheRoom();
      AllKept(m0, live, segs, hdr);
      ShrunkSelf(segs);
      TopThere(m0, TheView(), segs, hdr, bins.least);
      var released: nat := 0;
      if pad0 < MAX_REQUEST && top != 0 {
        var pad := pad0 + TOP_FOOT_SIZE;
        NoTrim(room, pad, sys.shrinks);
        if topsize > pad { released := TrimTop(pad, sys.shrinks); }
        ghost var m1, segs1, mid, amount := bins.mem, segs, TheRoom(), released;
        var r := ReleaseUnusedSegments(sys.unmaps);
        ghost var swept := TheRoom();
        KeptTrans(m0, m1, bins.mem, live);
        ShrunkOuter(m1, bins.mem, segs1, segs0, hdr);
        OuterTrans(m0, m1, bins.mem, segs0, hdr);
        ShrunkTrans(segs, segs1, segs0);
        released := released + r;
        if released == 0 && topsize > trimCheck { trimCheck := W64 - 1; }
        TrimsIs(room, mid, swept, TheRoom(), pad0, amount, r, sys);
      }
      TrimsBack(m0, v0, room, TheRoom(), bins.least, pad0, sys);
      result := released != 0;
    }

    /** mmap_alloc: `reply` is the address of a new page-aligned mapping, or -1. */
    method MmapAlloc(nb: nat, reply: int) returns (p: int)
      requires Valid() && MIN_CHUNK_SIZE <= nb < W64 && segs != []
      modifies this`maps, bins`mem, bins`least
      ensures Valid() && TheView() == old(TheView()) && bins.least <= old(bins.least)
      ensures p == 0 ==> maps == old(maps) && bins.mem == old(bins.mem) && bins.least == old(bins.least)
      ensures p == 0 <==> NoMapping(RoundUp(nb + 63, pageSize), nb, reply, segs, bins.hdr, old(maps))
      ensures p != 0 ==> nb < W64 - 1 && p % 16 == 0 && 0 < p && p !in old(maps) && p !in Lives(cs) && p in maps
      ensures p != 0 ==> maps == old(maps)[p := Mapping(reply, RoundUp(nb + 63, pageSize))] && p == Align16(reply)
      ensures p != 0 ==> nb <= MappedSize(p, maps[p])
      ensures Kept(old(bins.mem), bins.mem, Lives(cs)) && Kept(old(bins.mem), bins.mem, MappedLives(old(maps)))
    {
      hide HeapOk, BinsOk, Lives, Kept, OuterKept, Multiple, Whole, RoundUp, MapsOk, Edited, LinkSlot, MappedLives,
           Vacant;
      ghost var m0, v0, hdr := bins.mem, TheView(), bins.hdr;
      AllKept(m0, Lives(cs), segs, hdr);
      AllKept(m0, MappedLives(maps), segs, hdr);
      p := 0;
      var mmsize := RoundUp(nb + 63, pageSize);
      if mmsize > nb {
        RoundUpFits(nb, 63, pageSize);
        Page16Multiple(mmsize, pageSize);
        var mm := reply;
        if mm != -1 && mm % 16 == 0 && Vacant(mm, mmsize, segs, bins.hdr, maps) {
          VacantSize(mm, mmsize, segs, hdr, maps);
          var offset := Align16(mm) - mm;
          var psize := mmsize - offset - MMAP_FOOT_PAD;
          p := mm + offset;
          MapAdded(m0, maps, v0, segs, hdr, bins.least, if mm < bins.least then mm else bins.least, mm, mmsize, p,
                   psize);
          bins.mem := SetFoot(bins.mem, p, offset);
          bins.mem := SetHead(bins.mem, p, psize);
          bins.mem := SetHead(bins.mem, p + psize, FENCEPOST_HEAD);
          bins.mem := SetWord(bins.mem, p + psize + 16, 0);
          if bins.least == 0 || mm < bins.least { bins.least := mm; }
          maps := maps[p := Mapping(mm, mmsize)];
          EditsKeepBins(m0, bins.mem, {p, p + psize}, {p, p + psize + 16}, bins.smallmap, bins.treemap, bins.roots,
                        hdr, bins.tbin, bins.g);
        }
      }
    }

    /** sys_alloc: extends the heap at the break. `tbase` is -1 if the system does not grant a contiguous extension. */
    method Morecore(nb: nat, asize: nat, sys: Replies) returns (tbase: int, tsize: nat)
      requires Valid() && topsize <= nb && asize > nb && asize == RoundUp(nb + SYS_ALLOC_PADDING, granularity)
      requires nb < W64
      modifies this`contiguous
      ensures Valid() && TheView() == old(TheView()) && bins.mem == old(bins.mem)
      ensures (tbase != -1 <==> contiguous) && (tbase == -1 <==> old(TheRoom()).BreakRefused(nb, sys))
      ensures (contiguous ==> old(contiguous))
      ensures tbase != -1 ==> tbase == sys.morecore && tsize == old(TheRoom()).Extension(nb, sys)
      ensures tbase == -1 || (Vacant(tbase, tsize, segs, bins.hdr, maps) && (tbase + tsize) % 16 == 0 && tsize >= 128)
      ensures tbase != -1 ==> forall k :: 0 <= k < |segs| && !segs[k].mmapped ==> End(segs[k]) <= tbase
      ensures tbase != -1 && segs == [] ==> tsize >= nb + SYS_ALLOC_PADDING
      ensures tbase != -1 && segs != [] ==> tbase == End(segs[|segs| - 1]) && tsize >= nb - topsize + SYS_ALLOC_PADDING
      ensures tbase != -1 && segs != [] ==> tsize % 16 == 0
    {
      hide HeapOk, BinsOk, Multiple, Whole, RoundUp, MapsOk, Vacant, PageEnd;
      tbase, tsize := -1, 0;
      RoundUpFits(nb, SYS_ALLOC_PADDING, granularity);
      TopThere(bins.mem, TheView(), segs, bins.hdr, bins.least);
      if contiguous {
        if top == 0 {
          var base := sys.brk;
          if base != -1 && 0 < base {
            var ssize := asize + (PageEnd(base, pageSize) - base);
            FirstExtension(nb, base, asize, granularity, pageSize);
            if ssize > nb && ssize < HALF_MAX_SIZE_T && sys.morecore == base &&
               Vacant(base, ssize, segs, bins.hdr, maps) {
              tbase, tsize := base, ssize;
            }
          }
        } else {
          TopSegment(bins.mem, TheView(), segs, bins.hdr, bins.least);
          var ssize := RoundUp(nb - topsize + SYS_ALLOC_PADDING, granularity);
          var end := End(segs[|segs| - 1]);
          SegEnd(bins.mem, TheView(), segs, bins.hdr, bins.least);
          NextExtension(nb, topsize, granularity, pageSize, end);
          if ssize < HALF_MAX_SIZE_T && sys.morecore == end && Vacant(end, ssize, segs, bins.hdr, maps)
             && forall k :: 0 <= k < |segs| && !segs[k].mmapped ==> End(segs[k]) <= end {
            tbase, tsize := end, ssize;
          }
        }
        if tbase == -1 { contiguous := false; }
      }
    }

    /** sys_alloc: the most recent segment that ends at `tbase`, or -1. */
    method SegmentEndingAt(tbase: int) returns (j: int)
      ensures -1 <= j < |segs| && (j >= 0 ==> End(segs[j]) == tbase)
      ensures forall i :: j < i < |segs| ==> End(segs[i]) != tbase
    {
      j := |segs| - 1;
      while j >= 0 && tbase != End(segs[j])
        invariant -1 <= j < |segs| && forall i :: j < i < |segs| ==> End(segs[i]) != tbase
      {
        j := j - 1;
      }
    }

    /** sys_alloc: the most recent segment that starts at `end`, or -1. */
    method SegmentStartingAt(end: int) returns (j: int)
      ensures -1 <= j < |segs| && (j >= 0 ==> segs[j].base == end)
      ensures (j < 0 ==> forall i :: 0 <= i < |segs| ==> segs[i].base != end)
    {
      j := |segs| - 1;
      while j >= 0 && segs[j].base != end
        invariant -1 <= j < |segs| && forall i :: j < i < |segs| ==> segs[i].base != end
      {
        j := j - 1;
      }
    }

    /** sys_alloc, first-time initialization. */
    method UseFirst(tbase: int, tsize: nat, mmapped: bool)
      requires Valid() && segs == [] && Vacant(tbase, tsize, segs, bins.hdr, maps) && (tbase + tsize) % 16 == 0
      requires tsize >= 128
      requires mmapped ==> Multiple(tsize, granularity) && !contiguous
      modifies this`top, this`topsize, this`trimCheck, this`releaseChecks, this`segs, this`cs, bins`mem, bins`least
      ensures Valid() && Lives(cs) == Lives(old(cs)) && segs == [Segment(tbase, tsize, mmapped, 0)]
      ensures TakesFirst(old(TheRoom()), TheRoom(), Segment(tbase, tsize, mmapped, 0), top)
      ensures topsize > tsize - SYS_ALLOC_PADDING
      ensures Kept(old(bins.mem), bins.mem, Lives(old(cs))) && Kept(old(bins.mem), bins.mem, MappedLives(maps))
    {
      hide HeapOk, BinsOk, OuterKept, Multiple, Vacant, First, Fits;
      VacantSize(tbase, tsize, segs, bins.hdr, maps);
      VacantFits(segs, bins.hdr, maps, Segment(tbase, tsize, mmapped, 0));
      EmptyView(bins.mem, TheView(), bins.hdr, bins.least);
      FirstSegment(tbase, tsize, mmapped);
      FirstBounds(segs[0]);
    }

    /** sys_alloc, append: the new space extends the current segment. */
    method UseAppend(tsize: nat)
      requires Valid() && segs != [] && Vacant(End(segs[|segs| - 1]), tsize, segs, bins.hdr, maps) && tsize % 16 == 0
      requires segs[|segs| - 1].mmapped ==> Multiple(tsize, granularity)
      modifies this`top, this`topsize, this`trimCheck, this`segs, this`cs, bins`mem
      ensures Valid() && Lives(cs) == Lives(old(cs)) && topsize == old(topsize) + tsize && segs != []
      ensures Appends(old(TheRoom()), TheRoom(), tsize, top)
      ensures Kept(old(bins.mem), bins.mem, Lives(old(cs))) && Kept(old(bins.mem), bins.mem, MappedLives(maps))
    {
      hide HeapOk, BinsOk, Lives, Kept, OuterKept, Multiple, Whole, MapsOk, MappedLives, Vacant, SegsOk, SegsClear;
      ghost var m0, segs0, hdr := bins.mem, segs, bins.hdr;
      TopSegment(m0, TheView(), segs, hdr, bins.least);
      assert SegsOk(segs, hdr) by { FirstsAt(m0, TheView(), segs, hdr, bins.least, 0); }
      VacantAfter(segs, hdr, maps, tsize);
      AppendClear(m0, maps, segs, hdr, bins.least, tsize);
      WholeGrown(segs, tsize, granularity);
      MoveTopEnd(topsize + tsize);
      MapsFrame(m0, bins.mem, maps, segs0, segs, hdr, bins.least, bins.least);
    }

    /** sys_alloc, prepend: the new space extends segment `k` downwards. */
    method UsePrepend(k: nat, tbase: int, nb: nat) returns (p: int)
      requires Valid() && k < |segs| && tbase < segs[k].base
      requires Vacant(tbase, segs[k].base - tbase, segs, bins.hdr, maps) && bins.least <= tbase
      requires MIN_CHUNK_SIZE <= nb && nb % 16 == 0 && segs[k].base - tbase >= nb + SYS_ALLOC_PADDING
      requires segs[k].mmapped ==> Multiple(segs[k].base - tbase, granularity)
      modifies this`dv, this`dvsize, this`top, this`topsize, this`segs, this`cs, bins
      ensures Valid() && segs != [] && p != 0 && p % 16 == 0 && p !in Lives(old(cs))
      ensures Prepends(old(TheRoom()), TheRoom(), k, tbase, nb, p)
      ensures Lives(cs) == Lives(old(cs))[p := nb]
      ensures Kept(old(bins.mem), bins.mem, Lives(old(cs))) && Kept(old(bins.mem), bins.mem, MappedLives(maps))
    {
      hide HeapOk, BinsOk, Lives, Kept, OuterKept, Multiple, Whole, MapsOk, MappedLives, Vacant, SegsOk, SegsClear,
           First;
      ghost var m0, segs0, hdr, least := bins.mem, segs, bins.hdr, bins.least;
      FirstsAt(m0, TheView(), segs, hdr, least, k);
      VacantSize(tbase, segs[k].base - tbase, segs, hdr, maps);
      VacantBefore(segs, hdr, maps, k, tbase);
      PrependClear(m0, maps, segs, hdr, least, k, tbase);
      WholeExtended(segs, k, tbase, granularity);
      FirstBounds(segs[k]);
      FirstBounds(Extended(segs[k], tbase));
      p := PrependAlloc(k, tbase, nb);
      MapsFrame(m0, bins.mem, maps, segs0, segs, hdr, least, least);
    }

    /** sys_alloc, otherwise: the new space becomes the current segment. */
    method UseAdd(tbase: int, tsize: nat, mmapped: bool)
      requires Valid() && segs != [] && Vacant(tbase, tsize, segs, bins.hdr, maps) && (tbase + tsize) % 16 == 0
      requires tsize >= 128 && bins.least <= tbase
      requires mmapped ==> Multiple(tsize, granularity) && !contiguous
      modifies this`top, this`topsize, this`trimCheck, this`segs, this`cs, bins
      ensures Valid() && Lives(cs) == Lives(old(cs)) && topsize > tsize - SYS_ALLOC_PADDING && segs != []
      ensures AddsSegment(old(TheRoom()), TheRoom(), Segment(tbase, tsize, mmapped, 0), top)
      ensures Kept(old(bins.mem), bins.mem, Lives(old(cs))) && Kept(old(bins.mem), bins.mem, MappedLives(maps))
    {
      hide HeapOk, BinsOk, Lives, Kept, OuterKept, Multiple, Whole, MapsOk, MappedLives, Vacant, SegsOk, SegsClear,
           First, Fits;
      ghost var m0, segs0, hdr, least := bins.mem, segs, bins.hdr, bins.least;
      VacantSize(tbase, tsize, segs, hdr, maps);
      VacantFits(segs, hdr, maps, Segment(tbase, tsize, mmapped, 0));
      AddSegment(tbase, tsize, mmapped);
      FirstBounds(segs[|segs| - 1]);
      AddClear(m0, maps, segs0, segs, hdr, least, tbase, tsize);
      WholeAdded(segs0, segs, granularity);
      MapsFrame(m0, bins.mem, maps, segs0, segs, hdr, least, least);
    }

    /** sys_alloc: gets memory from the system and serves the request from it. */
    method SysAlloc(nb: nat, sys: Replies) returns (p: int)
      requires Valid() && MIN_CHUNK_SIZE <= nb < W64 && topsize <= nb && (nb % 16 == 0 || nb == W64 - 1)
      modifies this, bins
      ensures Valid()
      ensures p == 0 ==> Live() == old(Live()) && Stays(old(TheRoom()), TheRoom())
      ensures p == 0 <==> old(Refuses(nb, sys))
      ensures p != 0 ==> Grants(old(TheRoom()), TheRoom(), p, nb, sys)
      ensures p != 0 ==> nb < W64 - 1 && NewLive(old(Live()), Live(), p, nb)
      ensures p != 0 ==> (p !in maps ==> Live()[p] < nb + MIN_CHUNK_SIZE)
      ensures Kept(old(bins.mem), bins.mem, old(Live()))
    {
      hide HeapOk, BinsOk, Lives, Kept, Multiple, Whole, MapsOk, MappedLives, RoundUp, NewLive;
      ghost var m0, live0, maps0 := bins.mem, Lives(cs), maps;
      TopThere(m0, TheView(), segs, bins.hdr, bins.least);
      AllKept(m0, Live(), segs, bins.hdr);
      AllKept(m0, live0, segs, bins.hdr);
      AllKept(m0, MappedLives(maps), segs, bins.hdr);
      p := 0;
      if useMmap && nb >= mmapThreshold && topsize != 0 {
        p := MmapAlloc(nb, sys.direct);
        if p != 0 {
          KeptBoth(m0, bins.mem, live0, MappedLives(maps0));
          MappedAdded(live0, maps0, maps, p, nb);
          return;
        }
      }
      var asize := RoundUp(nb + SYS_ALLOC_PADDING, granularity);
      if asize <= nb { return 0; }
      RoundUpFits(nb, SYS_ALLOC_PADDING, granularity);
      p := Obtain(nb, asize, sys);
    }

    /**
     * sys_alloc: asks for an extension at the break, then for a new mapping, and serves the request from what it gets.
     */
    method Obtain(nb: nat, asize: nat, sys: Replies) returns (p: int)
      requires Valid() && MIN_CHUNK_SIZE <= nb < W64 && topsize <= nb && nb % 16 == 0 && asize > nb
      requires asize == RoundUp(nb + SYS_ALLOC_PADDING, granularity)
      modifies this, bins
      ensures Valid() && maps == old(maps) && (contiguous ==> old(contiguous))
      ensures p == 0 ==> Live() == old(Live()) && Stays(old(TheRoom()), TheRoom())
      ensures p != 0 ==> p !in maps && Obtains(old(TheRoom()), TheRoom(), p, nb, sys)
      ensures p == 0 <==>
        old(TheRoom()).BreakRefused(nb, sys) && NoMapping(asize, nb, sys.mmap, old(segs), bins.hdr, old(maps))
      ensures p != 0 ==> NewLive(old(Live()), Live(), p, nb) && Live()[p] < nb + MIN_CHUNK_SIZE
      ensures Kept(old(bins.mem), bins.mem, old(Live()))
    {
      hide HeapOk, BinsOk, Lives, Kept, Multiple, Whole, MapsOk, MappedLives, Vacant, RoundUp, NewLive;
      AllKept(bins.mem, Live(), segs, bins.hdr);
      RoundUpFits(nb, SYS_ALLOC_PADDING, granularity);
      var mmapped := false;
      var tbase, tsize := Morecore(nb, asize, sys);
      if tbase == -1 {
        Aligned16(asize, granularity, pageSize);
        MultipleAtLeast(asize, granularity);
        if sys.mmap != -1 && sys.mmap % 16 == 0 && Vacant(sys.mmap, asize, segs, bins.hdr, maps) {
          tbase, tsize, mmapped := sys.mmap, asize, true;
        }
      }
      p := 0;
      if tbase != -1 {
        p := Serve(tbase, tsize, mmapped, nb);
      }
    }

    /** sys_alloc: the new space extends a segment downwards and serves the request, or becomes the current segment. */
    method UseApart(tbase: int, tsize: nat, mmapped: bool, nb: nat) returns (p: int)
      requires Valid() && segs != [] && MIN_CHUNK_SIZE <= nb < W64 && nb % 16 == 0
      requires Vacant(tbase, tsize, segs, bins.hdr, maps) && (tbase + tsize) % 16 == 0 && tsize >= 128
      requires tsize >= nb + SYS_ALLOC_PADDING && (mmapped ==> Multiple(tsize, granularity)) && mmapped == !contiguous
      requires var last := segs[|segs| - 1]; !(End(last) == tbase && last.mmapped == mmapped)
      modifies this, bins
      ensures Valid() && maps == old(maps) && segs != [] && contiguous == old(contiguous)
      ensures Takes(old(TheRoom()), TheRoom(), tbase, tsize, mmapped, nb, if p == 0 then top else p)
      ensures p == 0 ==> topsize > tsize - SYS_ALLOC_PADDING && Live() == old(Live())
      ensures p != 0 ==> p !in maps && NewLive(old(Live()), Live(), p, nb) && Live()[p] < nb + MIN_CHUNK_SIZE
      ensures Kept(old(bins.mem), bins.mem, old(Live()))
    {
      hide HeapOk, BinsOk, Lives, Kept, OuterKept, Multiple, Whole, MapsOk, MappedLives, Vacant, NewLive, Unused,
           SegsOk, Takes, Prepends, AddsSegment;
      ghost var m0, live0, room := bins.mem, Lives(cs), TheRoom();
      p := 0;
      if tbase < bins.least {
        LowerLeast(m0, TheView(), segs, bins.hdr, bins.least, tbase);
        LowerMaps(m0, maps, segs, bins.hdr, bins.least, tbase);
        VacantSize(tbase, tsize, segs, bins.hdr, maps);
        bins.least := tbase;
      }
      var k := SegmentStartingAt(tbase + tsize);
      if k >= 0 && segs[k].mmapped == mmapped {
        p := UsePrepend(k, tbase, nb);
        Prepended(room, TheRoom(), tbase, tsize, mmapped, nb, p, k);
        Allocated(bins.mem, TheView(), segs, bins.hdr, bins.least, live0, maps, p, nb, nb);
        KeptBoth(m0, bins.mem, live0, MappedLives(maps));
        return;
      }
      StartsOnce(m0, TheView(), segs, bins.hdr, bins.least, k);
      UseAdd(tbase, tsize, mmapped);
      Added(room, TheRoom(), tbase, tsize, mmapped, nb, top);
      KeptBoth(m0, bins.mem, live0, MappedLives(maps));
    }

    /** sys_alloc, second part: puts the new space to use and allocates from it. */
    method Serve(tbase: int, tsize: nat, mmapped: bool, nb: nat) returns (p: int)
      requires Valid() && MIN_CHUNK_SIZE <= nb < W64 && nb % 16 == 0
      requires Vacant(tbase, tsize, segs, bins.hdr, maps) && (tbase + tsize) % 16 == 0 && tsize >= 128
      requires mmapped <==> !contiguous
      requires mmapped ==> tsize >= nb + SYS_ALLOC_PADDING && Multiple(tsize, granularity) && tsize % 16 == 0
      requires !mmapped && segs == [] ==> tsize >= nb + SYS_ALLOC_PADDING
      requires !mmapped && segs != [] ==> tbase == End(segs[|segs| - 1]) && tsize >= nb - topsize + SYS_ALLOC_PADDING
      requires !mmapped && segs != [] ==> tsize % 16 == 0
      requires !mmapped ==> forall k :: 0 <= k < |segs| && !segs[k].mmapped ==> End(segs[k]) <= tbase
      modifies this, bins
      ensures Valid() && maps == old(maps) && contiguous == old(contiguous) && p !in maps
      ensures p != 0 && NewLive(old(Live()), Live(), p, nb) && Live()[p] < nb + MIN_CHUNK_SIZE
      ensures Takes(old(TheRoom()), TheRoom(), tbase, tsize, mmapped, nb, p)
      ensures Kept(old(bins.mem), bins.mem, old(Live()))
    {
      hide HeapOk, BinsOk, Lives, Kept, OuterKept, Multiple, Whole, MapsOk, MappedLives, Vacant, NewLive, Unused,
           SegsOk, Takes, TakesFirst, Appends, Prepends, AddsSegment;
      ghost var m0, live0, room := bins.mem, Lives(cs), TheRoom();
      p := 0;
      TopThere(m0, TheView(), segs, bins.hdr, bins.least);
      if top == 0 {
        UseFirst(tbase, tsize, mmapped);
        FirstTaken(room, TheRoom(), tbase, tsize, mmapped, nb, top);
        KeptBoth(m0, bins.mem, live0, MappedLives(maps));
      } else {
        TopSegment(m0, TheView(), segs, bins.hdr, bins.least);
        var j := SegmentEndingAt(tbase);
        if j >= 0 { HoldsTop(m0, TheView(), segs, bins.hdr, bins.least, j); }
        if j >= 0 && segs[j].mmapped == mmapped && segs[j].base <= top < End(segs[j]) {
          UseAppend(tsize);
          Appended(room, TheRoom(), tbase, tsize, mmapped, nb, top);
          KeptBoth(m0, bins.mem, live0, MappedLives(maps));
        } else {
          p := UseApart(tbase, tsize, mmapped, nb);
          if p != 0 { return; }
        }
      }
      if nb < topsize {
        ghost var m1, room1 := bins.mem, TheRoom();
        p := ServeTop(nb);
        TakesServed(room, room1, TheRoom(), tbase, tsize, mmapped, nb, p);
        KeptTrans(m0, m1, bins.mem, live0 + MappedLives(maps));
      }
    }

    /** sys_alloc, at the end: allocates from new or extended top space. */
    method ServeTop(nb: nat) returns (p: int)
      requires Valid() && MIN_CHUNK_SIZE <= nb < topsize && nb % 16 == 0
      modifies this`top, this`topsize, this`cs, bins
      ensures Valid() && p != 0 && p !in maps && p == old(top)
      ensures NewLive(old(Live()), Live(), p, nb) && Live()[p] < nb + MIN_CHUNK_SIZE
      ensures Kept(old(bins.mem), bins.mem, old(Live()))
    {
      hide HeapOk, BinsOk, Lives, Kept, OuterKept, Multiple, Whole, MapsOk, MappedLives, NewLive, Unused;
      ghost var m0, live0 := bins.mem, Lives(cs);
      p := MallocFromTop(nb);
      KeepMaps(m0, bins.mem, maps, segs, bins.hdr, bins.least);
      KeptBoth(m0, bins.mem, live0, MappedLives(maps));
      ServedIs(live0, cs, p, nb);
      Allocated(bins.mem, TheView(), segs, bins.hdr, bins.least, live0, maps, p, nb, nb);
    }

    // ---- malloc -------------------------------------------------------------------------------------------

    /** dlmalloc, up to asking the system: serves the request from the bins, the victim or top. */
    method FromHeap(bytes: nat) returns (p: int, nb: nat)
      requires Valid() && bytes < W64
      modifies this`dv, this`dvsize, this`top, this`topsize, this`cs, bins
      ensures Core() && bins.least == old(bins.least)
      ensures nb == if bytes >= MAX_REQUEST then W64 - 1 else Request2Size(bytes)
      ensures p == 0 <==> old(NoFit(nb))
      ensures p == 0 ==> TheView() == old(TheView()) && bins.mem == old(bins.mem)
      ensures p != 0 ==> nb < W64 - 1 && Served(old(cs), cs, p, nb) && Unused(old(cs), p, cs[p].size)
      ensures p != 0 ==> Serves(old(TheRoom()), TheRoom(), p, nb)
      ensures Kept(old(bins.mem), bins.mem, Lives(old(cs))) && OuterKept(old(bins.mem), bins.mem, segs, bins.hdr)
    {
      hide HeapOk, BinsOk, Lives, Kept, OuterKept, Multiple, Whole, MapsOk, MappedLives, Unused, Served, Request2Size;
      ghost var m0, live0, hdr := bins.mem, Lives(cs), bins.hdr;
      RequestFits(bytes);
      AllKept(m0, live0, segs, hdr);
      TopThere(m0, TheView(), segs, hdr, bins.least);
      VictimBound(m0, TheView(), segs, hdr, bins.least);
      BinnedBounds(m0, TheView(), segs, hdr, bins.least);
      LargeOnly(bins.mem, bins.smallmap, bins.treemap, bins.roots, hdr, bins.tbin, bins.g);
      BinnedIs(m0, TheView(), segs, hdr, bins.least);
      ApartOf(m0, TheView(), segs, hdr, bins.least);
      ghost var bs, room := bins.g.bs, TheRoom();
      nb, p := Request2Size(bytes), 0;
      if bytes <= MAX_SMALL_REQUEST {
        p := MallocSmall(nb);
      } else if bytes >= MAX_REQUEST {
        nb := W64 - 1;
      } else if bins.treemap != 0 {
        p := TmallocLarge(nb);
      }
      if p != 0 {
        PickBinned(bs, room.dv, room.dvsize, room.top, nb, p);
      } else {
        if nb <= dvsize {
          assert VictimServes(bs, dvsize, nb);
          p := MallocFromDv(nb);
        } else if nb < topsize {
          assert !exists x :: FitsIn(bs, nb, x);
          p := MallocFromTop(nb);
        }
      }
    }

    /** dlmalloc. Returns the address of the payload, or 0. */
    method Malloc(bytes: nat, sys: Replies) returns (mem: int)
      requires Valid() && bytes < W64
      modifies this, bins
      ensures Valid()
      ensures mem == 0 ==> Live() == old(Live()) && Stays(old(TheRoom()), TheRoom())
      ensures mem != 0 ==> Extends(old(TheRoom()), TheRoom(), mem - 16, Request2Size(bytes), sys)
      ensures mem == 0 <==>
        (bytes >= MAX_REQUEST || (old(NoFit(Request2Size(bytes))) && old(Refuses(Request2Size(bytes), sys))))
      ensures mem != 0 ==> bytes < MAX_REQUEST && NewLive(old(Live()), Live(), mem - 16, Request2Size(bytes))
      ensures mem != 0 && mem - 16 !in maps ==> Live()[mem - 16] < Request2Size(bytes) + MIN_CHUNK_SIZE
      ensures Kept(old(bins.mem), bins.mem, old(Live()))
    {
      hide HeapOk, BinsOk, Lives, Kept, OuterKept, Multiple, Whole, MapsOk, MappedLives, Unused, Served, Request2Size,
           NoMapping, NoExtension, Serves, Grants, NoRoom, Room.Refuses;
      ghost var m0, live0, hdr := bins.mem, Lives(cs), bins.hdr;
      AllKept(m0, live0 + MappedLives(maps), segs, hdr);
      RequestFits(bytes);
      NoFitIs(m0, TheView(), segs, hdr, bins.least, Request2Size(bytes));
      var p, nb := FromHeap(bytes);
      if p == 0 {
        p := SysAlloc(nb, sys);
      } else {
        KeepMaps(m0, bins.mem, maps, segs, hdr, bins.least);
        KeptBoth(m0, bins.mem, live0, MappedLives(maps));
        ServedLive(bins.mem, TheView(), segs, hdr, bins.least, old(cs), maps, p, nb);
      }
      mem := if p == 0 then 0 else p + 16;
    }

    // ---- free ---------------------------------------------------------------------------------------------

    /** Frees a chunk of a segment, as dlfree does after its checks, and trims if that is due. */
    method FreeChunk(p: int, sys: Replies)
      requires Valid() && p in Lives(cs)
      modifies this, bins
      ensures Valid() && maps == old(maps) && Lives(cs) == Lives(old(cs)) - {p}
      ensures p in old(cs) && NextOf(old(cs), p) in old(cs) && Frees(old(TheRoom()), TheRoom(), p, sys)
      ensures Kept(old(bins.mem), bins.mem, old(Live()) - {p})
    {
      hide HeapOk, BinsOk, Kept, OuterKept, Multiple, Whole, MapsOk, MappedLives, Freed, Shrunk, Fewer;
      ghost var m0, live, segs0, hdr, least := bins.mem, Lives(cs) - {p}, segs, bins.hdr, bins.least;
      LiveFacts(m0, TheView(), segs, hdr, least, maps, p);
      ShrunkSelf(segs);
      var psize := ChunkSize(bins.mem, p);
      var next := p + psize;
      if !(p < next && Pinuse(bins.mem, next)) { assert false; }
      var how := DisposeChunk(p, psize);
      ghost var m1 := bins.mem;
      KeepMaps(m0, m1, maps, segs, hdr, least);
      SegmentsStay(m0, TheView(), segs, hdr, least, p, m1);
      if how.IntoTop? {
        if topsize > trimCheck {
          var trimmed := SysTrim(0, sys);
          KeepMapsShrunk(m1, bins.mem, maps, segs0, segs, hdr, least);
          BrkShrunk(segs, segs0);
          KeptTrans(m0, m1, bins.mem, live);
          KeptTrans(m0, m1, bins.mem, MappedLives(maps));
        }
      } else if how.IntoBin? && how.size >= MIN_LARGE_SIZE {
        releaseChecks := if releaseChecks == 0 then W64 - 1 else releaseChecks - 1;
        if releaseChecks == 0 {
          var released := ReleaseUnusedSegments(sys.unmaps);
          FewerShrunk(segs, segs0);
          KeepMapsShrunk(m1, bins.mem, maps, segs0, segs, hdr, least);
          BrkShrunk(segs, segs0);
          KeptTrans(m0, m1, bins.mem, live);
          KeptTrans(m0, m1, bins.mem, MappedLives(maps));
        }
      }
      KeptBoth(m0, bins.mem, live, MappedLives(maps));
      SplitLive(Lives(old(cs)), MappedLives(maps), p);
    }

    /** dlfree: null, a directly mapped chunk, or a chunk of a segment. */
    method Free(mem: int, sys: Replies)
      requires Valid() && (mem == 0 || mem - 16 in Live())
      modifies this, bins
      ensures Valid() && Live() == if mem == 0 then old(Live()) else old(Live()) - {mem - 16}
      ensures if mem == 0 then TheRoom() == old(TheRoom()) else GivesUp(old(TheRoom()), TheRoom(), mem - 16, sys)
      ensures Kept(old(bins.mem), bins.mem, old(Live()) - {mem - 16})
    {
      hide HeapOk, BinsOk, Kept, OuterKept, Multiple, Whole, MapsOk, Lives, Shrunk;
      ShrunkSelf(segs);
      AllKept(bins.mem, Live() - {mem - 16}, segs, bins.hdr);
      if mem != 0 {
        var p := mem - 16;
        LiveFacts(bins.mem, TheView(), segs, bins.hdr, bins.least, maps, p);
        if !(p >= bins.least && !(Pinuse(bins.mem, p) && !Cinuse(bins.mem, p))) { assert false; }
        if !Pinuse(bins.mem, p) && !Cinuse(bins.mem, p) {
          MapRemoved(bins.mem, maps, segs, bins.hdr, bins.least, Lives(cs), p);
          maps := maps - {p};
        } else {
          FreeChunk(p, sys);
          SplitLive(Lives(old(cs)), MappedLives(maps), p);
        }
      }
    }

    // ---- realloc in place, memalign, bulk free ------------------------------------------------------------

    /** Keeps the first `nb` bytes of live chunk `p` and gives back the rest (try_realloc_chunk, internal_memalign). */
    method GiveBackTail(p: int, nb: nat)
      requires Core() && Cuttable(cs, p, nb)
      modifies this`dv, this`dvsize, this`top, this`topsize, this`cs, bins
      ensures Core() && bins.least == old(bins.least) && Lives(cs) == Lives(old(cs))[p := nb]
      ensures TheRoom() == TailGiven(old(TheRoom()), p, nb)
      ensures Kept(old(bins.mem), bins.mem, Lives(old(cs)) - {p}) && SameWords(old(bins.mem), bins.mem, p + 16, p + nb)
      ensures OuterKept(old(bins.mem), bins.mem, segs, bins.hdr)
    {
      hide HeapOk, BinsOk, Lives, Kept, OuterKept, SameWords, SetInuse, Cut, Freed, CutWritten, Edited, LinkSlot;
      ghost var m0, v0, cs0, hdr, least := bins.mem, TheView(), cs, bins.hdr, bins.least;
      var r, rsize := p + nb, ChunkSize(bins.mem, p) - nb;
      CutFacts(m0, v0, segs, hdr, least, p, nb);
      SizeTag(m0, v0, segs, hdr, least, p);
      CutForward(m0, v0, segs, hdr, least, p, nb);
      bins.mem := SetInuse(bins.mem, p, nb);
      bins.mem := SetInuse(bins.mem, r, rsize);
      ghost var m1 := bins.mem;
      CutHeap(m0, m1, v0, segs, hdr, least, p, nb);
      EditsKeepBins(m0, m1, {p, r, NextOf(cs, p)}, {}, bins.smallmap, bins.treemap, bins.roots, hdr, bins.tbin, bins.g);
      cs := Cut(cs, p, nb);
      ghost var live1 := Lives(cs);
      var how := DisposeChunk(r, rsize);
      CutOffLives(Lives(cs0), p, nb, r, rsize);
      TailKept(m0, m1, bins.mem, Lives(cs0), p, nb);
      OuterTrans(m0, m1, bins.mem, segs, hdr);
    }

    /** Gives back the first `lead` bytes of live chunk `p`; the rest becomes a chunk of its own (internal_memalign). */
    method GiveBackHead(p: int, lead: nat)
      requires Core() && Cuttable(cs, p, lead)
      modifies this`dv, this`dvsize, this`top, this`topsize, this`cs, bins
      ensures Core() && bins.least == old(bins.least)
      ensures Lives(cs) == (Lives(old(cs)) - {p})[p + lead := old(cs)[p].size - lead] && p + lead !in Lives(old(cs))
      ensures TheRoom() == HeadGiven(old(TheRoom()), p, lead)
      ensures Kept(old(bins.mem), bins.mem, Lives(old(cs)) - {p}) && OuterKept(old(bins.mem), bins.mem, segs, bins.hdr)
    {
      hide HeapOk, BinsOk, Lives, Kept, OuterKept, SameWords, SetInuse, Cut, Freed, CutWritten, Edited, LinkSlot;
      ghost var m0, v0, cs0, hdr, least := bins.mem, TheView(), cs, bins.hdr, bins.least;
      var newp, newsize := p + lead, ChunkSize(bins.mem, p) - lead;
      CutFacts(m0, v0, segs, hdr, least, p, lead);
      SizeTag(m0, v0, segs, hdr, least, p);
      CutBackward(m0, v0, segs, hdr, least, p, lead);
      bins.mem := SetInuse(bins.mem, newp, newsize);
      bins.mem := SetInuse(bins.mem, p, lead);
      ghost var m1 := bins.mem;
      CutHeap(m0, m1, v0, segs, hdr, least, p, lead);
      EditsKeepBins(m0, m1, {p, newp, NextOf(cs, p)}, {}, bins.smallmap, bins.treemap, bins.roots, hdr, bins.tbin,
                    bins.g);
      cs := Cut(cs, p, lead);
      CutSizes(m1, TheView(), segs, hdr, least, cs0, p, lead);
      var how := DisposeChunk(p, lead);
      CutOffLives(Lives(cs0), p, lead, newp, newsize);
      HeadKept(m0, m1, bins.mem, Lives(cs0), p, newp, newsize);
      OuterTrans(m0, m1, bins.mem, segs, hdr);
    }

    /** try_realloc_chunk, the branches that grow into the next chunk. */
    method GrowChunk(p: int, oldsize: nat, nb: nat) returns (newp: int)
      requires Core() && p in Lives(cs) && Lives(cs)[p] == oldsize < nb < W64 && nb % 16 == 0 && MIN_CHUNK_SIZE <= nb
      modifies this`dv, this`dvsize, this`top, this`topsize, this`cs, bins
      ensures Core() && bins.least == old(bins.least) && (newp == 0 || newp == p)
      ensures newp == 0 ==> TheView() == old(TheView()) && bins.mem == old(bins.mem)
      ensures newp == p ==> p in Lives(cs) && nb <= Lives(cs)[p] < nb + MIN_CHUNK_SIZE
      ensures newp == p ==> Lives(cs) == Lives(old(cs))[p := Lives(cs)[p]]
      ensures newp == p <==> CanGrow(old(cs), p, nb)
      ensures newp == p ==> ResizesTo(old(TheRoom()), TheRoom(), p, nb)
      ensures Kept(old(bins.mem), bins.mem, Lives(old(cs)) - {p})
      ensures SameWords(old(bins.mem), bins.mem, p + 16, p + oldsize)
      ensures OuterKept(old(bins.mem), bins.mem, segs, bins.hdr)
    {
      hide HeapOk, BinsOk, Kept, OuterKept, SameWords, SetInuse, SetFreeHead, SetHead, ClearPinuse, Grow, Grows,
           Growable, GrowWritten, Lives, OnlySlots;
      ghost var m0, v0, cs0, hdr, least := bins.mem, TheView(), cs, bins.hdr, bins.least;
      AllKept(m0, Lives(cs) - {p}, segs, hdr);
      WordsSelf(m0, p + 16, p + oldsize);
      var next := p + oldsize;
      GrowFacts(m0, v0, segs, hdr, least, p, nb);
      OnlySlotsSelf(m0, v0.bs, hdr);
      newp := 0;
      if next == top {
        if oldsize + topsize > nb {
          var newtopsize := oldsize + topsize - nb;
          var newtop := p + nb;
          bins.mem := SetInuse(bins.mem, p, nb);
          bins.mem := SetHead(bins.mem, newtop, newtopsize + 1);
          top := newtop;
          topsize := newtopsize;
          cs := Grow(cs, p, nb, Top);
          newp := p;
          GrownTop(m0, v0, TheView(), segs, hdr, least, p, nb);
          GrowHeap(m0, m0, bins.mem, v0, TheView(), segs, hdr, least, p, nb, Top, bins.smallmap, bins.treemap,
                   bins.roots, bins.tbin, bins.g);
          GrownLives(m0, v0, TheView(), segs, hdr, least, p, nb, Top);
        }
      } else if next == dv {
        newp := GrowIntoDv(p, oldsize, nb);
      } else if !Cinuse(bins.mem, next) {
        newp := GrowIntoFree(p, oldsize, nb);
      }
    }

    /** try_realloc_chunk: extends into the designated victim. */
    method GrowIntoDv(p: int, oldsize: nat, nb: nat) returns (newp: int)
      requires Core() && p in Lives(cs) && Lives(cs)[p] == oldsize < nb < W64 && nb % 16 == 0 && MIN_CHUNK_SIZE <= nb
      requires dv == p + oldsize
      modifies this`dv, this`dvsize, this`cs, bins
      ensures Core() && bins.least == old(bins.least) && (newp == 0 || newp == p)
      ensures newp == 0 ==> TheView() == old(TheView()) && bins.mem == old(bins.mem)
      ensures newp == p ==> p in Lives(cs) && nb <= Lives(cs)[p] < nb + MIN_CHUNK_SIZE
      ensures newp == p ==> Lives(cs) == Lives(old(cs))[p := Lives(cs)[p]]
      ensures newp == p <==> CanGrow(old(cs), p, nb)
      ensures newp == p ==> ResizesTo(old(TheRoom()), TheRoom(), p, nb)
      ensures Kept(old(bins.mem), bins.mem, Lives(old(cs)) - {p})
      ensures SameWords(old(bins.mem), bins.mem, p + 16, p + oldsize)
      ensures OuterKept(old(bins.mem), bins.mem, segs, bins.hdr)
    {
      hide HeapOk, BinsOk, Kept, OuterKept, SameWords, SetInuse, SetFreeHead, SetHead, ClearPinuse, Grow, Grows,
           Growable, GrowWritten, Lives, OnlySlots;
      ghost var m0, v0, hdr, least := bins.mem, TheView(), bins.hdr, bins.least;
      AllKept(m0, Lives(cs) - {p}, segs, hdr);
      WordsSelf(m0, p + 16, p + oldsize);
      GrowFacts(m0, v0, segs, hdr, least, p, nb);
      OnlySlotsSelf(m0, v0.bs, hdr);
      newp := 0;
      var dvs := dvsize;
      if oldsize + dvs >= nb {
        var dsize := oldsize + dvs - nb;
        var s := if dsize >= MIN_CHUNK_SIZE then nb else oldsize + dvs;
        if dsize >= MIN_CHUNK_SIZE {
          var r := p + nb;
          var n := r + dsize;
          bins.mem := SetInuse(bins.mem, p, nb);
          bins.mem := SetFreeHead(bins.mem, r, dsize);
          bins.mem := ClearPinuse(bins.mem, n);
          dvsize := dsize;
          dv := r;
        } else {
          bins.mem := SetInuse(bins.mem, p, oldsize + dvs);
          dvsize := 0;
          dv := 0;
        }
        cs := Grow(cs, p, s, Kind.Free);
        newp := p;
        GrownDv(m0, v0, TheView(), segs, hdr, least, p, s);
        GrowHeap(m0, m0, bins.mem, v0, TheView(), segs, hdr, least, p, s, Kind.Free, bins.smallmap, bins.treemap,
                 bins.roots, bins.tbin, bins.g);
        GrownLives(m0, v0, TheView(), segs, hdr, least, p, s, Kind.Free);
      }
    }

    /** try_realloc_chunk: extends into the next free chunk. */
    method GrowIntoFree(p: int, oldsize: nat, nb: nat) returns (newp: int)
      requires Core() && p in Lives(cs) && Lives(cs)[p] == oldsize < nb < W64 && nb % 16 == 0 && MIN_CHUNK_SIZE <= nb
      requires p + oldsize != dv && p + oldsize != top && !Cinuse(bins.mem, p + oldsize)
      modifies this`dv, this`dvsize, this`top, this`topsize, this`cs, bins
      ensures Core() && bins.least == old(bins.least) && (newp == 0 || newp == p)
      ensures newp == 0 ==> TheView() == old(TheView()) && bins.mem == old(bins.mem)
      ensures newp == p ==> p in Lives(cs) && nb <= Lives(cs)[p] < nb + MIN_CHUNK_SIZE
      ensures newp == p ==> Lives(cs) == Lives(old(cs))[p := Lives(cs)[p]]
      ensures newp == p <==> CanGrow(old(cs), p, nb)
      ensures newp == p ==> ResizesTo(old(TheRoom()), TheRoom(), p, nb)
      ensures Kept(old(bins.mem), bins.mem, Lives(old(cs)) - {p})
      ensures SameWords(old(bins.mem), bins.mem, p + 16, p + oldsize)
      ensures OuterKept(old(bins.mem), bins.mem, segs, bins.hdr)
    {
      hide HeapOk, BinsOk, Kept, OuterKept, SameWords, SetInuse, SetFreeHead, SetHead, ClearPinuse, Grow, Grows,
           Growable, GrowWritten, Lives, OnlySlots, Freed, Disposed, HowDisposed;
      ghost var m0, v0, hdr, least := bins.mem, TheView(), bins.hdr, bins.least;
      AllKept(m0, Lives(cs) - {p}, segs, hdr);
      WordsSelf(m0, p + 16, p + oldsize);
      GrowFacts(m0, v0, segs, hdr, least, p, nb);
      newp := 0;
      var next := p + oldsize;
      var nextsize := ChunkSize(bins.mem, next);
      if oldsize + nextsize >= nb {
        var rsize := oldsize + nextsize - nb;
        bins.UnlinkChunk(next, nextsize);
        ghost var m2 := bins.mem;
        var s := if rsize < MIN_CHUNK_SIZE then oldsize + nextsize else nb;
        if rsize < MIN_CHUNK_SIZE {
          bins.mem := SetInuse(bins.mem, p, oldsize + nextsize);
        } else {
          bins.mem := SetInuse(bins.mem, p, nb);
          bins.mem := SetInuse(bins.mem, p + nb, rsize);
        }
        cs := Grow(cs, p, s, Kind.Live);
        newp := p;
        GrownFree(m0, m2, v0, TheView(), segs, hdr, least, p, s);
        GrowHeap(m0, m2, bins.mem, v0, TheView(), segs, hdr, least, p, s, Kind.Live, bins.smallmap, bins.treemap,
                 bins.roots, bins.tbin, bins.g);
        GrownLives(m0, v0, TheView(), segs, hdr, least, p, s, Kind.Live);
        if rsize >= MIN_CHUNK_SIZE {
          ghost var m3, live3 := bins.mem, Lives(cs);
          RestFacts(m3, TheView(), v0, segs, hdr, least, p, nb);
          RestBinned(m0, v0, m3, TheView(), segs, hdr, least, p, nb, TheRoom());
          var how := DisposeChunk(p + nb, rsize);
          GrownKept(m0, m3, bins.mem, Lives(v0.cs), p, oldsize, nb, p + nb, rsize);
          OuterTrans(m0, m3, bins.mem, segs, hdr);
        }
      }
    }

    /** try_realloc_chunk, for a chunk of a segment: resizes in place or refuses. */
    method TryReallocChunk(p: int, nb: nat) returns (newp: int)
      requires Valid() && p in Lives(cs) && MIN_CHUNK_SIZE <= nb < W64 && nb % 16 == 0
      modifies this`dv, this`dvsize, this`top, this`topsize, this`cs, bins
      ensures Valid() && (newp == 0 || newp == p)
      ensures newp == p <==> Lives(old(cs))[p] >= nb || CanGrow(old(cs), p, nb)
      ensures newp == 0 ==> TheView() == old(TheView()) && bins.mem == old(bins.mem) && Live() == old(Live())
      ensures newp == p ==> p in Live() && nb <= Live()[p] && Live() == old(Live())[p := Live()[p]]
      ensures newp == p ==> Live()[p] < nb + MIN_CHUNK_SIZE && ResizesTo(old(TheRoom()), TheRoom(), p, nb)
      ensures Kept(old(bins.mem), bins.mem, old(Live()) - {p})
      ensures newp == p ==> SameWords(old(bins.mem), bins.mem, p + 16, p + Min(old(Live())[p], Live()[p]))
    {
      hide HeapOk, BinsOk, Kept, OuterKept, SameWords, Lives, MapsOk, MappedLives, Freed, Cut, Cuttable, CanGrow,
           TailGiven;
      ghost var m0, v0, live, hdr, least := bins.mem, TheView(), Lives(cs), bins.hdr, bins.least;
      var oldsize := ChunkSize(bins.mem, p);
      var next := p + oldsize;
      InLive(live, MappedLives(maps), p);
      LiveFacts(m0, v0, segs, hdr, least, maps, p);
      ReallocFacts(m0, v0, segs, hdr, least, p, nb);
      if !(p >= bins.least && !(Pinuse(bins.mem, p) && !Cinuse(bins.mem, p)) && p < next && Pinuse(bins.mem, next)) {
        assert false;
      }
      AllKept(m0, live - {p}, segs, hdr);
      WordsSelf(m0, p + 16, p + oldsize);
      if oldsize >= nb {
        var rsize := oldsize - nb;
        if rsize >= MIN_CHUNK_SIZE { GiveBackTail(p, nb); }
        newp := p;
      } else {
        newp := GrowChunk(p, oldsize, nb);
      }
      KeepMaps(m0, bins.mem, maps, segs, hdr, least);
      KeptBoth(m0, bins.mem, live - {p}, MappedLives(maps));
      Resized(live, Lives(cs), MappedLives(maps), p);
    }

    /** internal_memalign: the alignment that is used, for requests up to 2^63. */
    method RoundAlignment(want: nat) returns (a: nat)
      requires want <= W64 / 2
      ensures LeastAlignment(a, want) && a <= W64 / 2
    {
      hide Pow2, And;
      a := if want < MIN_CHUNK_SIZE then MIN_CHUNK_SIZE else want;
      Pow2Table();
      Pow2Of64();
      if And(a, a - 1) != 0 {
        var target := a;
        a := 32;
        ghost var k: nat := 5;
        while a < target
          invariant a == Pow2(k) && 32 <= a <= W64 / 2 && k <= 63 && (a == 32 || a < 2 * target)
          invariant (target == 32 ==> a == 32)
          decreases target - a
        {
          Pow2Step(k);
          PowerBound(k, target);
          a := 2 * a;
          k := k + 1;
        }
        PowerAligned(k);
        assert a >= want && (a == 32 || a < 2 * want);
      } else {
        OnlyPowerOfTwo(a);
        ghost var k: nat :| a == Pow2(k);
        PowerAligned(k);
      }
    }

    /** Neither the heap nor the system has room for the bytes and the slack that alignment `a` needs. */
    ghost predicate Starved(a: nat, bytes: nat, sys: Replies)
      requires Params()
      reads this, bins
    {
      var nb := SlackSize(a, bytes);
      bytes >= MAX_REQUEST - a || Slack(a, bytes) >= MAX_REQUEST || (NoFit(nb) && Refuses(nb, sys))
    }

    /** internal_memalign. */
    method Memalign(want: nat, bytes: nat, sys: Replies) returns (mem: int)
      requires Valid() && want <= W64 / 2 && bytes < W64
      modifies this, bins
      ensures Valid()
      ensures mem == 0 ==> Live() == old(Live()) && Stays(old(TheRoom()), TheRoom())
      ensures mem != 0 ==> NewLive(old(Live()), Live(), mem - 16, Request2Size(bytes))
      ensures mem != 0 && mem - 16 !in maps ==> Live()[mem - 16] <= Request2Size(bytes) + MIN_CHUNK_SIZE
      ensures exists a: nat ::
        (LeastAlignment(a, want) && (mem == 0 <==> old(Starved(a, bytes, sys))) && (mem != 0 ==> Multiple(mem, a)) &&
         (mem != 0 ==> a > 16 && ExtendsAligned(old(TheRoom()), TheRoom(), mem - 16, a, bytes, sys)))
      ensures Kept(old(bins.mem), bins.mem, old(Live()))
    {
      hide HeapOk, BinsOk, Kept, OuterKept, SameWords, Lives, MapsOk, MappedLives, Whole, Multiple, Request2Size,
           LeastAlignment, AlignedSpot, NoFit, Refuses, Extends;
      ghost var m0, live0 := bins.mem, Live();
      AllKept(m0, live0, segs, bins.hdr);
      var a := RoundAlignment(want);
      AlignmentIs(a, want);
      if bytes >= MAX_REQUEST - a { return 0; }
      var nb := Request2Size(bytes);
      RequestFits(bytes);
      var req := nb + a + MIN_CHUNK_SIZE - 8;
      mem := Malloc(req, sys);
      if mem != 0 {
        JustAdded(live0, mem - 16, Live()[mem - 16]);
        MemalignRoom(nb, a, Live()[mem - 16]);
        ghost var m1, room1 := bins.mem, TheRoom();
        var p := PlaceAligned(mem - 16, a, nb, live0);
        KeptTrans(m0, m1, bins.mem, live0);
        assert Extends(old(TheRoom()), room1, mem - 16, SlackSize(a, bytes), sys) &&
               Aligns(room1, TheRoom(), mem - 16, p, a, Request2Size(bytes));
        mem := p + 16;
      }
    }

    /** internal_memalign: moves to an aligned spot of the chunk and gives back the room at both ends. */
    method PlaceAligned(p0: int, a: nat, nb: nat, ghost live0: map<int, int>) returns (p: int)
      requires Valid() && p0 in Live() && p0 !in live0 && Live() == live0[p0 := Live()[p0]] && p0 % 16 == 0 && 0 < p0
      requires a >= 32 && a % 16 == 0 && MIN_CHUNK_SIZE <= nb && nb % 16 == 0 && Live()[p0] >= nb + a + MIN_CHUNK_SIZE
      modifies this`dv, this`dvsize, this`top, this`topsize, this`cs, this`maps, bins
      ensures Valid() && NewLive(live0, Live(), p, nb) && Multiple(p + 16, a)
      ensures Aligns(old(TheRoom()), TheRoom(), p0, p, a, nb)
      ensures p !in maps ==> Live()[p] <= nb + MIN_CHUNK_SIZE
      ensures Kept(old(bins.mem), bins.mem, live0)
    {
      hide HeapOk, BinsOk, Kept, OuterKept, SameWords, Lives, MapsOk, MappedLives, Whole, Multiple, AlignedSpot,
           HeadGiven, Trimmed, Valid;
      ghost var m1, live1 := bins.mem, Live();
      p := p0;
      JustAdded(live0, p, live1[p]);
      AllKept(m1, live0, segs, bins.hdr);
      if (p + 16) % a != 0 {
        assert !Multiple(p + 16, a) by { MultipleIs(p + 16, a); }
        p := AlignWithin(p, a, nb);
        JustAdded(live0, p, Live()[p]);
      } else {
        MultipleIs(p + 16, a);
      }
      ghost var m3 := bins.mem;
      TrimTail(p, nb);
      KeptTrans(m1, m3, bins.mem, live0);
    }

    /** internal_memalign: the chunk of a mapping starts at `newp` instead of `p`. */
    method ShiftMapping(p: int, newp: int)
      requires Valid() && p in maps && newp % 16 == 0
      requires MIN_CHUNK_SIZE <= newp - p <= MappedSize(p, maps[p]) - MIN_CHUNK_SIZE
      modifies this`maps, bins`mem
      ensures Valid() && newp !in old(Live()) && maps == (old(maps) - {p})[newp := old(maps)[p]]
      ensures p in old(Live()) && Live() == (old(Live()) - {p})[newp := old(Live())[p] - (newp - p)]
      ensures Kept(old(bins.mem), bins.mem, old(Live()) - {p})
    {
      hide HeapOk, BinsOk, Kept, OuterKept, SameWords, Lives, MapsOk, MappedLives, Whole, Multiple, LinkSlot, Edited,
           MappedSize;
      ghost var m0, v0, hdr, least := bins.mem, TheView(), bins.hdr, bins.least;
      NotInSegment(m0, v0, segs, hdr, least, maps, p);
      MapShifted(m0, v0, maps, segs, hdr, least, p, newp);
      var lead := newp - p;
      var newsize := ChunkSize(bins.mem, p) - lead;
      bins.mem := SetFoot(bins.mem, newp, Foot(bins.mem, p) + lead);
      bins.mem := SetHead(bins.mem, newp, newsize);
      maps := (maps - {p})[newp := maps[p]];
      EditsKeepBins(m0, bins.mem, {newp}, {newp}, bins.smallmap, bins.treemap, bins.roots, hdr, bins.tbin, bins.g);
    }

    /** internal_memalign: gives back what precedes the first aligned spot of chunk `p`, or moves up in its mapping. */
    method AlignWithin(p: int, a: nat, nb: nat) returns (newp: int)
      requires Valid() && p in Live() && a >= 32 && a % 16 == 0 && MIN_CHUNK_SIZE <= nb && nb % 16 == 0
      requires Live()[p] >= nb + a + MIN_CHUNK_SIZE
      requires !Multiple(p + 16, a) && p % 16 == 0 && 0 < p
      modifies this`dv, this`dvsize, this`top, this`topsize, this`cs, this`maps, bins
      ensures Valid() && Multiple(newp + 16, a) && newp % 16 == 0 && MIN_CHUNK_SIZE <= newp - p && newp !in old(Live())
      ensures Live() == (old(Live()) - {p})[newp := old(Live())[p] - (newp - p)] && old(Live())[p] - (newp - p) >= nb
      ensures newp == AlignedSpot(p, a)
      ensures if p in old(maps) then TheRoom() == old(TheRoom().(maps := (maps - {p})[newp := maps[p]]))
              else newp !in maps && TheRoom() == HeadGiven(old(TheRoom()), p, newp - p)
      ensures Kept(old(bins.mem), bins.mem, old(Live()) - {p})
    {
      hide HeapOk, BinsOk, Kept, OuterKept, SameWords, Lives, MapsOk, MappedLives, Whole, Multiple, AlignedSpot, Cut,
           Freed, Cuttable, LinkSlot, Edited;
      ghost var m0, v0, maps0, hdr, least := bins.mem, TheView(), maps, bins.hdr, bins.least;
      LiveFacts(m0, v0, segs, hdr, least, maps, p);
      LiveSizes(m0, v0, segs, hdr, least, maps, p);
      SpotFacts(p, a);
      newp := AlignedSpot(p, a);
      var lead := newp - p;
      var newsize := ChunkSize(bins.mem, p) - lead;
      if !Pinuse(bins.mem, p) && !Cinuse(bins.mem, p) {
        ShiftMapping(p, newp);
      } else {
        CutSpot(m0, v0, segs, hdr, least, p, lead);
        GiveBackHead(p, lead);
        KeepMaps(m0, bins.mem, maps, segs, hdr, least);
        KeptBoth(m0, bins.mem, Lives(v0.cs) - {p}, MappedLives(maps));
        MovedLive(bins.mem, TheView(), segs, hdr, least, maps, Lives(v0.cs), p, newp, newsize);
      }
    }

    /** internal_memalign: gives back spare room at the end of a chunk of a segment. */
    method TrimTail(p: int, nb: nat)
      requires Valid() && p in Live() && Live()[p] >= nb && nb >= MIN_CHUNK_SIZE && nb % 16 == 0
      modifies this`dv, this`dvsize, this`top, this`topsize, this`cs, bins
      ensures Valid() && p in Live() && Live()[p] >= nb && Live() == old(Live())[p := Live()[p]]
      ensures p !in maps ==> Live()[p] <= nb + MIN_CHUNK_SIZE
      ensures p in maps ==> TheRoom() == old(TheRoom())
      ensures p !in maps ==> p in old(cs) && Trimmed(old(TheRoom()), p, nb) == TheRoom()
      ensures Kept(old(bins.mem), bins.mem, old(Live()) - {p})
    {
      hide HeapOk, BinsOk, Kept, OuterKept, SameWords, Lives, MapsOk, MappedLives, Whole, Multiple, Cut, Freed,
           Cuttable;
      ghost var m0, v0, live, hdr, least := bins.mem, TheView(), Lives(cs), bins.hdr, bins.least;
      AllKept(m0, Live() - {p}, segs, hdr);
      LiveFacts(m0, v0, segs, hdr, least, maps, p);
      LiveSizes(m0, v0, segs, hdr, least, maps, p);
      if Pinuse(bins.mem, p) || Cinuse(bins.mem, p) {
        var size := ChunkSize(bins.mem, p);
        if size > nb + MIN_CHUNK_SIZE {
          ReallocFacts(m0, v0, segs, hdr, least, p, nb);
          GiveBackTail(p, nb);
          KeepMaps(m0, bins.mem, maps, segs, hdr, least);
          KeptBoth(m0, bins.mem, live - {p}, MappedLives(maps));
          Resized(live, Lives(cs), MappedLives(maps), p);
        }
      }
    }

    /** internal_bulk_free: joins live chunk `p` with the live chunk after it. */
    method BulkJoin(p: int)
      requires Core() && p in Lives(cs) && p + Lives(cs)[p] in Lives(cs)
      modifies this`cs, bins
      ensures Core() && bins.least == old(bins.least) && p in old(cs) && NextOf(old(cs), p) in old(cs)
      ensures Grows(old(TheView()), TheView(), p, old(cs)[p].size + old(cs)[NextOf(old(cs), p)].size, Kind.Live)
      ensures Kept(old(bins.mem), bins.mem, Lives(old(cs)) - {p} - {p + Lives(old(cs))[p]})
      ensures OuterKept(old(bins.mem), bins.mem, segs, bins.hdr)
    {
      hide HeapOk, BinsOk, Kept, OuterKept, SetInuse, Grow, Grows, GrowWritten, OnlySlots, Growable;
      ghost var m0, v0, hdr, least := bins.mem, TheView(), bins.hdr, bins.least;
      SizeTag(m0, v0, segs, hdr, least, p);
      var psize := ChunkSize(bins.mem, p);
      var next := p + psize;
      SizeTag(m0, v0, segs, hdr, least, next);
      var newsize := ChunkSize(bins.mem, next) + psize;
      JoinFacts(m0, v0, segs, hdr, least, p);
      OnlySlotsSelf(m0, v0.bs, hdr);
      bins.mem := SetInuse(bins.mem, p, newsize);
      cs := Grow(cs, p, newsize, Kind.Live);
      JoinsLive(m0, v0, TheView(), segs, hdr, least, p);
      GrowHeap(m0, m0, bins.mem, v0, TheView(), segs, hdr, least, p, newsize, Kind.Live, bins.smallmap, bins.treemap,
               bins.roots, bins.tbin, bins.g);
    }

    /**
     * internal_bulk_free before trimming: frees the live chunks in the array, joining neighbours that follow each other
     * in it.
     */
    method BulkDispose(a: array<int>)
      requires Valid() && AllPointers(a[..], Live()) && NoTwice(a[..])
      modifies this`dv, this`dvsize, this`top, this`topsize, this`cs, this`maps, bins, a
      ensures Valid() && bins.least == old(bins.least) && forall k :: 0 <= k < a.Length ==> a[k] == 0
      ensures SameChunks(cs, FreeAll(old(cs), SegPtrs(old(a[..]), old(cs), a.Length)))
      ensures Live() == old(Live()) - PtrSet(old(a[..]), a.Length) && maps == old(maps) - PtrSet(old(a[..]), a.Length)
      ensures Clears(old(TheRoom()), TheRoom(), PtrSet(old(a[..]), a.Length))
      ensures Kept(old(bins.mem), bins.mem, old(Live()) - PtrSet(old(a[..]), a.Length))
    {
      hide HeapOk, BinsOk, Kept, OuterKept, Lives, MappedLives, MapsOk, Whole, Multiple, BulkInv, PtrSet, FreeAll,
           SegPtrs, SameChunks, NoTwice;
      ghost var m0, cs0, maps0, a0, least := bins.mem, cs, maps, a[..], bins.least;
      ghost var others, v0, room := Live() - PtrSet(a0, |a0|), TheView(), TheRoom();
      AllKept(m0, others, segs, bins.hdr);
      BulkStart(cs0, maps0, a0);
      ViewFacts(m0, TheView(), segs, bins.hdr, least, maps);
      HeapParts(m0, TheView(), segs, bins.hdr, least);
      var i := 0;
      ghost var c := 0;
      while i < a.Length
        invariant 0 <= i <= a.Length && Valid() && bins.least == least
        invariant BulkInv(cs0, maps0, a0, cs, maps, a[..], i, c) && (i == a.Length ==> c == 0)
        invariant HeldOn(room, TheRoom())
        invariant Kept(m0, bins.mem, others)
      {
        c := BulkStep(a, i, c, cs0, maps0, a0, m0, others);
        i := i + 1;
      }
      BulkDone(m0, bins.mem, cs0, maps0, a0, TheView(), maps, a[..], segs, bins.hdr, least);
      ClearsIs(m0, v0, bins.mem, TheView(), segs, bins.hdr, least, room, TheRoom(), PtrSet(a0, |a0|));
    }

    /** internal_bulk_free: the chunk of entry `i` is joined with the one right after it, which is in entry `i + 1`. */
    method BulkStepJoin(
      a: array<int>, i: nat, p: int, ghost c: int, ghost cs0: Chunks, ghost maps0: map<int, Mapping>,
      ghost a0: seq<int>, ghost m0: Mem, ghost others: map<int, int>
    )
      requires Valid() && i + 1 < a.Length && BulkInv(cs0, maps0, a0, cs, maps, a[..], i, c)
      requires Kept(m0, bins.mem, others)
      requires NoTwice(a0) && AllPointers(a0, Lives(cs0) + MappedLives(maps0)) && 0 !in cs0
      requires (forall x :: x in cs0 ==> x !in maps0)
      requires others == (Lives(cs0) + MappedLives(maps0)) - PtrSet(a0, |a0|)
      requires p == a[i] - 16 && a[i] != 0 && a[i + 1] == p + ChunkSize(bins.mem, p) + 16
      modifies this`cs, bins, a
      ensures Valid() && bins.least == old(bins.least) && Kept(m0, bins.mem, others)
      ensures HeldOn(old(TheRoom()), TheRoom())
      ensures BulkInv(cs0, maps0, a0, cs, maps, a[..], i + 1, p)
    {
      hide HeapOk, BinsOk, Kept, OuterKept, Lives, MappedLives, MapsOk, Whole, Multiple, BulkInv, PtrSet, NoTwice,
           AllPointers, Grow, Grows, UsedAt, ChunkSize;
      ghost var m1, v1, hdr, least, arr := bins.mem, TheView(), bins.hdr, bins.least, a[..];
      BulkShape(cs0, maps0, a0, cs, maps, arr, i, c);
      NextPending(cs0, maps0, a0, cs, maps, arr, i, c);
      EitherLive(Lives(cs), maps, p);
      LiveFacts(m1, v1, segs, hdr, least, maps, p);
      LiveSizes(m1, v1, segs, hdr, least, maps, p);
      OthersLive(cs0, maps0, a0, cs, maps, arr, i, c, others);
      HeapParts(m1, v1, segs, hdr, least);
      ghost var next := p + ChunkSize(m1, p);
      PositiveSize(m1, v1, segs, hdr, least, maps, p);
      AfterPending(cs0, maps0, a0, cs, maps, arr, i, c);
      NextIsLive(m1, v1, segs, hdr, least, maps, p);
      JoinFacts(m1, v1, segs, hdr, least, p);
      a[i] := 0;
      BulkJoin(p);
      a[i + 1] := p + 16;
      KeepMaps(m1, bins.mem, maps, segs, hdr, least);
      KeptOthers(m0, m1, bins.mem, others, Lives(v1.cs) - {p} - {next}, MappedLives(maps));
      assert a[..] == arr[i := 0][i + 1 := arr[i]];
      JoinedEntry(cs0, maps0, a0, v1, TheView(), maps, arr, i, c, segs, hdr, v1.cs[p].size + v1.cs[next].size);
    }

    /** internal_bulk_free: the chunk of entry `i` is unmapped or disposed of. */
    method BulkStepDispose(
      a: array<int>, i: nat, p: int, ghost c: int, ghost cs0: Chunks, ghost maps0: map<int, Mapping>,
      ghost a0: seq<int>, ghost m0: Mem, ghost others: map<int, int>
    )
      requires Valid() && i < a.Length && BulkInv(cs0, maps0, a0, cs, maps, a[..], i, c) && Kept(m0, bins.mem, others)
      requires NoTwice(a0) && AllPointers(a0, Lives(cs0) + MappedLives(maps0)) && 0 !in cs0
      requires (forall x :: x in cs0 ==> x !in maps0)
      requires others == (Lives(cs0) + MappedLives(maps0)) - PtrSet(a0, |a0|)
      requires p == a[i] - 16 && a[i] != 0
      modifies this`dv, this`dvsize, this`top, this`topsize, this`cs, this`maps, bins, a
      ensures Valid() && bins.least == old(bins.least) && Kept(m0, bins.mem, others)
      ensures HeldOn(old(TheRoom()), TheRoom())
      ensures BulkInv(cs0, maps0, a0, cs, maps, a[..], i + 1, 0)
    {
      hide HeapOk, BinsOk, Kept, OuterKept, Lives, MappedLives, MapsOk, Whole, Multiple, BulkInv, PtrSet, NoTwice,
           AllPointers, Freed, UsedAt, Disposed, HowDisposed;
      ghost var m1, v1, hdr, least, arr := bins.mem, TheView(), bins.hdr, bins.least, a[..];
      BulkShape(cs0, maps0, a0, cs, maps, arr, i, c);
      NextPending(cs0, maps0, a0, cs, maps, arr, i, c);
      EitherLive(Lives(cs), maps, p);
      LiveFacts(m1, v1, segs, hdr, least, maps, p);
      LiveSizes(m1, v1, segs, hdr, least, maps, p);
      OthersLive(cs0, maps0, a0, cs, maps, arr, i, c, others);
      HeapParts(m1, v1, segs, hdr, least);
      var psize := ChunkSize(bins.mem, p);
      a[i] := 0;
      assert a[..] == arr[i := 0];
      if !Pinuse(bins.mem, p) && !Cinuse(bins.mem, p) {
        MapRemoved(m1, maps, segs, hdr, least, Lives(cs), p);
        Unmapped(cs0, maps0, a0, cs, maps, arr, i, c);
        maps := maps - {p};
      } else {
        DisposedHolds(m1, v1, segs, hdr, least, TheRoom(), p);
        var how := DisposeChunk(p, psize);
        KeepMaps(m1, bins.mem, maps, segs, hdr, least);
        KeptOthers(m0, m1, bins.mem, others, Lives(v1.cs) - {p}, MappedLives(maps));
        FreedEntry(cs0, maps0, a0, v1.cs, maps, arr, i, c, segs, hdr);
      }
    }

    /** internal_bulk_free, one entry: joins its chunk with the one in the next entry, or disposes of it. */
    method BulkStep(
      a: array<int>, i: nat, ghost c: int, ghost cs0: Chunks, ghost maps0: map<int, Mapping>, ghost a0: seq<int>,
      ghost m0: Mem, ghost others: map<int, int>
    ) returns (ghost c': int)
      requires Valid() && i < a.Length && BulkInv(cs0, maps0, a0, cs, maps, a[..], i, c) && Kept(m0, bins.mem, others)
      requires NoTwice(a0) && AllPointers(a0, Lives(cs0) + MappedLives(maps0)) && 0 !in cs0
      requires (forall x :: x in cs0 ==> x !in maps0)
      requires others == (Lives(cs0) + MappedLives(maps0)) - PtrSet(a0, |a0|)
      modifies this`dv, this`dvsize, this`top, this`topsize, this`cs, this`maps, bins, a
      ensures Valid() && bins.least == old(bins.least) && Kept(m0, bins.mem, others)
      ensures HeldOn(old(TheRoom()), TheRoom())
      ensures BulkInv(cs0, maps0, a0, cs, maps, a[..], i + 1, c') && (i + 1 == a.Length ==> c' == 0)
    {
      hide HeapOk, BinsOk, Kept, Lives, MappedLives, MapsOk, Whole, Multiple, BulkInv, PtrSet, NoTwice, AllPointers,
           UsedAt;
      BulkShape(cs0, maps0, a0, cs, maps, a[..], i, c);
      var mem := a[i];
      c' := 0;
      if mem != 0 {
        var p := mem - 16;
        NextPending(cs0, maps0, a0, cs, maps, a[..], i, c);
        EitherLive(Lives(cs), maps, p);
        LiveFacts(bins.mem, TheView(), segs, bins.hdr, bins.least, maps, p);
        if !(p >= bins.least && !(Pinuse(bins.mem, p) && !Cinuse(bins.mem, p))) { assert false; }
        var next := p + ChunkSize(bins.mem, p);
        if i + 1 < a.Length && a[i + 1] == next + 16 {
          BulkStepJoin(a, i, p, c, cs0, maps0, a0, m0, others);
          c' := p;
        } else {
          BulkStepDispose(a, i, p, c, cs0, maps0, a0, m0, others);
        }
      } else {
        Skipped(cs0, maps0, a0, cs, maps, a[..], i);
      }
    }

    /** dlmalloc_trim: gives back what it can and touches no live chunk. */
    method MallocTrim(pad: nat, sys: Replies) returns (result: bool)
      requires Valid()
      modifies this, bins
      ensures Valid() && Live() == old(Live()) && Kept(old(bins.mem), bins.mem, old(Live()))
      ensures Trims(old(TheRoom()), TheRoom(), pad, sys) && (result <==> segs != old(segs))
      ensures pad < MAX_REQUEST && old(top) != 0 && sys.shrinks && old(topsize) < HALF_MAX_SIZE_T ==>
        topsize <= pad + TOP_FOOT_SIZE + granularity && (old(topsize) > pad + TOP_FOOT_SIZE + granularity ==> result)
    {
      hide HeapOk, BinsOk, Kept, OuterKept, Lives, MappedLives, MapsOk, Whole, Multiple, Shrunk, TrimsTo, Goes;
      ghost var m1, segs1, hdr, least := bins.mem, segs, bins.hdr, bins.least;
      TopThere(m1, TheView(), segs, hdr, least);
      result := SysTrim(pad, sys);
      KeepMapsShrunk(m1, bins.mem, maps, segs1, segs, hdr, least);
      BrkShrunk(segs, segs1);
      KeptBoth(m1, bins.mem, Lives(cs), MappedLives(maps));
    }

    /** internal_bulk_free: frees every pointer in the array, then trims if that is due. */
    method BulkFree(a: array<int>, sys: Replies)
      requires Valid() && AllPointers(a[..], Live()) && NoTwice(a[..])
      modifies this, bins, a
      ensures Valid() && forall k :: 0 <= k < a.Length ==> a[k] == 0
      ensures Live() == old(Live()) - PtrSet(old(a[..]), a.Length)
      ensures GivesAll(old(TheRoom()), TheRoom(), PtrSet(old(a[..]), a.Length), sys)
      ensures Kept(old(bins.mem), bins.mem, old(Live()) - PtrSet(old(a[..]), a.Length))
    {
      hide HeapOk, BinsOk, Kept, OuterKept, Lives, MappedLives, MapsOk, Whole, Multiple, PtrSet, FreeAll, SegPtrs,
           SameChunks, NoTwice, Shrunk;
      ShrunkSelf(segs);
      BulkDispose(a);
      if topsize > trimCheck {
        ghost var m1, live, segs1, hdr, least := bins.mem, Live(), segs, bins.hdr, bins.least;
        TopThere(m1, TheView(), segs, hdr, least);
        var trimmed := SysTrim(0, sys);
        KeepMapsShrunk(m1, bins.mem, maps, segs1, segs, hdr, least);
        BrkShrunk(segs, segs1);
        KeptBoth(m1, bins.mem, Lives(cs), MappedLives(maps));
        KeptTrans(old(bins.mem), m1, bins.mem, live);
      }
    }

    // ---- the program's own writes -------------------------------------------------------------------------

    /** The program stores a word in the payload of a live chunk. */
    method Store(p: int, w: int, x: int)
      requires Valid() && p in Live() && PayloadWord(p, Live()[p], w)
      modifies bins`mem
      ensures Valid() && bins.mem == SetWord(old(bins.mem), w, x)
      ensures Kept(old(bins.mem), bins.mem, Live() - {p})
    {
      hide HeapOk, BinsOk, Kept, OuterKept, Lives, MappedLives, MapsOk, Whole, Multiple, LinkSlot, PayloadWord,
           SetWord, Edited, Para;
      ghost var m0, v0, hdr, least := bins.mem, TheView(), bins.hdr, bins.least;
      LiveFacts(m0, v0, segs, hdr, least, maps, p);
      LiveSizes(m0, v0, segs, hdr, least, maps, p);
      WordEdit(m0, w, x);
      if p in maps {
        StoreInMapping(m0, v0, segs, hdr, least, maps, p, w, x);
        OtherLives(Lives(cs), maps, p);
        KeptBoth(m0, SetWord(m0, w, x), Lives(cs), MappedLives(maps - {p}));
      } else {
        StoreInSegment(m0, v0, segs, hdr, least, maps, p, w, x);
        KeepMaps(m0, SetWord(m0, w, x), maps, segs, hdr, least);
        KeptBoth(m0, SetWord(m0, w, x), Lives(cs) - {p}, MappedLives(maps));
        SplitLive(Lives(cs), MappedLives(maps), p);
      }
      bins.mem := SetWord(bins.mem, w, x);
      EditsKeepBins(m0, bins.mem, if w % 16 == 0 then {} else {Para(w)}, if w % 16 == 0 then {Para(w)} else {},
                    bins.smallmap, bins.treemap, bins.roots,
                    hdr, bins.tbin, bins.g);
    }

    /** Puts free chunk `x` of the carved layout, whose tags are written, into its bin. */
    method Stow(
      x: int, s: nat, ghost p: int, ghost nb: int, ghost m0: Mem, ghost m2: Mem, ghost v0: View, ghost v': View
    )
      requires HeapOk(m0, v0, segs, bins.hdr, bins.least) && Carves(v0, v', p, nb)
      requires CarveWritten(m2, bins.mem, v0.cs, p, nb)
      requires OnlySlots(m0, m2, v0.bs, bins.hdr)
      requires BinsOk(m2, bins.smallmap, bins.treemap, bins.roots, bins.hdr, bins.tbin, bins.g)
      requires SubMap(bins.g.bs, v0.bs) && p !in bins.g.bs && x !in bins.g.bs && v'.bs == bins.g.bs[x := s]
      requires forall y :: y in bins.g.bs ==> bins.least <= y
      modifies bins
      ensures bins.Valid() && bins.g.bs == v'.bs && HeapOk(bins.mem, v', segs, bins.hdr, bins.least)
      ensures bins.least == old(bins.least)
      ensures Kept(m0, bins.mem, Lives(v0.cs)) && OuterKept(m0, bins.mem, segs, bins.hdr)
      ensures Lives(v'.cs) == Lives(v0.cs)[p := nb] && p !in Lives(v0.cs)
    {
      hide HeapOk, BinsOk, Carve, Lives, Kept, OnlySlots, Tagged, Edited, LinkSlot, Spaced, OuterKept, Carves,
           CarveWritten, SubMap;
      ghost var m3, hdr, least := bins.mem, bins.hdr, bins.least;
      CarvesParts(v0, v', p, nb);
      CarveWrites(m0, m2, m3, v0, bins.g.bs, segs, hdr, least, p, nb);
      EditsKeepBins(m2, m3, {p, p + nb}, {NextOf(v0.cs, p)}, bins.smallmap, bins.treemap, bins.roots, hdr, bins.tbin,
                    bins.g);
      CarveRoom(m0, m3, v0, v', segs, hdr, least, p, nb, x);
      bins.InsertChunk(x, s);
      CarveDone(m0, m2, m3, bins.mem, v0, v', segs, hdr, least, p, nb);
    }

    /**
     * tmalloc_large: allocates from the best fitting tree chunk, unless the designated victim fits at least as well.
     */
    method TmallocLarge(nb: nat) returns (p: int)
      requires Core() && MIN_LARGE_SIZE <= nb < W64 && nb % 16 == 0
      modifies this`cs, bins
      ensures Core() && bins.least == old(bins.least)
      ensures p == 0 ==> TheView() == old(TheView()) && bins.mem == old(bins.mem)
      ensures p == 0 ==> forall x :: x in bins.g.bs && bins.g.bs[x] >= MIN_LARGE_SIZE ==>
        bins.g.bs[x] < nb || nb <= dvsize <= bins.g.bs[x]
      ensures p != 0 ==> LeastFit(old(bins.g.bs), nb, p) && (dvsize < nb || old(bins.g.bs)[p] < dvsize)
      ensures p != 0 ==> Served(old(cs), cs, p, nb) && Unused(old(cs), p, cs[p].size)
      ensures Kept(old(bins.mem), bins.mem, Lives(old(cs))) && OuterKept(old(bins.mem), bins.mem, segs, bins.hdr)
    {
      hide HeapOk, BinsOk, Carve, Lives, Kept, OnlySlots, Tagged, OuterKept, Carves, CarveWritten, SetInuseAndPinuse,
           SetFreeHead, SetInuseHead,
           Served, Unused, Carvable;
      ghost var m0, v0, hdr, least := bins.mem, TheView(), bins.hdr, bins.least;
      var v, rsize := bins.FindBestFit(nb);
      if v != 0 { BinnedFacts(m0, v0, segs, hdr, least, v); }
      AllKept(m0, Lives(cs), segs, hdr);
      if v != 0 && rsize < Sub64(dvsize, nb) {
        if v >= bins.least {
          var r := v + nb;
          if v < r {
            bins.UnlinkLargeChunk(v);
            ghost var m2 := bins.mem;
            if rsize < MIN_CHUNK_SIZE {
              cs := Carve(v0.cs, v, rsize + nb);
              bins.mem := SetInuseAndPinuse(bins.mem, v, rsize + nb);
              TakeBinned(m0, m2, v0, TheView(), segs, hdr, least, v);
              CarveFinish(m0, m2, bins.mem, v0, TheView(), segs, hdr, least, v, rsize + nb, bins.smallmap,
                          bins.treemap, bins.roots, bins.tbin, bins.g);
              ServedBy(m0, v0, segs, hdr, least, v, rsize + nb, nb);
            } else {
              cs := Carve(v0.cs, v, nb);
              bins.mem := SetFreeHead(SetInuseHead(bins.mem, v, nb), r, rsize);
              SplitBinned(m0, m2, v0, TheView().(bs := bins.g.bs[r := rsize]), segs, hdr, least, v, nb);
              Stow(r, rsize, v, nb, m0, m2, v0, TheView().(bs := bins.g.bs[r := rsize]));
              ServedBy(m0, v0, segs, hdr, least, v, nb, nb);
            }
            return v;
          }
        }
        assert false;
      }
      return 0;
    }

    /** Hands out unlinked chunk `p`, splitting off a remainder that becomes the designated victim (replace_dv). */
    method ServeAndReplaceDv(p: int, nb: nat, rsize: nat, ghost m0: Mem, ghost v0: View)
      requires HeapOk(m0, v0, segs, bins.hdr, bins.least) && bins.Valid() && TheView() == v0.(bs := v0.bs - {p})
      requires p in v0.bs && v0.bs[p] == nb + rsize && OnlySlots(m0, bins.mem, v0.bs, bins.hdr)
      requires MIN_CHUNK_SIZE <= nb < MIN_LARGE_SIZE && nb % 16 == 0 && dvsize < nb
      modifies this`dv, this`dvsize, this`cs, bins
      ensures Core() && bins.least == old(bins.least) && Served(v0.cs, cs, p, nb) && Unused(v0.cs, p, cs[p].size)
      ensures Leaves(v0.bs, old(dv), old(dvsize), nb, p, dv, dvsize)
      ensures Kept(m0, bins.mem, Lives(v0.cs)) && OuterKept(m0, bins.mem, segs, bins.hdr)
    {
      hide HeapOk, BinsOk, Carve, Lives, Kept, OnlySlots, Tagged, OuterKept, Carves, CarveWritten, SetInuseAndPinuse,
           SetFreeHead, SetInuseHead,
           Served, Unused, Carvable, SubMap;
      ghost var m2, hdr, least := bins.mem, bins.hdr, bins.least;
      BinnedFacts(m0, v0, segs, hdr, least, p);
      if rsize < MIN_CHUNK_SIZE {
        cs := Carve(v0.cs, p, rsize + nb);
        bins.mem := SetInuseAndPinuse(bins.mem, p, rsize + nb);
        TakeBinned(m0, m2, v0, TheView(), segs, hdr, least, p);
        CarveFinish(m0, m2, bins.mem, v0, TheView(), segs, hdr, least, p, rsize + nb, bins.smallmap, bins.treemap,
                    bins.roots, bins.tbin, bins.g);
        ServedBy(m0, v0, segs, hdr, least, p, rsize + nb, nb);
      } else {
        var r := p + nb;
        cs := Carve(v0.cs, p, nb);
        bins.mem := SetFreeHead(SetInuseHead(bins.mem, p, nb), r, rsize);
        ghost var v' := View(cs, if dvsize == 0 then bins.g.bs else bins.g.bs[dv := dvsize], r, rsize, top, topsize);
        SplitToVictim(m0, m2, v0, v', segs, hdr, least, p, nb);
        if dvsize != 0 {
          assert dvsize < MIN_LARGE_SIZE;
          Stow(dv, dvsize, p, nb, m0, m2, v0, v');
        } else {
          CarveFinish(m0, m2, bins.mem, v0, v', segs, hdr, least, p, nb, bins.smallmap, bins.treemap, bins.roots,
                      bins.tbin, bins.g);
        }
        dvsize := rsize;
        dv := r;
        ServedBy(m0, v0, segs, hdr, least, p, nb, nb);
      }
    }

    /** tmalloc_small: allocates a small request from the least large chunk. */
    method TmallocSmall(nb: nat) returns (p: int)
      requires Core() && bins.treemap != 0 && MIN_CHUNK_SIZE <= nb < MIN_LARGE_SIZE && nb % 16 == 0 && dvsize < nb
      modifies this`dv, this`dvsize, this`cs, bins
      ensures Core() && bins.least == old(bins.least)
      ensures p != 0 && p in old(bins.g.bs) && MIN_LARGE_SIZE <= old(bins.g.bs)[p]
      ensures forall x :: x in old(bins.g.bs) && MIN_LARGE_SIZE <= old(bins.g.bs)[x] ==>
        old(bins.g.bs)[p] <= old(bins.g.bs)[x]
      ensures Served(old(cs), cs, p, nb) && Unused(old(cs), p, cs[p].size)
      ensures Leaves(old(bins.g.bs), old(dv), old(dvsize), nb, p, dv, dvsize)
      ensures Kept(old(bins.mem), bins.mem, Lives(old(cs))) && OuterKept(old(bins.mem), bins.mem, segs, bins.hdr)
    {
      hide HeapOk, BinsOk, Lives, Kept, OnlySlots, OuterKept, Served, Unused;
      ghost var m0, v0 := bins.mem, TheView();
      var v, rsize := bins.FindLeast(nb);
      BinnedFacts(m0, v0, segs, bins.hdr, bins.least, v);
      if v >= bins.least {
        var r := v + nb;
        if v < r {
          bins.UnlinkLargeChunk(v);
          ServeAndReplaceDv(v, nb, rsize, m0, v0);
          return v;
        }
      }
      assert false;
    }

    /** dlmalloc: a chunk of small bin `idx` is handed out whole. */
    method TakeWhole(idx: nat, nb: nat) returns (p: int)
      requires Core() && idx < 32 && Bit(bins.smallmap, idx) && 0 < nb <= 8 * idx < nb + 16 && nb % 16 == 0
      modifies this`cs, bins
      ensures Core() && bins.least == old(bins.least) && p != 0 && p != dv
      ensures p in old(bins.g.bs) && old(bins.g.bs)[p] == 8 * idx == nb && NewestOfSize(old(bins.g), p)
      ensures Served(old(cs), cs, p, nb) && Unused(old(cs), p, cs[p].size)
      ensures Kept(old(bins.mem), bins.mem, Lives(old(cs))) && OuterKept(old(bins.mem), bins.mem, segs, bins.hdr)
    {
      hide HeapOk, BinsOk, Carve, Lives, Kept, OnlySlots, Tagged, OuterKept, Carves, CarveWritten, SetInuseAndPinuse,
           Served, Unused, Carvable, Bit, SubMap;
      ghost var m0, v0, hdr, least := bins.mem, TheView(), bins.hdr, bins.least;
      p := bins.UnlinkFirstSmallChunk(idx);
      ghost var m2 := bins.mem;
      BinnedFacts(m0, v0, segs, hdr, least, p);
      cs := Carve(v0.cs, p, 8 * idx);
      bins.mem := SetInuseAndPinuse(bins.mem, p, 8 * idx);
      TakeBinned(m0, m2, v0, TheView(), segs, hdr, least, p);
      CarveFinish(m0, m2, bins.mem, v0, TheView(), segs, hdr, least, p, 8 * idx, bins.smallmap, bins.treemap,
                  bins.roots, bins.tbin, bins.g);
      ServedBy(m0, v0, segs, hdr, least, p, 8 * idx, nb);
    }

    /**
     * The part of dlmalloc that serves a small request from the bins: an exact fit, or the best fit if dv is too small.
     */
    method MallocSmall(nb: nat) returns (p: int)
      requires Core() && MIN_CHUNK_SIZE <= nb < MIN_LARGE_SIZE && nb % 16 == 0
      modifies this`dv, this`dvsize, this`cs, bins
      ensures Core() && bins.least == old(bins.least)
      ensures p == 0 ==> TheView() == old(TheView()) && bins.mem == old(bins.mem)
      ensures p == 0 ==> forall x :: x in bins.g.bs ==> bins.g.bs[x] != nb && (dvsize < nb ==> bins.g.bs[x] < nb)
      ensures p != 0 ==> LeastFit(old(bins.g.bs), nb, p) && (old(dvsize) < nb || old(bins.g.bs)[p] == nb)
      ensures p != 0 && old(bins.g.bs)[p] < MIN_LARGE_SIZE ==> NewestOfSize(old(bins.g), p)
      ensures p != 0 ==> Leaves(old(bins.g.bs), old(dv), old(dvsize), nb, p, dv, dvsize)
      ensures p != 0 ==> Served(old(cs), cs, p, nb) && Unused(old(cs), p, cs[p].size)
      ensures Kept(old(bins.mem), bins.mem, Lives(old(cs))) && OuterKept(old(bins.mem), bins.mem, segs, bins.hdr)
    {
      hide HeapOk, BinsOk, Carve, Lives, Kept, OnlySlots, Tagged, OuterKept, Carves, CarveWritten, SetInuseAndPinuse,
           Served, Unused, Carvable,
           Bit, And, Not, Shr, Shl, LeftBits, LeastBit, Bit2Idx, LowestMarked, Pow2, SubMap;
      ghost var m0, v0, hdr, least := bins.mem, TheView(), bins.hdr, bins.least;
      AllKept(m0, Lives(cs), segs, hdr);
      MarkedFacts(m0, bins.smallmap, bins.treemap, bins.roots, hdr, bins.tbin, bins.g);
      var idx := nb / 8;
      var smallbits := Shr(bins.smallmap, idx);
      ShiftedScan(bins.smallmap, idx);
      LowestMarkedIs(bins.smallmap, idx + 1);
      LowPair(smallbits);
      if And(smallbits, 3) != 0 {
        idx := idx + And(Not(smallbits, 32), 1);
        p := TakeWhole(idx, nb);
        return;
      } else if nb > dvsize {
        if smallbits != 0 {
          var leftbits := And(Shl(smallbits, idx), LeftBits(Idx2Bit(idx)));
          var i := Bit2Idx(LeastBit(leftbits));
          p := bins.UnlinkFirstSmallChunk(i);
          BinnedFacts(m0, v0, segs, hdr, least, p);
          ServeAndReplaceDv(p, nb, 8 * i - nb, m0, v0);
          return;
        } else if bins.treemap != 0 {
          p := TmallocSmall(nb);
          return;
        }
      }
      p := 0;
    }

    /** dlmalloc: splits or exhausts the designated victim. */
    method MallocFromDv(nb: nat) returns (p: int)
      requires Core() && MIN_CHUNK_SIZE <= nb <= dvsize && nb % 16 == 0
      modifies this`dv, this`dvsize, this`cs, bins
      ensures Core() && bins.least == old(bins.least) && p == old(dv) && p != 0
      ensures Leaves(old(bins.g.bs), old(dv), old(dvsize), nb, p, dv, dvsize)
      ensures Served(old(cs), cs, p, nb) && Unused(old(cs), p, cs[p].size)
      ensures Kept(old(bins.mem), bins.mem, Lives(old(cs))) && OuterKept(old(bins.mem), bins.mem, segs, bins.hdr)
    {
      hide HeapOk, BinsOk, Carve, Lives, Kept, OnlySlots, OuterKept, Carves, CarveWritten, SetInuseAndPinuse,
           SetFreeHead, SetInuseHead,
           Served, Unused, Carvable, SubMap;
      ghost var m0, v0, hdr, least := bins.mem, TheView(), bins.hdr, bins.least;
      VictimFacts(m0, v0, segs, hdr, least);
      OnlySlotsSelf(m0, v0.bs, hdr);
      p := dv;
      var rsize := dvsize - nb;
      var s := if rsize >= MIN_CHUNK_SIZE then nb else dvsize;
      cs := Carve(v0.cs, p, s);
      if rsize >= MIN_CHUNK_SIZE {
        var r := p + nb;
        dv := r;
        dvsize := rsize;
        bins.mem := SetInuseHead(SetFreeHead(bins.mem, r, rsize), p, nb);
      } else {
        dvsize := 0;
        dv := 0;
        bins.mem := SetInuseAndPinuse(bins.mem, p, s);
      }
      CarveVictim(m0, v0, TheView(), segs, hdr, least, s);
      CarveFinish(m0, m0, bins.mem, v0, TheView(), segs, hdr, least, p, s, bins.smallmap, bins.treemap, bins.roots,
                  bins.tbin, bins.g);
      ServedBy(m0, v0, segs, hdr, least, p, s, nb);
    }

    /** dlmalloc and sys_alloc: splits top. */
    method MallocFromTop(nb: nat) returns (p: int)
      requires Core() && MIN_CHUNK_SIZE <= nb < topsize && nb % 16 == 0
      modifies this`top, this`topsize, this`cs, bins
      ensures Core() && bins.least == old(bins.least) && p == old(top) && p != 0
      ensures Served(old(cs), cs, p, nb) && Unused(old(cs), p, cs[p].size) && cs[p].size == nb
      ensures Kept(old(bins.mem), bins.mem, Lives(old(cs))) && OuterKept(old(bins.mem), bins.mem, segs, bins.hdr)
    {
      hide HeapOk, BinsOk, Carve, Lives, Kept, OnlySlots, OuterKept, Carves, CarveWritten, SetHead, SetInuseHead,
           Served, Unused, Carvable, SubMap;
      ghost var m0, v0, hdr, least := bins.mem, TheView(), bins.hdr, bins.least;
      TopFacts(m0, v0, segs, hdr, least);
      OnlySlotsSelf(m0, v0.bs, hdr);
      topsize := topsize - nb;
      p := top;
      top := p + nb;
      bins.mem := SetInuseHead(SetHead(bins.mem, top, topsize + 1), p, nb);
      cs := Carve(v0.cs, p, nb);
      CarveTop(m0, v0, TheView(), segs, hdr, least, nb);
      CarveFinish(m0, m0, bins.mem, v0, TheView(), segs, hdr, least, p, nb, bins.smallmap, bins.treemap, bins.roots,
                  bins.tbin, bins.g);
      ServedBy(m0, v0, segs, hdr, least, p, nb, nb);
    }

    /** dispose_chunk: consolidates a chunk with its free neighbours and bins the result. */
    method DisposeChunk(p0: int, psize0: int) returns (how: Outcome)
      requires Core() && p0 in cs && cs[p0].kind.Live? && cs[p0].size == psize0
      modifies this`dv, this`dvsize, this`top, this`topsize, this`cs, bins
      ensures Core() && cs == Freed(old(cs), p0) && Lives(cs) == Lives(old(cs)) - {p0}
      ensures Kept(old(bins.mem), bins.mem, Lives(old(cs)) - {p0})
      ensures OuterKept(old(bins.mem), bins.mem, segs, bins.hdr) && bins.least == old(bins.least)
      ensures NextOf(old(cs), p0) in old(cs) && how == HowDisposed(old(TheRoom()), p0)
      ensures TheRoom() == Disposed(old(TheRoom()), p0)
    {
      hide HeapOk, BinsOk, Freed, Lives, Kept, OnlySlots, OuterKept, SetFreeBefore, MergeStart, MergeEnd, MergeKind,
           NextOf, ReleaseWritten;
      ghost var m0, v0 := bins.mem, TheView();
      ghost var q, e, k := DisposeFacts(m0, v0, segs, bins.hdr, bins.least, p0);
      var p, psize := p0, psize0;
      var next := p0 + psize0;
      OnlySlotsSelf(m0, v0.bs, bins.hdr);
      if !Pinuse(bins.mem, p) {
        var prevsize := Foot(bins.mem, p);
        if !Cinuse(bins.mem, p) { assert false; }
        p := p - prevsize;
        psize := psize + prevsize;
        if !(p >= bins.least) { assert false; }
        if p != dv {
          bins.UnlinkChunk(p, prevsize);
        } else if Pinuse(bins.mem, next) && Cinuse(bins.mem, next) {
          dvsize := psize;
          cs := Freed(v0.cs, p0);
          ReleasedIs(m0, m0, v0, segs, bins.hdr, bins.least, p0);
          bins.mem := SetFreeBefore(bins.mem, p, psize, next);
          ReleaseFinish(m0, m0, bins.mem, v0, TheView(), segs, bins.hdr, bins.least, p0, bins.smallmap, bins.treemap,
                        bins.roots, bins.tbin, bins.g);
          return Absorbed;
        }
      }
      how := DisposeForward(p, psize, next, p0, m0, v0);
    }

    /** dispose_chunk: the chunk after the freed space is free and binned, and is joined to it. */
    method DisposeJoin(
      p: int, psize0: int, next: int, ghost p0: int, ghost m0: Mem, ghost v0: View
    ) returns (how: Outcome)
      requires bins.Valid() && HeapOk(m0, v0, segs, bins.hdr, bins.least) && v0 == TheView().(bs := v0.bs)
      requires p0 in cs && cs[p0].kind.Live? && next == NextOf(cs, p0) && p == MergeStart(cs, p0) && psize0 == next - p
      requires OnlySlots(m0, bins.mem, v0.bs, bins.hdr) && bins.g.bs == v0.bs - {p}
      requires next != top && next != dv && !Cinuse(bins.mem, next)
      modifies this`dv, this`dvsize, this`top, this`topsize, this`cs, bins
      ensures Core() && cs == Freed(v0.cs, p0) && Lives(cs) == Lives(v0.cs) - {p0}
      ensures Kept(m0, bins.mem, Lives(v0.cs) - {p0})
      ensures OuterKept(m0, bins.mem, segs, bins.hdr) && bins.least == old(bins.least)
      ensures NextOf(old(cs), p0) in old(cs) && how == HowDisposed(old(TheRoom()), p0)
      ensures TheRoom() == Disposed(old(TheRoom()), p0)
    {
      hide HeapOk, BinsOk, Freed, Lives, Kept, OnlySlots, OuterKept, SetFreeBefore, SetFreeHead, SetHead,
           MergeStart, MergeEnd, MergeKind, NextOf, Releases, ReleaseWritten, Cinuse, Pinuse, ChunkSize, InUse;
      ghost var hdr, least, m1, bs1 := bins.hdr, bins.least, bins.mem, bins.g.bs;
      ghost var q, e, k := DisposeFacts(m0, v0, segs, hdr, least, p0);
      var psize := psize0;
      TagsStay(m0, m1, v0, segs, hdr, least, next);
      var nsize := ChunkSize(bins.mem, next);
      psize := psize + nsize;
      bins.UnlinkChunk(next, nsize);
      SlotsTrans(m0, m1, bins.mem, v0.bs, bs1, hdr);
      ghost var m2 := bins.mem;
      if p == dv {
        dvsize := psize;
        cs := Freed(v0.cs, p0);
        ForwardExit(m0, v0, TheView(), segs, hdr, least, p0);
        ReleasedIs(m0, m2, v0, segs, hdr, least, p0);
        bins.mem := SetFreeHead(bins.mem, p, psize);
        ReleaseFinish(m0, m2, bins.mem, v0, TheView(), segs, hdr, least, p0, bins.smallmap, bins.treemap, bins.roots,
                      bins.tbin, bins.g);
        return Absorbed;
      }
      ReleasedIs(m0, m2, v0, segs, hdr, least, p0);
      bins.mem := SetFreeHead(bins.mem, p, psize);
      BinExit(m0, v0, TheView().(cs := Freed(v0.cs, p0), bs := bins.g.bs[p := psize]), segs, hdr, least, p0);
      BinReleased(p, psize, p0, m0, m2, v0);
      return IntoBin(p, psize);
    }

    /** dispose_chunk: the chunk after the freed space is top or the designated victim, which takes it in. */
    method DisposeBeside(
      p: int, psize: int, next: int, ghost p0: int, ghost m0: Mem, ghost v0: View
    ) returns (how: Outcome)
      requires bins.Valid() && HeapOk(m0, v0, segs, bins.hdr, bins.least) && v0 == TheView().(bs := v0.bs)
      requires p0 in cs && cs[p0].kind.Live? && next == NextOf(cs, p0) && p == MergeStart(cs, p0) && psize == next - p
      requires OnlySlots(m0, bins.mem, v0.bs, bins.hdr) && bins.g.bs == v0.bs - {p}
      requires (next == top || next == dv) && !Cinuse(bins.mem, next)
      modifies this`dv, this`dvsize, this`top, this`topsize, this`cs, bins
      ensures Core() && cs == Freed(v0.cs, p0) && Lives(cs) == Lives(v0.cs) - {p0}
      ensures Kept(m0, bins.mem, Lives(v0.cs) - {p0})
      ensures OuterKept(m0, bins.mem, segs, bins.hdr) && bins.least == old(bins.least)
      ensures NextOf(old(cs), p0) in old(cs) && how == HowDisposed(old(TheRoom()), p0)
      ensures TheRoom() == Disposed(old(TheRoom()), p0)
    {
      hide HeapOk, BinsOk, Freed, Lives, Kept, OnlySlots, OuterKept, SetFreeBefore, SetFreeHead, SetHead,
           MergeStart, MergeEnd, MergeKind, NextOf, Releases, ReleaseWritten, Cinuse, Pinuse, ChunkSize, InUse,
           Disposed, HowDisposed;
      ghost var hdr, least, m1 := bins.hdr, bins.least, bins.mem;
      ghost var q, e, k := DisposeFacts(m0, v0, segs, hdr, least, p0);
      TagsStay(m0, m1, v0, segs, hdr, least, next);
      DisposedBeside(TheRoom(), p0);
      if next == top {
        topsize := topsize + psize;
        top := p;
        if p == dv { dv, dvsize := 0, 0; }
        cs := Freed(v0.cs, p0);
        ForwardExit(m0, v0, TheView(), segs, hdr, least, p0);
        ReleasedIs(m0, m1, v0, segs, hdr, least, p0);
        bins.mem := SetHead(bins.mem, p, topsize + 1);
        ReleaseFinish(m0, m1, bins.mem, v0, TheView(), segs, hdr, least, p0, bins.smallmap, bins.treemap, bins.roots,
                      bins.tbin, bins.g);
        return IntoTop;
      } else {
        dvsize := dvsize + psize;
        dv := p;
        cs := Freed(v0.cs, p0);
        ForwardExit(m0, v0, TheView(), segs, hdr, least, p0);
        ReleasedIs(m0, m1, v0, segs, hdr, least, p0);
        bins.mem := SetFreeHead(bins.mem, p, dvsize);
        ReleaseFinish(m0, m1, bins.mem, v0, TheView(), segs, hdr, least, p0, bins.smallmap, bins.treemap, bins.roots,
                      bins.tbin, bins.g);
        return Absorbed;
      }
    }

    /** The second half of dispose_chunk: consolidation with the next chunk. */
    method DisposeForward(
      p: int, psize0: int, next: int, ghost p0: int, ghost m0: Mem, ghost v0: View
    ) returns (how: Outcome)
      requires bins.Valid() && HeapOk(m0, v0, segs, bins.hdr, bins.least) && v0 == TheView().(bs := v0.bs)
      requires p0 in cs && cs[p0].kind.Live? && next == NextOf(cs, p0) && p == MergeStart(cs, p0) && psize0 == next - p
      requires OnlySlots(m0, bins.mem, v0.bs, bins.hdr) && bins.g.bs == v0.bs - {p}
      requires Pinuse(m0, p0) || p != dv || !Cinuse(m0, next)
      modifies this`dv, this`dvsize, this`top, this`topsize, this`cs, bins
      ensures Core() && cs == Freed(v0.cs, p0) && Lives(cs) == Lives(v0.cs) - {p0}
      ensures Kept(m0, bins.mem, Lives(v0.cs) - {p0})
      ensures OuterKept(m0, bins.mem, segs, bins.hdr) && bins.least == old(bins.least)
      ensures NextOf(old(cs), p0) in old(cs) && how == HowDisposed(old(TheRoom()), p0)
      ensures TheRoom() == Disposed(old(TheRoom()), p0)
    {
      hide HeapOk, BinsOk, Freed, Lives, Kept, OnlySlots, OuterKept, SetFreeBefore, SetFreeHead, SetHead,
           MergeStart, MergeEnd, MergeKind, NextOf, Releases, ReleaseWritten, Cinuse, Pinuse, ChunkSize, InUse;
      ghost var hdr, least, m1, bs1 := bins.hdr, bins.least, bins.mem, bins.g.bs;
      ghost var q, e, k := DisposeFacts(m0, v0, segs, hdr, least, p0);
      var psize := psize0;
      TagsStay(m0, m1, v0, segs, hdr, least, next);
      if !(next >= bins.least) { assert false; }
      if !Cinuse(bins.mem, next) {
        if next == top || next == dv {
          how := DisposeBeside(p, psize, next, p0, m0, v0);
          return;
        } else {
          how := DisposeJoin(p, psize, next, p0, m0, v0);
          return;
        }
      }
      ReleasedIs(m0, m1, v0, segs, hdr, least, p0);
      bins.mem := SetFreeBefore(bins.mem, p, psize, next);
      BinExit(m0, v0, TheView().(cs := Freed(v0.cs, p0), bs := bins.g.bs[p := psize]), segs, hdr, least, p0);
      BinReleased(p, psize, p0, m0, m1, v0);
      return IntoBin(p, psize);
    }

    /** The last step of dispose_chunk: puts the merged chunk, whose tags are written, into its bin. */
    method BinReleased(p: int, psize: nat, ghost p0: int, ghost m0: Mem, ghost m2: Mem, ghost v0: View)
      requires HeapOk(m0, v0, segs, bins.hdr, bins.least) && p0 in v0.cs && v0.cs[p0].kind.Live?
      requires NextOf(v0.cs, p0) in v0.cs
      requires p == MergeStart(v0.cs, p0) && psize == MergeEnd(v0.cs, p0) - p && p !in bins.g.bs
      requires ReleaseWritten(m2, bins.mem, v0.cs, p0)
      requires BinsOk(m2, bins.smallmap, bins.treemap, bins.roots, bins.hdr, bins.tbin, bins.g)
      requires OnlySlots(m0, m2, v0.bs, bins.hdr) && forall x :: x in bins.g.bs ==> bins.least <= x
      requires Releases(v0, View(Freed(v0.cs, p0), bins.g.bs[p := psize], dv, dvsize, top, topsize), p0)
      modifies this`cs, bins
      ensures Core() && cs == Freed(v0.cs, p0) && Lives(cs) == Lives(v0.cs) - {p0} && p in bins.g.bs
      ensures bins.g.bs[p] == psize
      ensures Kept(m0, bins.mem, Lives(v0.cs) - {p0})
      ensures OuterKept(m0, bins.mem, segs, bins.hdr) && bins.least == old(bins.least)
    {
      hide HeapOk, BinsOk, Freed, Lives, Kept, OnlySlots, Tagged, Edited, LinkSlot, Spaced, OuterKept,
           MergeStart, MergeEnd, MergeKind, ReleaseWritten, Releases, NextOf;
      ghost var m3, e, hdr, least := bins.mem, MergeEnd(v0.cs, p0), bins.hdr, bins.least;
      ghost var v' := View(Freed(v0.cs, p0), bins.g.bs[p := psize], dv, dvsize, top, topsize);
      ReleasesWithout(v0, bins.g.bs, v', p0, psize);
      ReleaseWrites(m0, m2, m3, v0, bins.g.bs, segs, hdr, least, p0);
      EditsKeepBins(m2, m3, {p, e}, {e}, bins.smallmap, bins.treemap, bins.roots, hdr, bins.tbin, bins.g);
      RoomForMerged(m0, v0, v', segs, hdr, least, p0);
      FreeHeadSize(m3, p, psize);
      cs := Freed(v0.cs, p0);
      assert v'.bs[p] == psize;
      bins.InsertChunk(p, psize);
      ReleaseDone(m0, m2, m3, bins.mem, v0, v', segs, hdr, least, p0);
    }
  }
}
