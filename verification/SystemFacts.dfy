/** What getting memory from the system relies on: vacant ranges, direct mappings and the break. */
module SystemFacts {
  import opened Words
  import opened Memory
  import opened BinStore
  import opened Layout
  import opened Tags
  import opened HeapBase
  import opened HeapSteps
  import opened Segments
  import opened SegmentSteps
  import opened Mappings
  import opened HeapFacts
  import opened ReleaseFacts

  // ---- sys_alloc ------------------------------------------------------------------------------------------

  /** Rounding up to a multiple of `g`, a power of two, in 64-bit arithmetic. */
  function RoundUp(s: nat, g: nat): nat
    requires g > 0
  {
    var x := (s + g - 1) % W64;
    x - x % g
  }

  /** If the result is larger than the request, nothing wrapped around, and the padded request is covered. */
  lemma RoundUpFits(nb: nat, pad: nat, g: nat)
    requires nb < W64 && 0 < g < W64 / 2 && pad <= 128 && Multiple(W64 / 2, g) && RoundUp(nb + pad, g) > nb
    ensures nb + pad + g - 1 < W64 && nb + pad <= RoundUp(nb + pad, g) < W64 && Multiple(RoundUp(nb + pad, g), g)
  {
    hide Multiple;
    var s := nb + pad + g - 1;
    Wrapped(s);
    RoundedDown(s % W64, g);
  }

  lemma Wrapped(s: nat)
    requires s < 2 * W64
    ensures s % W64 == if s < W64 then s else s - W64
  {
  }

  lemma RoundedDown(x: nat, g: nat)
    requires g > 0
    ensures 0 <= x - x % g <= x < x - x % g + g && Multiple(x - x % g, g)
  {
    var k := x / g;
    assert x - x % g == k * g;
    MultipleOf(k, g);
  }

  /** Rounding up without wrap-around is monotone in what it covers. */
  lemma RoundUpCovers(s: nat, g: nat)
    requires g > 0 && s + g - 1 < W64
    ensures s <= RoundUp(s, g) < s + g && Multiple(RoundUp(s, g), g)
  {
    hide Multiple;
    Wrapped(s + g - 1);
    RoundedDown(s + g - 1, g);
  }

  /** The system hands out [base, base + size): it is apart from everything held so far. */
  predicate Vacant(base: int, size: int, segs: seq<Segment>, hdr: int, maps: map<int, Mapping>) {
    0 < base && 0 < size && base + size < W64 && ClearOfHeap(base, base + size, segs, hdr) && ClearOfMaps(base,
        base + size, maps)
  }

  lemma VacantFits(segs: seq<Segment>, hdr: int, maps: map<int, Mapping>, s: Segment)
    requires Vacant(s.base, s.size, segs, hdr, maps) && End(s) % 16 == 0
    ensures Fits(segs, hdr, s)
  {
  }

  lemma VacantAfter(segs: seq<Segment>, hdr: int, maps: map<int, Mapping>, size: int)
    requires SegsOk(segs, hdr) && segs != [] && Vacant(End(segs[|segs| - 1]), size, segs, hdr, maps) && size % 16 == 0
    ensures SegsOk(Shorter(segs, -size), hdr)
  {
  }

  lemma VacantBefore(segs: seq<Segment>, hdr: int, maps: map<int, Mapping>, i: nat, base: int)
    requires SegsOk(segs, hdr) && i < |segs| && base < segs[i].base
    requires Vacant(base, segs[i].base - base, segs, hdr, maps)
    ensures SegsOk(segs[i := Extended(segs[i], base)], hdr)
  {
  }

  lemma ClearJoin(a: int, b: int, c: int, maps: map<int, Mapping>)
    requires ClearOfMaps(a, b, maps) && ClearOfMaps(b, c, maps) && a <= b <= c
    requires forall p :: p in maps ==> maps[p].base < MapEnd(maps[p])
    ensures ClearOfMaps(a, c, maps)
  {
    forall p | p in maps ensures c <= maps[p].base || MapEnd(maps[p]) <= a { }
  }

  lemma MapsNonEmpty(m: Mem, maps: map<int, Mapping>, segs: seq<Segment>, hdr: int, least: int)
    requires MapsOk(m, maps, segs, hdr, least)
    ensures forall p :: p in maps ==> maps[p].base < MapEnd(maps[p])
  {
    forall p | p in maps ensures maps[p].base < MapEnd(maps[p]) { assert MappingOk(m, p, maps[p], segs, hdr, least); }
  }

  lemma LowerLeast(m: Mem, v: View, segs: seq<Segment>, hdr: int, least: int, least': int)
    requires HeapOk(m, v, segs, hdr, least) && least' <= least
    ensures HeapOk(m, v, segs, hdr, least')
  {
  }

  lemma LowerMaps(m: Mem, maps: map<int, Mapping>, segs: seq<Segment>, hdr: int, least: int, least': int)
    requires MapsOk(m, maps, segs, hdr, least) && least' <= least
    ensures MapsOk(m, maps, segs, hdr, least')
  {
    forall p | p in maps ensures MappingOk(m, p, maps[p], segs, hdr, least') {
      assert MappingOk(m, p, maps[p], segs, hdr, least);
    }
  }

  // ---- mmap_alloc -----------------------------------------------------------------------------------------

  /** The words mmap_alloc writes: offset, size, and the fenceposts behind the chunk. */
  function MappedWritten(m: Mem, p: int, offset: int, psize: int): Mem {
    SetWord(SetHead(SetHead(SetFoot(m, p, offset), p, psize), p + psize, FENCEPOST_HEAD), p + psize + 16, 0)
  }

  lemma MapAdded(
    m: Mem, maps: map<int, Mapping>, v: View, segs: seq<Segment>, hdr: int, least: int, least': int, base: int,
    size: int, p: int, psize: int
  )
    requires MapsOk(m, maps, segs, hdr, least) && HeapOk(m, v, segs, hdr, least) && Vacant(base, size, segs, hdr, maps)
    requires least' <= least && least' <= base
    requires base <= p && p % 16 == 0 && psize == base + size - MMAP_FOOT_PAD - p && psize >= MIN_CHUNK_SIZE
    requires psize % 16 == 0
    ensures var m' := MappedWritten(m, p, p - base, psize);
            && MapsOk(m', maps[p := Mapping(base, size)], segs, hdr, least') && HeapOk(m', v, segs, hdr, least')
            && Edited(m, m', {p, p + psize}, {p, p + psize + 16}) && p !in maps && p !in Lives(v.cs)
            && Kept(m, m', Lives(v.cs)) && Kept(m, m', MappedLives(maps))
            && (forall a :: a in {p, p + psize, p + psize + 16} ==> !LinkSlot(v.bs, hdr, a) && a !in v.bs)
  {
    hide Tile, Shape, AllMerged, LinkSlot;
    var m' := MappedWritten(m, p, p - base, psize);
    var hs, ls := {p, p + psize}, {p, p + psize + 16};
    MappedEdits(m, p, p - base, psize);
    forall a | a in hs || a in ls ensures !LinkSlot(v.bs, hdr, a) && a !in v.bs {
      NotASlot(v.cs, v.bs, segs, hdr, base, size, maps, a);
    }
    assert p + psize + 16 in ls;
    MapTags(m, m', v.cs, segs, hdr, base, size, maps, hs, ls);
    MapKept(m, m', v.cs, segs, hdr, base, size, maps, hs, ls);
    OthersKept(m, m', maps, segs, hdr, least, least', base, size, hs, ls);
    FarFromChunks(v.cs, segs, hdr, base, size, maps, p);
    NewMapping(m', maps, segs, hdr, least', base, size, p);
  }

  lemma MappedEdits(m: Mem, p: int, offset: int, psize: int)
    requires psize >= 16 && p % 16 == 0 && psize % 16 == 0
    ensures var m' := MappedWritten(m, p, offset, psize);
            Edited(m, m', {p, p + psize}, {p, p + psize + 16}) && Foot(m', p) == offset && Head(m', p) == psize
  {
    assert (p + psize + 16) % 16 == 0;
  }

  /** No chunk of the heap reaches into vacant space. */
  lemma FarFromChunks(cs: Chunks, segs: seq<Segment>, hdr: int, base: int, size: int, maps: map<int, Mapping>, a: int)
    requires Tile(cs, segs, hdr) && Vacant(base, size, segs, hdr, maps) && base <= a < base + size
    ensures a !in cs && forall q {:trigger q in cs} :: q in cs ==> q + cs[q].size <= base || base + size <= q
  {
    forall q | q in cs ensures q + cs[q].size <= base || base + size <= q {
      assert ChunkOk(cs, segs, q);
      var t := segs[cs[q].seg];
      assert End(t) <= base || base + size <= t.base;
    }
    forall q | q in cs ensures q != a { Placed(cs, segs, hdr, q); }
  }

  lemma NotASlot(
    cs: Chunks, bs: map<int, nat>, segs: seq<Segment>, hdr: int, base: int, size: int, maps: map<int, Mapping>,
    a: int
  )
    requires Tile(cs, segs, hdr) && Shape(cs, segs) && Binnable(cs, bs) && hdr > 0
    requires Vacant(base, size, segs, hdr, maps) && base <= a < base + size
    ensures !LinkSlot(bs, hdr, a) && a !in bs
  {
    FarFromChunks(cs, segs, hdr, base, size, maps, a);
    SpacedIn(cs, segs, hdr, bs);
    forall x | x in bs ensures !(x <= a < x + bs[x]) { assert x in cs; }
  }

  ghost predicate EditsIn(hs: set<int>, ls: set<int>, base: int, size: int) {
    forall a {:trigger a in hs} {:trigger a in ls} :: a in hs || a in ls ==> base <= a < base + size
  }

  lemma MapTags(
    m: Mem, m': Mem, cs: Chunks, segs: seq<Segment>, hdr: int, base: int, size: int, maps: map<int, Mapping>,
    hs: set<int>, ls: set<int>
  )
    requires Tile(cs, segs, hdr) && Shape(cs, segs) && Vacant(base, size, segs, hdr, maps) && Edited(m, m', hs, ls)
    requires EditsIn(hs, ls, base, size) && Tagged(m, cs)
    ensures Tagged(m', cs)
  {
    hide Tile, Shape, Vacant;
    forall q | q in cs ensures TagOk(m', cs, q) {
      assert TagOk(m, cs, q);
      FarFromChunks(cs, segs, hdr, base, size, maps, base) by { VacantSize(base, size, segs, hdr, maps); }
      Placed(cs, segs, hdr, q);
      if cs[q].kind.Free? {
        At(cs, segs, hdr, q);
        Placed(cs, segs, hdr, NextOf(cs, q));
      }
      SameTagOk(m, m', cs, cs, q, hs, ls);
    }
  }

  lemma VacantSize(base: int, size: int, segs: seq<Segment>, hdr: int, maps: map<int, Mapping>)
    requires Vacant(base, size, segs, hdr, maps)
    ensures 0 < size && 0 < base
  {
  }

  lemma MapKept(
    m: Mem, m': Mem, cs: Chunks, segs: seq<Segment>, hdr: int, base: int, size: int, maps: map<int, Mapping>,
    hs: set<int>, ls: set<int>
  )
    requires Tile(cs, segs, hdr) && Shape(cs, segs) && Vacant(base, size, segs, hdr, maps) && Edited(m, m', hs, ls)
    requires EditsIn(hs, ls, base, size)
    ensures Kept(m, m', Lives(cs))
  {
    hide Tile, Shape, Vacant, Edited;
    FarFromChunks(cs, segs, hdr, base, size, maps, base) by { VacantSize(base, size, segs, hdr, maps); }
    var live := Lives(cs);
    forall p, a | p in live && (a in hs || a in ls) ensures !(p < a <= p + live[p]) {
      At(cs, segs, hdr, p);
      Placed(cs, segs, hdr, NextOf(cs, p));
    }
    EditsKeepLives(m, m', hs, ls, live);
  }

  lemma OthersKept(
    m: Mem, m': Mem, maps: map<int, Mapping>, segs: seq<Segment>, hdr: int, least: int, least': int, base: int,
    size: int, hs: set<int>, ls: set<int>
  )
    requires MapsOk(m, maps, segs, hdr, least) && Vacant(base, size, segs, hdr, maps) && Edited(m, m', hs, ls)
    requires EditsIn(hs, ls, base, size) && least' <= least
    ensures MapsOk(m', maps, segs, hdr, least') && Kept(m, m', MappedLives(maps))
  {
    hide MappingOk, SameWords, Edited, EditsIn;
    forall p | p in maps
      ensures MappingOk(m', p, maps[p], segs, hdr, least') && SameWords(m, m', p + 16, p + MappedSize(p, maps[p]))
    {
      OtherKept(m, m', p, maps[p], segs, hdr, least, least', base, size, hs, ls);
    }
  }

  lemma OtherKept(
    m: Mem, m': Mem, p: int, a: Mapping, segs: seq<Segment>, hdr: int, least: int, least': int, base: int, size: int,
    hs: set<int>, ls: set<int>
  )
    requires MappingOk(m, p, a, segs, hdr, least) && (base + size <= a.base || MapEnd(a) <= base)
    requires Edited(m, m', hs, ls) && EditsIn(hs, ls, base, size) && least' <= least
    ensures MappingOk(m', p, a, segs, hdr, least') && SameWords(m, m', p + 16, p + MappedSize(p, a))
  {
    hide Lo, Hi;
  }

  lemma NewMapping(
    m: Mem, maps: map<int, Mapping>, segs: seq<Segment>, hdr: int, least: int, base: int, size: int, p: int
  )
    requires MapsOk(m, maps, segs, hdr, least) && Vacant(base, size, segs, hdr, maps)
    requires MappingOk(m, p, Mapping(base, size), segs, hdr, least)
    ensures MapsOk(m, maps[p := Mapping(base, size)], segs, hdr, least) && p !in maps
  {
    hide MappingOk;
    if p in maps { SameChunk(m, p, maps[p], Mapping(base, size), segs, hdr, least); }
  }

  lemma SameChunk(m: Mem, p: int, a: Mapping, b: Mapping, segs: seq<Segment>, hdr: int, least: int)
    requires MappingOk(m, p, a, segs, hdr, least) && MappingOk(m, p, b, segs, hdr, least)
    ensures !(MapEnd(a) <= b.base) && !(MapEnd(b) <= a.base)
  {
  }

  // ---- morecore -------------------------------------------------------------------------------------------

  /** The next page boundary at or after `base` (page_align). */
  function PageEnd(base: nat, page: nat): nat
    requires page > 0
  {
    if base % page == 0 then base else base - base % page + page
  }

  lemma PageEndFacts(base: nat, page: nat)
    requires Multiple(page, 4096) && page > 0
    ensures base <= PageEnd(base, page) < base + page && PageEnd(base, page) % 16 == 0
  {
    RoundedDown(base, page);
    var x := base - base % page;
    MultipleSum(x, page, page) by { MultipleOf(1, page); assert 1 * page == page; }
    hide Multiple;
    Page16Multiple(PageEnd(base, page), page) by { MultipleSelf(base, page, x); }
  }

  /** The first extension of the heap: it ends on a page boundary and covers the padded request. */
  lemma FirstExtension(nb: nat, base: nat, asize: nat, g: nat, page: nat)
    requires Multiple(page, 4096) && page > 0 && Multiple(asize, g) && Multiple(g, page)
    requires asize >= nb + SYS_ALLOC_PADDING && asize > 0 && g >= 4096
    ensures var ssize := asize + (PageEnd(base, page) - base);
      ssize >= nb + SYS_ALLOC_PADDING && ssize >= 128 && (base + ssize) % 16 == 0
  {
    hide Multiple, PageEnd;
    PageEndFacts(base, page);
    Aligned16(asize, g, page);
    MultipleAtLeast(asize, g);
    assert (PageEnd(base, page) + asize) % 16 == 0;
  }

  /** A contiguous extension: whole units that cover what top lacks. */
  lemma NextExtension(nb: nat, topsize: nat, g: nat, page: nat, end: int)
    requires topsize <= nb && nb + SYS_ALLOC_PADDING + g - 1 < W64 && g >= 4096 && Multiple(g, page)
    requires Multiple(page, 4096) && end % 16 == 0
    ensures var ssize := RoundUp(nb - topsize + SYS_ALLOC_PADDING, g);
            ssize >= nb - topsize + SYS_ALLOC_PADDING && ssize >= 128 && ssize % 16 == 0 && (end + ssize) % 16 == 0
  {
    hide Multiple, RoundUp;
    RoundUpCovers(nb - topsize + SYS_ALLOC_PADDING, g);
    Aligned16(RoundUp(nb - topsize + SYS_ALLOC_PADDING, g), g, page);
    MultipleAtLeast(RoundUp(nb - topsize + SYS_ALLOC_PADDING, g), g);
  }

  lemma MultipleSelf(base: nat, page: nat, x: nat)
    requires page > 0 && x == base - base % page && Multiple(x, page) && Multiple(x + page, page)
    ensures Multiple(PageEnd(base, page), page)
  {
  }

  lemma SegEnd(m: Mem, v: View, segs: seq<Segment>, hdr: int, least: int)
    requires HeapOk(m, v, segs, hdr, least) && segs != []
    ensures End(segs[|segs| - 1]) % 16 == 0 && 0 < End(segs[|segs| - 1])
  {
    TileSegs(v.cs, segs, hdr);
  }

  lemma AppendClear(m: Mem, maps: map<int, Mapping>, segs: seq<Segment>, hdr: int, least: int, size: int)
    requires MapsOk(m, maps, segs, hdr, least) && segs != [] && Vacant(End(segs[|segs| - 1]), size, segs, hdr, maps)
    requires segs[|segs| - 1].size > 0
    ensures SegsClear(maps, Shorter(segs, -size))
  {
    MapsClear(m, maps, segs, hdr, least);
    MapsNonEmpty(m, maps, segs, hdr, least);
    var s := segs[|segs| - 1];
    ClearJoin(s.base, End(s), End(s) + size, maps);
  }

  lemma PrependClear(m: Mem, maps: map<int, Mapping>, segs: seq<Segment>, hdr: int, least: int, i: nat, base: int)
    requires MapsOk(m, maps, segs, hdr, least) && i < |segs| && base < segs[i].base
    requires Vacant(base, segs[i].base - base, segs, hdr, maps) && segs[i].size > 0
    ensures SegsClear(maps, segs[i := Extended(segs[i], base)])
  {
    MapsClear(m, maps, segs, hdr, least);
    MapsNonEmpty(m, maps, segs, hdr, least);
    ClearJoin(base, segs[i].base, End(segs[i]), maps);
  }

  lemma AddClear(
    m: Mem, maps: map<int, Mapping>, segs: seq<Segment>, segs': seq<Segment>, hdr: int, least: int, base: int,
    size: int
  )
    requires MapsOk(m, maps, segs, hdr, least) && Vacant(base, size, segs, hdr, maps) && |segs'| == |segs| + 1
    requires segs'[|segs|].base == base && segs'[|segs|].size == size
    requires forall i :: 0 <= i < |segs| ==> segs'[i].base == segs[i].base && segs'[i].size == segs[i].size
    ensures SegsClear(maps, segs')
  {
    MapsClear(m, maps, segs, hdr, least);
    forall i | 0 <= i < |segs'| ensures ClearOfMaps(segs'[i].base, End(segs'[i]), maps) {
      if i < |segs| { assert ClearOfMaps(segs[i].base, End(segs[i]), maps); }
    }
  }

  lemma WholeGrown(segs: seq<Segment>, size: int, g: nat)
    requires Whole(segs, g) && segs != [] && (segs[|segs| - 1].mmapped ==> Multiple(size, g))
    ensures Whole(Shorter(segs, -size), g)
  {
    hide Multiple;
    var segs' := Shorter(segs, -size);
    forall i | 0 <= i < |segs'| && segs'[i].mmapped ensures Multiple(segs'[i].size, g) {
      assert Multiple(segs[i].size, g);
      if i == |segs| - 1 { MultipleSum(segs[i].size, size, g); }
    }
  }

  lemma WholeExtended(segs: seq<Segment>, k: nat, base: int, g: nat)
    requires Whole(segs, g) && k < |segs| && (segs[k].mmapped ==> Multiple(segs[k].base - base, g))
    ensures Whole(segs[k := Extended(segs[k], base)], g)
  {
    hide Multiple;
    var segs' := segs[k := Extended(segs[k], base)];
    forall i | 0 <= i < |segs'| && segs'[i].mmapped ensures Multiple(segs'[i].size, g) {
      assert Multiple(segs[i].size, g);
      if i == k { MultipleSum(segs[i].size, segs[k].base - base, g); }
    }
  }

  lemma WholeAdded(segs: seq<Segment>, segs': seq<Segment>, g: nat)
    requires Whole(segs, g) && |segs'| == |segs| + 1 && (segs'[|segs|].mmapped ==> Multiple(segs'[|segs|].size, g))
    requires forall i :: 0 <= i < |segs| ==> segs'[i].size == segs[i].size && segs'[i].mmapped == segs[i].mmapped
    ensures Whole(segs', g)
  {
  }
}
