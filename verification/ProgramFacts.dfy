/** What bulk free and writes by the program rely on. */
module ProgramFacts {
  import opened Memory
  import opened BinStore
  import opened Layout
  import opened Tags
  import opened HeapBase
  import opened HeapSteps
  import opened SegmentSteps
  import opened Mappings
  import opened Growth
  import opened Canonical
  import opened BulkFacts
  import opened SystemFacts
  import opened CallerFacts
  import opened ResizeFacts

  // ---- bulk free ------------------------------------------------------------------------------------------

  lemma HeapParts(m: Mem, v: View, segs: seq<Segment>, hdr: int, least: int)
    requires HeapOk(m, v, segs, hdr, least)
    ensures LayoutOk(v.cs, segs, hdr) && Tile(v.cs, segs, hdr) && Shape(v.cs, segs) && 0 !in v.cs
  {
    NoZero(v.cs, segs, hdr);
  }

  lemma ViewFacts(m: Mem, v: View, segs: seq<Segment>, hdr: int, least: int, maps: map<int, Mapping>)
    requires HeapOk(m, v, segs, hdr, least) && MapsOk(m, maps, segs, hdr, least)
    ensures 0 !in v.cs && forall x :: x in v.cs ==> x !in maps
  {
    NoZero(v.cs, segs, hdr);
    forall x | x in v.cs ensures x !in maps { ChunkNotMapped(m, v, segs, hdr, least, maps, x); }
  }

  lemma EitherLive(live: map<int, int>, maps: map<int, Mapping>, p: int)
    requires p in live || p in maps
    ensures p in live + MappedLives(maps)
  {
  }

  lemma JoinFacts(m: Mem, v: View, segs: seq<Segment>, hdr: int, least: int, p: int)
    requires HeapOk(m, v, segs, hdr, least) && p in Lives(v.cs) && p + Lives(v.cs)[p] in Lives(v.cs)
    ensures p in v.cs && Lives(v.cs)[p] == v.cs[p].size
    ensures var n := p + v.cs[p].size;
      n == NextOf(v.cs, p) && n in v.cs && v.cs[n].kind.Live? && Growable(v.cs, p, v.cs[p].size + v.cs[n].size, Live)
  {
    NextTag(v.cs, segs, hdr, p);
    At(v.cs, segs, hdr, p);
    NextTag(v.cs, segs, hdr, NextOf(v.cs, p));
  }

  lemma JoinsLive(m: Mem, v: View, v': View, segs: seq<Segment>, hdr: int, least: int, p: int)
    requires HeapOk(m, v, segs, hdr, least) && p in v.cs && NextOf(v.cs, p) in v.cs && v.cs[NextOf(v.cs, p)].kind.Live?
    requires var s := v.cs[p].size + v.cs[NextOf(v.cs, p)].size;
      Growable(v.cs, p, s, Live) && v' == v.(cs := Grow(v.cs, p, s, Live))
    ensures var s := v.cs[p].size + v.cs[NextOf(v.cs, p)].size;
      Grows(v, v', p, s, Live) && GrowWritten(m, SetInuse(m, p, s), v.cs, p, s, Live)
  {
    GrowWholeWritten(m, v.cs, segs, hdr, p, Live);
  }

  /** A pointer to the space right after a live chunk belongs to a chunk of the same segment. */
  lemma NextIsLive(m: Mem, v: View, segs: seq<Segment>, hdr: int, least: int, maps: map<int, Mapping>, p: int)
    requires HeapOk(m, v, segs, hdr, least) && MapsOk(m, maps, segs, hdr, least) && p in Lives(v.cs) + MappedLives(maps)
    requires var n := p + ChunkSize(m, p); n in Lives(v.cs) || n in maps
    ensures p in Lives(v.cs) && p + ChunkSize(m, p) in Lives(v.cs) && p + Lives(v.cs)[p] == p + ChunkSize(m, p)
  {
    var n := p + ChunkSize(m, p);
    LiveSizes(m, v, segs, hdr, least, maps, p);
    if p in Lives(v.cs) {
      NextTag(v.cs, segs, hdr, p);
      ChunkNotMapped(m, v, segs, hdr, least, maps, n);
    } else {
      assert MappingOk(m, p, maps[p], segs, hdr, least);
      InsideMapping(m, v, segs, hdr, least, maps, p, n);
    }
  }

  lemma InsideMapping(
    m: Mem, v: View, segs: seq<Segment>, hdr: int, least: int, maps: map<int, Mapping>, p: int, n: int
  )
    requires HeapOk(m, v, segs, hdr, least) && MapsOk(m, maps, segs, hdr, least) && p in maps && p < n
    requires maps[p].base <= n < MapEnd(maps[p])
    ensures n !in v.cs && n !in maps
  {
    MapsRange(m, maps, segs, hdr, least, p);
    assert MappingOk(m, p, maps[p], segs, hdr, least);
    FarFromChunks(v.cs, segs, hdr, maps[p].base, maps[p].size, maps - {p}, n);
    if n in maps { OtherMapping(m, maps, segs, hdr, least, p, n); }
  }

  lemma OtherMapping(m: Mem, maps: map<int, Mapping>, segs: seq<Segment>, hdr: int, least: int, p: int, n: int)
    requires MapsOk(m, maps, segs, hdr, least) && p in maps && n in maps && p != n
    ensures !(maps[p].base <= n < MapEnd(maps[p]))
  {
    assert MappingOk(m, n, maps[n], segs, hdr, least);
  }

  lemma BulkDone(
    m: Mem, m': Mem, cs0: Chunks, maps0: map<int, Mapping>, a0: seq<int>, v: View, maps: map<int, Mapping>,
    a: seq<int>, segs: seq<Segment>, hdr: int, least: int
  )
    requires BulkInv(cs0, maps0, a0, v.cs, maps, a, |a0|, 0) && NoTwice(a0)
    requires AllPointers(a0, Lives(cs0) + MappedLives(maps0)) && 0 !in cs0
    requires HeapOk(m', v, segs, hdr, least) && LayoutOk(cs0, segs, hdr) && forall x :: x in cs0 ==> x !in maps0
    ensures SameChunks(v.cs, FreeAll(cs0, SegPtrs(a0, cs0, |a0|)))
    ensures Lives(v.cs) + MappedLives(maps) == (Lives(cs0) + MappedLives(maps0)) - PtrSet(a0, |a0|)
    ensures maps == maps0 - PtrSet(a0, |a0|)
    ensures |a| == |a0| && forall k {:trigger a[k]} :: 0 <= k < |a| ==> a[k] == 0
  {
    BulkEnd(cs0, maps0, a0, v.cs, maps, a, segs, hdr);
  }

  lemma PositiveSize(m: Mem, v: View, segs: seq<Segment>, hdr: int, least: int, maps: map<int, Mapping>, p: int)
    requires HeapOk(m, v, segs, hdr, least) && MapsOk(m, maps, segs, hdr, least) && p in Lives(v.cs) + MappedLives(maps)
    ensures ChunkSize(m, p) > 0
  {
    LiveSizes(m, v, segs, hdr, least, maps, p);
    if p in Lives(v.cs) { At(v.cs, segs, hdr, p); } else { assert MappingOk(m, p, maps[p], segs, hdr, least); }
  }

  // ---- the program writes to its memory -------------------------------------------------------------------

  /** Word `w` belongs to the payload of chunk `p` of size `s`: up to and including the first word of the next chunk. */
  predicate PayloadWord(p: int, s: int, w: int) { w % 8 == 0 && p + 16 <= w <= p + s }

  /** The paragraph a word lies in. */
  function Para(w: int): int { if w % 16 == 0 then w else w - 8 }

  lemma WordEdit(m: Mem, w: int, x: int)
    ensures Edited(m, SetWord(m, w, x), if w % 16 == 0 then {} else {Para(w)}, if w % 16 == 0 then {Para(w)} else {})
    ensures w % 8 == 0 ==> GetWord(SetWord(m, w, x), w) == x
    ensures w % 8 == 0 ==> (forall u :: u % 8 == 0 && u != w ==> GetWord(SetWord(m, w, x), u) == GetWord(m, u))
  {
  }

  lemma ParaIn(p: int, s: int, w: int)
    requires PayloadWord(p, s, w) && p % 16 == 0 && s % 16 == 0 && s > 0
    ensures p + 16 <= Para(w) <= p + s && Para(w) % 16 == 0 && (w % 16 != 0 ==> Para(w) < p + s)
  {
  }

  /** A write to the payload of a chunk of a segment misses all tags and links. */
  lemma StoreInSegment(
    m: Mem, v: View, segs: seq<Segment>, hdr: int, least: int, maps: map<int, Mapping>, p: int, w: int, x: int
  )
    requires HeapOk(m, v, segs, hdr, least) && MapsOk(m, maps, segs, hdr, least) && p in Lives(v.cs)
    requires PayloadWord(p, Lives(v.cs)[p], w)
    ensures var m' := SetWord(m, w, x);
            && HeapOk(m', v, segs, hdr, least) && OuterKept(m, m', segs, hdr) && !LinkSlot(v.bs, hdr, Para(w))
            && (w % 16 != 0 ==> Para(w) !in v.bs) && Kept(m, m', Lives(v.cs) - {p})
  {
    var m', a, n := SetWord(m, w, x), Para(w), NextOf(v.cs, p);
    var hs: set<int>, ls: set<int> := if w % 16 == 0 then {} else {a}, if w % 16 == 0 then {a} else {};
    NextTag(v.cs, segs, hdr, p);
    At(v.cs, segs, hdr, p);
    ParaIn(p, v.cs[p].size, w);
    WordEdit(m, w, x);
    NoneInside(v.cs, segs, hdr, p);
    hide AllMerged, FreesBinned, VictimOk, TopOk, Above, SetWord, LinkSlot, OuterKept, Kept;
    BinnableAt(v.cs, v.bs, p);
    if a < n {
      SlotsMiss(v.cs, segs, hdr, v.bs, p, a);
      InSegment(v.cs, segs, hdr, p, a);
    } else {
      SlotsMiss(v.cs, segs, hdr, v.bs, n, a);
      InSegment(v.cs, segs, hdr, n, a);
    }
    EditsKeepOuter(m, m', hs, ls, segs, hdr);
    StoreTags(m, m', v.cs, segs, hdr, p, hs, ls);
    StoreClear(v.cs, segs, hdr, p, hs, ls);
    EditsKeepLives(m, m', hs, ls, Lives(v.cs) - {p});
  }

  lemma StoreTags(m: Mem, m': Mem, cs: Chunks, segs: seq<Segment>, hdr: int, p: int, hs: set<int>, ls: set<int>)
    requires Tile(cs, segs, hdr) && Shape(cs, segs) && Tagged(m, cs) && p in cs && cs[p].kind.Live?
    requires Edited(m, m', hs, ls)
    requires forall a :: (a in hs ==> p < a < p + cs[p].size) && (a in ls ==> p < a <= p + cs[p].size)
    ensures Tagged(m', cs)
  {
    NoneInside(cs, segs, hdr, p);
    forall q | q in cs ensures TagOk(m', cs, q) {
      assert TagOk(m, cs, q);
      if cs[q].kind.Free? {
        NextTag(cs, segs, hdr, q);
        NextTag(cs, segs, hdr, p);
      }
      SameTagOk(m, m', cs, cs, q, hs, ls);
    }
  }

  lemma StoreClear(cs: Chunks, segs: seq<Segment>, hdr: int, p: int, hs: set<int>, ls: set<int>)
    requires Tile(cs, segs, hdr) && Shape(cs, segs) && p in cs && cs[p].kind.Live?
    requires forall a :: (a in hs ==> p < a < p + cs[p].size) && (a in ls ==> p < a <= p + cs[p].size)
    ensures Clear(Lives(cs) - {p}, hs, ls)
  {
    var live := Lives(cs) - {p};
    NextTag(cs, segs, hdr, p);
    forall x, a | x in live && (a in hs || a in ls) ensures !(x < a <= x + live[x]) {
      Disjoint(cs, segs, hdr, x, p);
      NextTag(cs, segs, hdr, x);
    }
  }

  /** A write to the payload of a mapped chunk stays inside its mapping. */
  lemma StoreInMapping(
    m: Mem, v: View, segs: seq<Segment>, hdr: int, least: int, maps: map<int, Mapping>, p: int, w: int, x: int
  )
    requires HeapOk(m, v, segs, hdr, least) && MapsOk(m, maps, segs, hdr, least) && p in maps
    requires PayloadWord(p, MappedSize(p, maps[p]), w)
    ensures var m' := SetWord(m, w, x);
            && HeapOk(m', v, segs, hdr, least) && MapsOk(m', maps, segs, hdr, least) && !LinkSlot(v.bs, hdr, Para(w))
            && Para(w) !in v.bs
            && Kept(m, m', Lives(v.cs)) && Kept(m, m', MappedLives(maps - {p}))
  {
    var m', q, a := SetWord(m, w, x), Para(w), maps[p];
    var hs: set<int>, ls: set<int> := if w % 16 == 0 then {} else {q}, if w % 16 == 0 then {q} else {};
    assert MappingOk(m, p, a, segs, hdr, least);
    ParaIn(p, MappedSize(p, a), w);
    WordEdit(m, w, x);
    assert MappingOk(m', p, a, segs, hdr, least);
    MapsRange(m, maps, segs, hdr, least, p);
    hide Tile, Shape, AllMerged, FreesBinned, VictimOk, TopOk, Above, SetWord, LinkSlot, Kept, MappingOk, Vacant,
         MapsOk, Lives, MappedLives, Tagged, Edited;
    var others := maps - {p};
    NotASlot(v.cs, v.bs, segs, hdr, a.base, a.size, others, q);
    MapTags(m, m', v.cs, segs, hdr, a.base, a.size, others, hs, ls);
    MapKept(m, m', v.cs, segs, hdr, a.base, a.size, others, hs, ls);
    RemoveMapping(m, maps, segs, hdr, least, p);
    OthersKept(m, m', others, segs, hdr, least, least, a.base, a.size, hs, ls);
    NewMapping(m', others, segs, hdr, least, a.base, a.size, p);
    assert others[p := Mapping(a.base, a.size)] == maps;
  }

  lemma RemoveMapping(m: Mem, maps: map<int, Mapping>, segs: seq<Segment>, hdr: int, least: int, p: int)
    requires MapsOk(m, maps, segs, hdr, least)
    ensures MapsOk(m, maps - {p}, segs, hdr, least)
  {
    MapRemoved(m, maps, segs, hdr, least, map[], p);
  }

  lemma OtherLives(live: map<int, int>, maps: map<int, Mapping>, p: int)
    requires p !in live && p in maps
    ensures live + MappedLives(maps - {p}) == (live + MappedLives(maps)) - {p}
  {
    LivesRemoved(maps, live, p);
  }
}
