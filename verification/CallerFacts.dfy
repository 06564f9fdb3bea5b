/** What a caller sees of the heap: live chunks, request sizes, and freeing. */
module CallerFacts {
  import opened Words
  import opened BinIndex
  import opened Memory
  import opened Layout
  import opened Tags
  import opened HeapBase
  import opened HeapSteps
  import opened Mappings
  import opened HeapFacts
  import opened SegmentFacts
  import opened ReleaseFacts

  // ---- what a caller sees ---------------------------------------------------------------------------------

  /** Exactly chunk `p` joins the live chunks; it is aligned and has room for `nb` bytes. */
  ghost predicate NewLive(live: map<int, int>, live': map<int, int>, p: int, nb: int) {
    p % 16 == 0 && 0 < p && p !in live && p in live' && nb <= live'[p] && live' == live[p := live'[p]]
  }

  lemma KeptBoth(m: Mem, m': Mem, a: map<int, int>, b: map<int, int>)
    requires Kept(m, m', a) && Kept(m, m', b)
    ensures Kept(m, m', a + b)
  {
    forall p | p in a + b ensures SameWords(m, m', p + 16, p + (a + b)[p]) {
      if p in b { assert SameWords(m, m', p + 16, p + b[p]); } else { assert SameWords(m, m', p + 16, p + a[p]); }
    }
  }

  lemma MappedAdded(live: map<int, int>, maps: map<int, Mapping>, maps': map<int, Mapping>, p: int, nb: int)
    requires p !in maps && p !in live && p in maps' && maps' == maps[p := maps'[p]] && nb <= MappedSize(p, maps'[p])
    requires p % 16 == 0 && 0 < p
    ensures NewLive(live + MappedLives(maps), live + MappedLives(maps'), p, nb)
  {
    var a, b := live + MappedLives(maps), live + MappedLives(maps');
    assert b == a[p := MappedSize(p, maps'[p])];
  }

  /** A chunk of a segment is not a mapped chunk. */
  lemma ChunkNotMapped(m: Mem, v: View, segs: seq<Segment>, hdr: int, least: int, maps: map<int, Mapping>, p: int)
    requires HeapOk(m, v, segs, hdr, least) && MapsOk(m, maps, segs, hdr, least) && p in v.cs
    ensures p !in maps
  {
    At(v.cs, segs, hdr, p);
    if p in maps {
      assert MappingOk(m, p, maps[p], segs, hdr, least);
      Clash(maps[p], segs, hdr, p, v.cs[p].seg);
    }
  }

  lemma Clash(a: Mapping, segs: seq<Segment>, hdr: int, p: int, i: nat)
    requires i < |segs| && ClearOfHeap(a.base, MapEnd(a), segs, hdr) && a.base <= p < MapEnd(a)
    ensures !(segs[i].base <= p < End(segs[i]))
  {
  }

  lemma Allocated(
    m: Mem, v: View, segs: seq<Segment>, hdr: int, least: int, live: map<int, int>, maps: map<int, Mapping>, p: int,
    s: int, nb: int
  )
    requires HeapOk(m, v, segs, hdr, least) && MapsOk(m, maps, segs, hdr, least) && p !in live
    requires Lives(v.cs) == live[p := s] && nb <= s && p % 16 == 0 && p != 0
    ensures NewLive(live + MappedLives(maps), Lives(v.cs) + MappedLives(maps), p, nb) && p !in maps
    ensures (Lives(v.cs) + MappedLives(maps))[p] == s
  {
    assert p in Lives(v.cs);
    ChunkNotMapped(m, v, segs, hdr, least, maps, p);
    At(v.cs, segs, hdr, p);
    var a, b := live + MappedLives(maps), Lives(v.cs) + MappedLives(maps);
    assert b == a[p := s];
  }

  lemma ServedIs(live: map<int, int>, cs: Chunks, p: int, nb: int)
    requires p in cs && cs[p].size == nb && cs[p].kind.Live? && Lives(cs) == live[p := cs[p].size]
    ensures Lives(cs) == live[p := nb]
  {
  }

  lemma KeepMaps(m: Mem, m': Mem, maps: map<int, Mapping>, segs: seq<Segment>, hdr: int, least: int)
    requires MapsOk(m, maps, segs, hdr, least) && OuterKept(m, m', segs, hdr)
    ensures MapsOk(m', maps, segs, hdr, least) && Kept(m, m', MappedLives(maps))
  {
    MapsClear(m, maps, segs, hdr, least);
    MapsFrame(m, m', maps, segs, segs, hdr, least, least);
  }

  /** Only the current segment holds top. */
  lemma HoldsTop(m: Mem, v: View, segs: seq<Segment>, hdr: int, least: int, j: nat)
    requires HeapOk(m, v, segs, hdr, least) && j < |segs|
    ensures segs[j].base <= v.top < End(segs[j]) <==> j == |segs| - 1
    ensures End(segs[j]) == End(segs[|segs| - 1]) <==> j == |segs| - 1
  {
    TopSegment(m, v, segs, hdr, least);
    assert SegsOk(segs, hdr);
    if j != |segs| - 1 { SegsApart(segs, hdr, j, |segs| - 1); }
  }

  lemma SegsApart(segs: seq<Segment>, hdr: int, i: nat, j: nat)
    requires SegsOk(segs, hdr) && i < |segs| && j < |segs| && i != j
    ensures End(segs[i]) <= segs[j].base || End(segs[j]) <= segs[i].base
  {
  }

  // ---- requests -------------------------------------------------------------------------------------------

  const MIN_REQUEST := 23
  const MAX_SMALL_REQUEST := 232

  /** pad_request: room for the head word, rounded up to a multiple of 16. */
  function PadRequest(bytes: nat): nat { bytes + 23 - (bytes + 23) % 16 }

  /** request2size */
  function Request2Size(bytes: nat): nat { if bytes < MIN_REQUEST then MIN_CHUNK_SIZE else PadRequest(bytes) }

  lemma RequestFits(bytes: nat)
    ensures var nb := Request2Size(bytes);
            && nb % 16 == 0 && nb >= MIN_CHUNK_SIZE && nb >= bytes + 8 && nb < bytes + 40
            && (bytes <= MAX_SMALL_REQUEST ==> nb < MIN_LARGE_SIZE)
            && (bytes > MAX_SMALL_REQUEST ==> nb >= MIN_LARGE_SIZE) && (bytes < MAX_REQUEST ==> nb < W64)
  {
    var x := bytes + 23;
    assert x == 16 * (x / 16) + x % 16;
    assert x - x % 16 == 16 * (x / 16);
    Sixteen(x / 16);
  }

  lemma Sixteen(k: int)
    ensures 16 * k % 16 == 0
  {
  }

  lemma VictimBound(m: Mem, v: View, segs: seq<Segment>, hdr: int, least: int)
    requires HeapOk(m, v, segs, hdr, least)
    ensures 0 <= v.dvsize < W64 - 1 && (v.topsize < W64 - 1) && (v.dvsize == 0 <==> v.dv == 0)
  {
    TopThere(m, v, segs, hdr, least);
    if v.dv != 0 {
      NoZero(v.cs, segs, hdr);
      At(v.cs, segs, hdr, v.dv);
    }
  }

  lemma ServedLive(
    m: Mem, v: View, segs: seq<Segment>, hdr: int, least: int, cs: Chunks, maps: map<int, Mapping>, p: int, nb: int
  )
    requires HeapOk(m, v, segs, hdr, least) && MapsOk(m, maps, segs, hdr, least) && Served(cs, v.cs, p, nb) && p != 0
    ensures NewLive(Lives(cs) + MappedLives(maps), Lives(v.cs) + MappedLives(maps), p, nb) && p !in maps
    ensures (Lives(v.cs) + MappedLives(maps))[p] < nb + MIN_CHUNK_SIZE
  {
    Allocated(m, v, segs, hdr, least, Lives(cs), maps, p, v.cs[p].size, nb);
  }

  // ---- free -----------------------------------------------------------------------------------------------

  /**
   * What the tags of a live chunk look like: a chunk of a segment has its in-use bit set, a mapped one has no bit set.
   */
  lemma LiveFacts(m: Mem, v: View, segs: seq<Segment>, hdr: int, least: int, maps: map<int, Mapping>, p: int)
    requires HeapOk(m, v, segs, hdr, least) && MapsOk(m, maps, segs, hdr, least) && p in Lives(v.cs) + MappedLives(maps)
    ensures least <= p && 0 < p && (Cinuse(m, p) <==> p in Lives(v.cs))
    ensures (p in maps ==> !Pinuse(m, p) && p !in Lives(v.cs))
    ensures p in Lives(v.cs) ==> segs != [] && p in v.cs && v.cs[p].kind.Live? && ChunkSize(m, p) == v.cs[p].size
    ensures p in Lives(v.cs) ==> v.cs[p].size > 0 && p !in maps
                                 && Pinuse(m, p + v.cs[p].size) && p !in MappedLives(maps)
  {
    if p in Lives(v.cs) {
      NeighbourTags(m, v.cs, segs, hdr, p);
      At(v.cs, segs, hdr, p);
      ChunkNotMapped(m, v, segs, hdr, least, maps, p);
    } else {
      assert MappingOk(m, p, maps[p], segs, hdr, least);
      HeadParts(MappedSize(p, maps[p]), 0, 0);
      if p in v.cs { ChunkNotMapped(m, v, segs, hdr, least, maps, p); }
    }
  }

  lemma SegmentsStay(m: Mem, v: View, segs: seq<Segment>, hdr: int, least: int, p: int, m': Mem)
    requires HeapOk(m', v, segs, hdr, least)
    ensures v.top != 0 <==> segs != []
  {
    TopThere(m', v, segs, hdr, least);
  }

  lemma FewerShrunk(segs: seq<Segment>, segs': seq<Segment>)
    requires Fewer(segs, segs')
    ensures Shrunk(segs, segs')
  {
    forall i | 0 <= i < |segs| ensures StartsIn(segs[i], segs') {
      var j :| 0 <= j < |segs'| && segs'[j] == segs[i];
      assert Starts(segs[i], segs'[j]);
    }
  }

  lemma KeepMapsShrunk(
    m: Mem, m': Mem, maps: map<int, Mapping>, segs: seq<Segment>, segs': seq<Segment>, hdr: int, least: int
  )
    requires MapsOk(m, maps, segs, hdr, least) && OuterKept(m, m', segs, hdr) && Shrunk(segs', segs)
    ensures MapsOk(m', maps, segs', hdr, least) && Kept(m, m', MappedLives(maps))
  {
    KeepMaps(m, m', maps, segs, hdr, least);
    hide MapsOk;
    MapsSmaller(m', maps, segs, segs', hdr, least);
  }

  lemma MapsSmaller(m: Mem, maps: map<int, Mapping>, segs: seq<Segment>, segs': seq<Segment>, hdr: int, least: int)
    requires MapsOk(m, maps, segs, hdr, least) && Shrunk(segs', segs)
    ensures MapsOk(m, maps, segs', hdr, least)
  {
    forall p | p in maps ensures MappingOk(m, p, maps[p], segs', hdr, least) {
      assert MappingOk(m, p, maps[p], segs, hdr, least);
      forall i | 0 <= i < |segs'| ensures End(segs'[i]) <= maps[p].base || MapEnd(maps[p]) <= segs'[i].base {
        var j :| 0 <= j < |segs| && Starts(segs'[i], segs[j]);
      }
    }
  }

  lemma SplitLive(a: map<int, int>, b: map<int, int>, p: int)
    requires p !in b
    ensures (a - {p}) + b == (a + b) - {p}
  {
  }

  lemma MapRemoved(
    m: Mem, maps: map<int, Mapping>, segs: seq<Segment>, hdr: int, least: int, live: map<int, int>, p: int
  )
    requires MapsOk(m, maps, segs, hdr, least) && p !in live
    ensures MapsOk(m, maps - {p}, segs, hdr, least)
    ensures live + MappedLives(maps - {p}) == (live + MappedLives(maps)) - {p}
  {
    hide MappingOk;
    var maps' := maps - {p};
    assert forall q {:trigger maps'[q]} :: q in maps' ==> q in maps && maps'[q] == maps[q];
    LivesRemoved(maps, live, p);
  }

  lemma LivesRemoved(maps: map<int, Mapping>, live: map<int, int>, p: int)
    requires p !in live
    ensures live + MappedLives(maps - {p}) == (live + MappedLives(maps)) - {p}
  {
    assert MappedLives(maps - {p}) == MappedLives(maps) - {p};
  }
}
