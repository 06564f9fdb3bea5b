/** What the allocator's code relies on at each point, and what each way of finishing an operation amounts to. */
module HeapFacts {
  import opened Words
  import opened BinIndex
  import opened BitMaps
  import opened Memory
  import opened SmallBins
  import opened BinStore
  import opened Layout
  import opened Tags
  import opened HeapBase
  import opened HeapSteps

  const MAX_RELEASE_CHECK_RATE := 4095
  const SYS_ALLOC_PADDING := 96
  const HALF_MAX_SIZE_T := W64 / 2 - 1
  const MAX_REQUEST := W64 - 128

  predicate Multiple(s: int, g: int) { g > 0 && s % g == 0 }

  /** The sizes of mapped segments are multiples of the granularity. */
  ghost predicate Whole(segs: seq<Segment>, g: int) {
    forall i {:trigger segs[i]} :: 0 <= i < |segs| && segs[i].mmapped ==> Multiple(segs[i].size, g)
  }

  /** Every segment came from the break. */
  ghost predicate BrkOnly(segs: seq<Segment>) {
    forall i {:trigger segs[i]} :: 0 <= i < |segs| ==> !segs[i].mmapped
  }

  /** Every segment of `segs` is one of `segs'`. */
  ghost predicate Fewer(segs: seq<Segment>, segs': seq<Segment>) {
    forall i {:trigger segs[i]} :: 0 <= i < |segs| ==> segs[i] in segs'
  }

  /** Segment `s` lies at the start of segment `s'`. */
  ghost predicate Starts(s: Segment, s': Segment) { s.base == s'.base && s.size <= s'.size && s.mmapped == s'.mmapped }

  /** Every segment of `segs` is one of `segs'`, possibly shortened. */
  ghost predicate Shrunk(segs: seq<Segment>, segs': seq<Segment>) {
    forall i {:trigger segs[i]} :: 0 <= i < |segs| ==> StartsIn(segs[i], segs')
  }

  ghost predicate StartsIn(s: Segment, segs: seq<Segment>) {
    exists j :: 0 <= j < |segs| && Starts(s, segs[j])
  }

  /** Chunk `p` is handed out for a request of `nb` bytes and nothing else changes hands. */
  ghost predicate Served(cs: Chunks, cs': Chunks, p: int, nb: int) {
    && p in cs' && cs'[p].kind.Live? && nb <= cs'[p].size < nb + MIN_CHUNK_SIZE && p % 16 == 0
    && p !in Lives(cs) && Lives(cs') == Lives(cs)[p := cs'[p].size]
  }

  /** The space [p, p + s) is part of a chunk that is free or top. */
  ghost predicate Unused(cs: Chunks, p: int, s: int) {
    p in cs && (cs[p].kind.Free? || cs[p].kind.Top?) && p + s <= NextOf(cs, p)
  }

  /** The ways dispose_chunk can end without binning the merged chunk. */
  lemma ForwardExit(m: Mem, v: View, v': View, segs: seq<Segment>, hdr: int, least: int, p: int)
    requires HeapOk(m, v, segs, hdr, least) && p in v.cs && v.cs[p].kind.Live? && v'.cs == Freed(v.cs, p)
    requires NextOf(v.cs, p) in v.cs
    requires var q, e, n := MergeStart(v.cs, p), MergeEnd(v.cs, p), NextOf(v.cs, p);
             || (n == v.top && v'.bs == v.bs - {q} && v'.top == q && v'.topsize == e - q
                 && (if q == v.dv then v'.dv == 0 && v'.dvsize == 0 else v'.dv == v.dv && v'.dvsize == v.dvsize))
             || (n == v.dv && v'.bs == v.bs - {q} && v'.dv == q && v'.dvsize == e - q && v'.top == v.top &&
                 v'.topsize == v.topsize)
             || (n != v.dv && n != v.top && !InUse(v.cs[n].kind) && q == v.dv && v'.bs == v.bs - {q} - {n} && v'.dv == q
                 && v'.dvsize == e - q && v'.top == v.top && v'.topsize == v.topsize)
    ensures Releases(v, v', p)
  {
    var q, e, k := DisposeFacts(m, v, segs, hdr, least, p);
  }

  /** The merged chunk goes into a bin. */
  lemma BinExit(m: Mem, v: View, v': View, segs: seq<Segment>, hdr: int, least: int, p: int)
    requires HeapOk(m, v, segs, hdr, least) && p in v.cs && v.cs[p].kind.Live? && v'.cs == Freed(v.cs, p)
    requires NextOf(v.cs, p) in v.cs
    requires var q, e, n := MergeStart(v.cs, p), MergeEnd(v.cs, p), NextOf(v.cs, p);
             && n != v.dv && n != v.top && q != v.dv && q in v'.bs && v'.bs[q] == e - q
             && v'.bs - {q} == (if InUse(v.cs[n].kind) then v.bs - {q} else v.bs - {q} - {n})
             && v'.dv == v.dv && v'.dvsize == v.dvsize && v'.top == v.top && v'.topsize == v.topsize
    ensures Releases(v, v', p)
  {
    var q, e, k := DisposeFacts(m, v, segs, hdr, least, p);
    var n := NextOf(v.cs, p);
    forall x | x != q ensures x in v'.bs <==> x in v.bs && x != n {
      assert x in v'.bs <==> x in v'.bs - {q};
    }
    forall x | x != q && x in v'.bs ensures v'.bs[x] == v.bs[x] {
      assert v'.bs[x] == (v'.bs - {q})[x];
    }
  }

  lemma AllKept(m: Mem, live: map<int, int>, segs: seq<Segment>, hdr: int)
    ensures Kept(m, m, live) && OuterKept(m, m, segs, hdr)
  {
  }

  lemma CarvesParts(v: View, v': View, p: int, nb: int)
    requires Carves(v, v', p, nb)
    ensures Carvable(v.cs, p, nb) && v'.cs == Carve(v.cs, p, nb)
  {
  }

  lemma BinnedFacts(m: Mem, v: View, segs: seq<Segment>, hdr: int, least: int, x: int)
    requires HeapOk(m, v, segs, hdr, least) && x in v.bs
    ensures x in v.cs && NextOf(v.cs, x) in v.cs && v.cs[x].kind.Free? && v.cs[x].size == v.bs[x] && least <= x
    ensures x != 0 && x != v.dv
    ensures v.bs[x] % 16 == 0 && x % 16 == 0 && v.bs[x] < W64 && v.dvsize < W64 && 0 <= v.dvsize
  {
    NextTag(v.cs, segs, hdr, x);
    At(v.cs, segs, hdr, x);
    if v.dv != 0 { At(v.cs, segs, hdr, v.dv); }
  }

  lemma ServedBy(m: Mem, v: View, segs: seq<Segment>, hdr: int, least: int, p: int, s: int, nb: int)
    requires HeapOk(m, v, segs, hdr, least) && Carvable(v.cs, p, s) && nb <= s < nb + MIN_CHUNK_SIZE
    requires Lives(Carve(v.cs, p, s)) == Lives(v.cs)[p := s]
    ensures Served(v.cs, Carve(v.cs, p, s), p, nb) && Unused(v.cs, p, s) && Carve(v.cs, p, s)[p].size == s
  {
    CarveSpan(v.cs, segs, hdr, p, s);
    Placed(v.cs, segs, hdr, p);
  }

  /** A whole binned chunk is taken. */
  lemma TakeBinned(m: Mem, m2: Mem, v: View, v': View, segs: seq<Segment>, hdr: int, least: int, p: int)
    requires HeapOk(m, v, segs, hdr, least) && p in v.bs && p in v.cs && NextOf(v.cs, p) in v.cs
    requires v.cs[p].size == v.bs[p] && v.bs[p] > 0 && v' == v.(cs := Carve(v.cs, p, v.bs[p]), bs := v.bs - {p})
    ensures Carves(v, v', p, v.bs[p]) && CarveWritten(m2, SetInuseAndPinuse(m2, p, v.bs[p]), v.cs, p, v.bs[p])
    ensures SubMap(v'.bs, v.bs) && p !in v'.bs && Carvable(v.cs, p, v.bs[p])
  {
    hide Tile, Shape, AllMerged, Tagged, TopOk, Above, SetFreeHead, SetInuseAndPinuse, Carve;
    NextTag(v.cs, segs, hdr, p);
    At(v.cs, segs, hdr, p);
    CarveSpan(v.cs, segs, hdr, p, v.bs[p]);
    SetInuseAndPinuseEdits(m2, p, v.bs[p]);
  }

  /** A binned chunk is split and its remainder binned. */
  lemma SplitBinned(m: Mem, m2: Mem, v: View, v': View, segs: seq<Segment>, hdr: int, least: int, p: int, nb: int)
    requires HeapOk(m, v, segs, hdr, least) && p in v.bs && p in v.cs && NextOf(v.cs, p) in v.cs
    requires MIN_CHUNK_SIZE <= nb && nb % 16 == 0 && nb + MIN_CHUNK_SIZE <= v.bs[p] == v.cs[p].size
    requires v' == v.(cs := Carve(v.cs, p, nb), bs := (v.bs - {p})[p + nb := v.bs[p] - nb])
    ensures Carves(v, v', p, nb)
    ensures CarveWritten(m2, SetFreeHead(SetInuseHead(m2, p, nb), p + nb, v.bs[p] - nb), v.cs, p, nb)
    ensures p + nb !in v.bs && Carvable(v.cs, p, nb)
  {
    hide Tile, Shape, AllMerged, Tagged, TopOk, Above, SetFreeHead, SetInuseAndPinuse, Carve;
    NextTag(v.cs, segs, hdr, p);
    CarveSpan(v.cs, segs, hdr, p, nb);
    SetFreeHeadEdits(SetInuseHead(m2, p, nb), p + nb, v.bs[p] - nb);
  }

  /** A binned chunk is split, its remainder becomes the victim and the old victim goes into a bin. */
  lemma SplitToVictim(m: Mem, m2: Mem, v: View, v': View, segs: seq<Segment>, hdr: int, least: int, p: int, nb: int)
    requires HeapOk(m, v, segs, hdr, least) && p in v.bs && p in v.cs && NextOf(v.cs, p) in v.cs && v.dvsize >= 0
    requires MIN_CHUNK_SIZE <= nb && nb % 16 == 0 && nb + MIN_CHUNK_SIZE <= v.bs[p] == v.cs[p].size
    requires v' == View(Carve(v.cs, p, nb), if v.dvsize == 0 then v.bs - {p} else (v.bs - {p})[v.dv := v.dvsize],
                        p + nb, v.bs[p] - nb, v.top, v.topsize)
    ensures Carves(v, v', p, nb)
    ensures CarveWritten(m2, SetFreeHead(SetInuseHead(m2, p, nb), p + nb, v.bs[p] - nb), v.cs, p, nb)
    ensures Carvable(v.cs, p, nb) && v.dv !in v.bs && SubMap(v.bs - {p}, v.bs) && p !in v'.bs
  {
    hide Tile, Shape, AllMerged, Tagged, TopOk, Above, SetFreeHead, SetInuseAndPinuse, Carve;
    NextTag(v.cs, segs, hdr, p);
    CarveSpan(v.cs, segs, hdr, p, nb);
    if v.dv != 0 { Placed(v.cs, segs, hdr, v.dv); }
    SetFreeHeadEdits(SetInuseHead(m2, p, nb), p + nb, v.bs[p] - nb);
  }

  /** Every binned chunk shows in the bitmaps. */
  /** With an empty tree map only small chunks are binned. */
  lemma LargeOnly(m: Mem, smallmap: nat, treemap: nat, roots: seq<int>, hdr: int, tbin: int, g: Binned)
    requires BinsOk(m, smallmap, treemap, roots, hdr, tbin, g)
    ensures treemap == 0 ==> forall x :: x in g.bs ==> g.bs[x] < MIN_LARGE_SIZE
  {
    hide BinsOk;
    MarkedFacts(m, smallmap, treemap, roots, hdr, tbin, g);
  }

  lemma BinnedBounds(m: Mem, v: View, segs: seq<Segment>, hdr: int, least: int)
    requires HeapOk(m, v, segs, hdr, least)
    ensures forall x :: x in v.bs ==> v.bs[x] < W64 - 1
  {
    hide HeapOk;
    forall x | x in v.bs ensures v.bs[x] < W64 - 1 { BinnedFacts(m, v, segs, hdr, least, x); }
  }

  lemma MarkedFacts(m: Mem, smallmap: nat, treemap: nat, roots: seq<int>, hdr: int, tbin: int, g: Binned)
    requires BinsOk(m, smallmap, treemap, roots, hdr, tbin, g)
    ensures smallmap < W32
    ensures forall x :: x in g.bs && g.bs[x] < MIN_LARGE_SIZE ==> Bit(smallmap, g.bs[x] / 8) && g.bs[x] % 16 == 0
    ensures forall x :: x in g.bs && g.bs[x] >= MIN_LARGE_SIZE ==> treemap != 0
  {
    forall x | x in g.bs && g.bs[x] < MIN_LARGE_SIZE ensures Bit(smallmap, g.bs[x] / 8) {
      var i := g.bs[x] / 8;
      assert SmallBin(m, smallmap, hdr, g.bs, g.lists[i], i);
    }
    forall x | x in g.bs && g.bs[x] >= MIN_LARGE_SIZE ensures treemap != 0 {
      var i := TreeIndex(g.bs[x]);
      assert TreeBin(m, treemap, roots[i], tbin + 8 * i, g.bs, g.tries[i], i);
      ZeroBit(i);
    }
  }

  lemma VictimFacts(m: Mem, v: View, segs: seq<Segment>, hdr: int, least: int)
    requires HeapOk(m, v, segs, hdr, least) && v.dvsize != 0
    ensures v.dv in v.cs && NextOf(v.cs, v.dv) in v.cs && v.cs[v.dv].kind.Free? && v.cs[v.dv].size == v.dvsize
    ensures v.dv != 0
    ensures v.dvsize % 16 == 0 && v.dv !in v.bs && v.dvsize < W64 && least <= v.dv
  {
    NextTag(v.cs, segs, hdr, v.dv);
    At(v.cs, segs, hdr, v.dv);
  }

  lemma TopFacts(m: Mem, v: View, segs: seq<Segment>, hdr: int, least: int)
    requires HeapOk(m, v, segs, hdr, least) && v.topsize != 0
    ensures v.top in v.cs && NextOf(v.cs, v.top) in v.cs && v.cs[v.top].kind.Top? && v.cs[v.top].size == v.topsize
    ensures v.top != 0
    ensures v.topsize % 16 == 0 && v.top !in v.bs && 0 < v.topsize < W64 && least <= v.top && segs != []
  {
    NextTag(v.cs, segs, hdr, v.top);
    At(v.cs, segs, hdr, v.top);
  }

  lemma CarveVictim(m: Mem, v: View, v': View, segs: seq<Segment>, hdr: int, least: int, s: nat)
    requires HeapOk(m, v, segs, hdr, least) && v.dv in v.cs && NextOf(v.cs, v.dv) in v.cs && v.cs[v.dv].size == v.dvsize
    requires MIN_CHUNK_SIZE <= s && s % 16 == 0 && (s == v.dvsize || s + MIN_CHUNK_SIZE <= v.dvsize)
    requires v' == v.(cs := Carve(v.cs, v.dv, s), dv := if s == v.dvsize then 0 else v.dv + s, dvsize := v.dvsize - s)
    ensures Carves(v, v', v.dv, s) && Carvable(v.cs, v.dv, s) && SubMap(v'.bs, v.bs) && v.dv !in v'.bs
    ensures var p, rs := v.dv, v.dvsize - s;
            CarveWritten(m, if rs == 0 then SetInuseAndPinuse(m, p, s) else SetInuseHead(SetFreeHead(m, p + s, rs), p,
                s), v.cs, p, s)
  {
    hide Tile, Shape, AllMerged, Tagged, TopOk, Above, SetFreeHead, SetInuseAndPinuse, Carve;
    var p, rs := v.dv, v.dvsize - s;
    NoZero(v.cs, segs, hdr);
    NextTag(v.cs, segs, hdr, p);
    CarveSpan(v.cs, segs, hdr, p, s);
    SetInuseAndPinuseEdits(m, p, s);
    SetFreeHeadEdits(m, p + s, rs);
  }

  lemma CarveTop(m: Mem, v: View, v': View, segs: seq<Segment>, hdr: int, least: int, nb: nat)
    requires HeapOk(m, v, segs, hdr, least) && v.top in v.cs && NextOf(v.cs, v.top) in v.cs && v.cs[v.top].kind.Top?
    requires MIN_CHUNK_SIZE <= nb < v.cs[v.top].size && nb % 16 == 0
    requires v' == v.(cs := Carve(v.cs, v.top, nb), top := v.top + nb, topsize := v.cs[v.top].size - nb)
    ensures Carves(v, v', v.top, nb) && Carvable(v.cs, v.top, nb) && SubMap(v'.bs, v.bs) && v.top !in v'.bs
    ensures CarveWritten(m, SetInuseHead(SetHead(m, v.top + nb, v.cs[v.top].size - nb + 1), v.top, nb), v.cs, v.top, nb)
  {
  }

  lemma FreeHeadSize(m: Mem, p: int, s: int)
    requires Head(m, p) == s + 1 && s % 16 == 0
    ensures ChunkSize(m, p) == s
  {
    HeadParts(s, 1, 0);
  }

  lemma ReleasesWithout(v: View, bs: map<int, nat>, v': View, p: int, s: nat)
    requires Releases(v, v', p) && MergeStart(v.cs, p) !in bs && v'.bs == bs[MergeStart(v.cs, p) := s]
    ensures SubMap(bs, v.bs) && NextOf(v.cs, p) !in bs
  {
    forall x | x in bs ensures x in v.bs && bs[x] == v.bs[x] && x != NextOf(v.cs, p) {
      assert x in v'.bs && v'.bs[x] == bs[x];
    }
  }

  /** There is room for the links of the merged chunk. */
  lemma RoomForMerged(m: Mem, v: View, v': View, segs: seq<Segment>, hdr: int, least: int, p: int)
    requires HeapOk(m, v, segs, hdr, least) && p in v.cs && v.cs[p].kind.Live? && Releases(v, v', p)
    ensures Spaced(v'.bs, hdr) && least <= MergeStart(v.cs, p) && forall x :: x in v'.bs ==> v'.bs[x] < W64
  {
    ReleaseKeeps(v.cs, segs, hdr, p);
    ReleaseFrees(v.cs, segs, hdr, p, v.bs, v.dv, v'.bs, v'.dv);
    ReleaseSpan(v.cs, segs, hdr, p);
    SpacedIn(v'.cs, segs, hdr, v'.bs);
  }

  /** Writes to bin links leave every head word alone. */
  lemma TagsStay(m: Mem, m': Mem, v: View, segs: seq<Segment>, hdr: int, least: int, x: int)
    requires HeapOk(m, v, segs, hdr, least) && OnlySlots(m, m', v.bs, hdr) && x in v.cs
    ensures Cinuse(m', x) == Cinuse(m, x) && Pinuse(m', x) == Pinuse(m, x) && ChunkSize(m', x) == ChunkSize(m, x)
  {
    Placed(v.cs, segs, hdr, x);
    SlotsMiss(v.cs, segs, hdr, v.bs, x, x);
  }

  /** Everything dispose_chunk relies on. */
  lemma DisposeFacts(
    m: Mem, v: View, segs: seq<Segment>, hdr: int, least: int, p: int
  ) returns (q: int, e: int, k: Kind)
    requires HeapOk(m, v, segs, hdr, least) && p in v.cs && v.cs[p].kind.Live?
    ensures q == MergeStart(v.cs, p) && NextOf(v.cs, p) in v.cs && e == MergeEnd(v.cs, p) && k == MergeKind(v.cs, p)
    ensures e in v.cs && q in v.cs && q < e && least <= q && Cinuse(m, p) && ChunkSize(m, p) == v.cs[p].size
    ensures var n := p + v.cs[p].size;
            && n == NextOf(v.cs, p) && p < n && least <= n && Pinuse(m, n)
            && (if Pinuse(m, p) then q == p
                else q == p - Foot(m, p) && v.cs[q].kind.Free? && v.cs[q].size == Foot(m, p))
            && (if Cinuse(m, n) then InUse(v.cs[n].kind) && e == n && k == Free
                else
                  !InUse(v.cs[n].kind) && k == v.cs[n].kind && e == n + ChunkSize(m, n) &&
                  v.cs[n].size == ChunkSize(m, n))
            && (k.Free? || k.Top?) && (k.Top? <==> n == v.top) && (n == v.dv ==> k.Free? && !Cinuse(m, n))
            && (if q != p && q != v.dv then q in v.bs && v.bs[q] == v.cs[q].size else q !in v.bs)
            && (if !Cinuse(m, n) && n != v.dv && n != v.top then n in v.bs && v.bs[n] == v.cs[n].size else n !in v.bs)
            && (InUse(v.cs[n].kind) || NextOf(v.cs, n) in v.cs)
            && (n == v.top ==> v.cs[n].size == v.topsize) && (n == v.dv ==> v.cs[n].size == v.dvsize)
            && (v.dv == 0 ==> v.dvsize == 0) && q != 0 && n != 0 && q != n && v.dv != p
  {
    NoZero(v.cs, segs, hdr);
    NeighbourTags(m, v.cs, segs, hdr, p);
    q, e, k := MergeStart(v.cs, p), MergeEnd(v.cs, p), MergeKind(v.cs, p);
    ReleaseSpan(v.cs, segs, hdr, p);
    NextTag(v.cs, segs, hdr, p);
  }
}
