/** What cutting, growing and aligning live chunks rely on. */
module ResizeFacts {
  import opened Words
  import opened BitMaps
  import opened Memory
  import opened BinStore
  import opened Layout
  import opened Tags
  import opened HeapBase
  import opened HeapSteps
  import opened Mappings
  import opened Growth
  import opened HeapFacts
  import opened ReleaseFacts
  import opened SystemFacts
  import opened CallerFacts

  // ---- cutting and growing live chunks --------------------------------------------------------------------

  lemma SetBit0Odd(x: int)
    ensures SetBit0(x) % 2 == 1
  {
  }

  lemma EvenPlus(rs: int, g: int)
    requires rs % 16 == 0 && 0 <= g <= 1
    ensures SetBit0(rs + g + 2) == rs + 3
  {
    Parity(rs, g, 2);
  }

  /** The two calls of set_inuse that cut a chunk, first part first. */
  lemma CutForward(m: Mem, v: View, segs: seq<Segment>, hdr: int, least: int, p: int, a: int)
    requires HeapOk(m, v, segs, hdr, least) && Cuttable(v.cs, p, a)
    ensures CutWritten(m, SetInuse(SetInuse(m, p, a), p + a, v.cs[p].size - a), v.cs, p, a)
  {
    hide SetInuse, SetBit0;
    var r, n, rs := p + a, NextOf(v.cs, p), v.cs[p].size - a;
    var m1 := SetInuse(m, p, a);
    SetInuseEdits(m, p, a);
    SetInuseEdits(m1, r, rs);
    SetBit0Odd(Head(m, r));
    EditedTrans(m, m1, SetInuse(m1, r, rs), {p, r}, {}, {r, n}, {});
    var none: set<int> := {};
    assert {p, r} + {r, n} == {p, r, n} && none + none == none;
  }

  /** The two calls of set_inuse that cut a chunk, second part first. */
  lemma CutBackward(m: Mem, v: View, segs: seq<Segment>, hdr: int, least: int, p: int, a: int)
    requires HeapOk(m, v, segs, hdr, least) && Cuttable(v.cs, p, a)
    ensures CutWritten(m, SetInuse(SetInuse(m, p + a, v.cs[p].size - a), p, a), v.cs, p, a)
  {
    hide SetInuse, SetBit0;
    var r, n, rs := p + a, NextOf(v.cs, p), v.cs[p].size - a;
    var m1 := SetInuse(m, r, rs);
    SetInuseEdits(m, r, rs);
    SetInuseEdits(m1, p, a);
    NextTag(v.cs, segs, hdr, p);
    EvenPlus(rs, Head(m, r) % 2);
    EditedTrans(m, m1, SetInuse(m1, p, a), {r, n}, {}, {p, r}, {});
    var none: set<int> := {};
    assert {r, n} + {p, r} == {p, r, n} && none + none == none;
  }

  lemma CutOffLives(live: map<int, int>, p: int, a: int, r: int, s: int)
    requires p in live && r !in live && p != r
    ensures live[p := a][r := s] - {r} == live[p := a]
    ensures live[p := a][r := s] - {p} == (live - {p})[r := s]
  {
  }

  lemma SizeTag(m: Mem, v: View, segs: seq<Segment>, hdr: int, least: int, p: int)
    requires HeapOk(m, v, segs, hdr, least) && p in v.cs && v.cs[p].kind.Live?
    ensures ChunkSize(m, p) == v.cs[p].size
  {
    NeighbourTags(m, v.cs, segs, hdr, p);
  }

  lemma CutSizes(m: Mem, v: View, segs: seq<Segment>, hdr: int, least: int, cs: Chunks, p: int, a: int)
    requires v.cs == Cut(cs, p, a) && Cuttable(cs, p, a)
    ensures p in v.cs && v.cs[p].kind.Live? && v.cs[p].size == a
  {
  }

  lemma TailKept(m0: Mem, m1: Mem, m2: Mem, live: map<int, int>, p: int, a: int)
    requires p in live && Kept(m0, m1, live - {p}) && SameWords(m0, m1, p + 16, p + a) && Kept(m1, m2, live[p := a])
    ensures Kept(m0, m2, live - {p}) && SameWords(m0, m2, p + 16, p + a)
  {
    KeptPart(m1, m2, live[p := a], live - {p});
    KeptTrans(m0, m1, m2, live - {p});
    assert live[p := a][p] == a;
    WordsTrans(m0, m1, m2, p + 16, p + a);
  }

  lemma HeadKept(m0: Mem, m1: Mem, m2: Mem, live: map<int, int>, p: int, q: int, s: int)
    requires q !in live && Kept(m0, m1, live - {p}) && Kept(m1, m2, (live - {p})[q := s])
    ensures Kept(m0, m2, live - {p})
  {
    KeptPart(m1, m2, (live - {p})[q := s], live - {p});
    KeptTrans(m0, m1, m2, live - {p});
  }

  /** In-place growth to `nb` bytes is possible: the next chunk is top with room to spare, or free and large enough. */
  ghost predicate CanGrow(cs: Chunks, p: int, nb: int) {
    && p in cs && NextOf(cs, p) in cs
    && var n := NextOf(cs, p);
       var total := cs[p].size + cs[n].size;
       (cs[n].kind.Top? && total > nb) || (cs[n].kind.Free? && total >= nb)
  }

  lemma WordsSelf(m: Mem, a: int, b: int)
    ensures SameWords(m, m, a, b)
  {
  }

  /** What try_realloc_chunk relies on. */
  lemma GrowFacts(m: Mem, v: View, segs: seq<Segment>, hdr: int, least: int, p: int, nb: nat)
    requires HeapOk(m, v, segs, hdr, least) && p in Lives(v.cs) && Lives(v.cs)[p] < nb && nb % 16 == 0
    requires MIN_CHUNK_SIZE <= nb
    ensures p in v.cs && v.cs[p].kind.Live? && v.cs[p].size == Lives(v.cs)[p] && p != 0
    ensures var n := p + v.cs[p].size;
            && n in v.cs && n == NextOf(v.cs, p) && Pinuse(m, n) && least <= p && p < n && v.cs[n].size % 16 == 0
            && v.cs[p].size % 16 == 0 && n != 0
            && (Cinuse(m, n) <==> InUse(v.cs[n].kind)) && (n == v.top <==> v.cs[n].kind.Top?)
            && (n == v.dv ==> v.cs[n].kind.Free?)
            && (n == v.top ==> v.topsize == v.cs[n].size) && (n == v.dv ==> v.dvsize == v.cs[n].size)
            && (!Cinuse(m, n) && n != v.top && n != v.dv ==>
                  n in v.bs && v.bs[n] == v.cs[n].size && ChunkSize(m, n) == v.cs[n].size && v.cs[n].kind.Free?)
            && (if InUse(v.cs[n].kind) then !CanGrow(v.cs, p, nb) && n != v.top && n != v.dv
                else NextOf(v.cs, n) in v.cs && v.cs[n].size > 0)
    ensures var n := p + v.cs[p].size;
            var total := v.cs[p].size + v.cs[n].size;
            && (v.cs[n].kind.Top? ==>
                  (CanGrow(v.cs, p, nb) <==> total > nb) && (total > nb ==> Growable(v.cs, p, nb, Top)))
            && (v.cs[n].kind.Free? ==> (CanGrow(v.cs, p, nb) <==> total >= nb))
            && (v.cs[n].kind.Free? && total >= nb ==>
                  var s := if total - nb >= MIN_CHUNK_SIZE then nb else total;
                  Growable(v.cs, p, s, Free) && Growable(v.cs, p, s, Live))
  {
    NeighbourTags(m, v.cs, segs, hdr, p);
    NextTag(v.cs, segs, hdr, p);
    Above0(v, segs, hdr, least, p);
    Placed(v.cs, segs, hdr, NextOf(v.cs, p));
    hide Tile, Shape, AllMerged, Tagged;
    GrowKinds(v.cs, segs, hdr, p, nb);
  }

  lemma Above0(v: View, segs: seq<Segment>, hdr: int, least: int, p: int)
    requires Above(v.cs, least) && p in v.cs
    ensures least <= p
  {
  }

  /** Which sizes a live chunk can grow to. */
  lemma GrowKinds(cs: Chunks, segs: seq<Segment>, hdr: int, p: int, nb: nat)
    requires Tile(cs, segs, hdr) && Shape(cs, segs) && p in cs && cs[p].kind.Live? && NextOf(cs, p) in cs
    requires cs[p].size < nb && nb % 16 == 0 && MIN_CHUNK_SIZE <= nb
    ensures var n := NextOf(cs, p);
            var total := cs[p].size + cs[n].size;
            && (cs[n].kind.Top? && total > nb ==> Growable(cs, p, nb, Top))
            && (cs[n].kind.Free? && total >= nb ==>
                  var s := if total - nb >= MIN_CHUNK_SIZE then nb else total; Growable(cs, p, s, Free) && Growable(cs,
                      p, s, Live))
  {
    NextTag(cs, segs, hdr, p);
    var n := NextOf(cs, p);
    if cs[n].kind.Top? || cs[n].kind.Free? { NextTag(cs, segs, hdr, n); }
    Sum16(cs[p].size, cs[n].size);
    hide Tile, Shape;
  }

  lemma Sum16(x: int, y: int)
    requires x % 16 == 0 && y % 16 == 0
    ensures (x + y) % 16 == 0
  {
  }

  lemma GrownTop(m: Mem, v: View, v': View, segs: seq<Segment>, hdr: int, least: int, p: int, nb: int)
    requires HeapOk(m, v, segs, hdr, least) && Growable(v.cs, p, nb, Top) && v.cs[NextOf(v.cs, p)].kind.Top?
    requires v' == v.(cs := Grow(v.cs, p, nb, Top), top := p + nb,
                      topsize := v.cs[p].size + v.cs[NextOf(v.cs, p)].size - nb)
    ensures Grows(v, v', p, nb, Top)
    ensures GrowWritten(m, SetHead(SetInuse(m, p, nb), p + nb, v'.topsize + 1), v.cs, p, nb, Top)
  {
    hide Tile, Shape, AllMerged, Tagged, Grow, GrowWritten, SetInuse, SetHead;
    GrowTopWritten(m, v.cs, segs, hdr, p, nb);
  }

  lemma GrownDv(m: Mem, v: View, v': View, segs: seq<Segment>, hdr: int, least: int, p: int, s: int)
    requires HeapOk(m, v, segs, hdr, least) && Growable(v.cs, p, s, Free) && NextOf(v.cs, p) == v.dv && v.dv != 0
    requires var rs := v.cs[p].size + v.dvsize - s;
             v' == v.(cs := Grow(v.cs, p, s, Free), dv := if rs == 0 then 0 else p + s, dvsize := rs)
    ensures Grows(v, v', p, s, Free)
    ensures var rs := v.cs[p].size + v.dvsize - s;
            GrowWritten(m, if rs == 0 then SetInuse(m, p, s) else ClearPinuse(SetFreeHead(SetInuse(m, p, s), p + s,
                rs), p + s + rs), v.cs, p, s, Free)
  {
    hide Tile, Shape, AllMerged, Tagged, Grow, GrowWritten, SetInuse, SetFreeHead, ClearPinuse, Binnable, FreesBinned,
         TopOk, Above;
    if s == v.cs[p].size + v.cs[NextOf(v.cs, p)].size {
      GrowWholeWritten(m, v.cs, segs, hdr, p, Free);
    } else {
      GrowDvWritten(m, v.cs, segs, hdr, p, s);
    }
  }

  lemma GrownFree(m: Mem, m2: Mem, v: View, v': View, segs: seq<Segment>, hdr: int, least: int, p: int, s: int)
    requires HeapOk(m, v, segs, hdr, least) && Growable(v.cs, p, s, Live) && NextOf(v.cs, p) in v.bs
    requires NextOf(v.cs, p) != v.dv
    requires v' == v.(cs := Grow(v.cs, p, s, Live), bs := v.bs - {NextOf(v.cs, p)})
    ensures Grows(v, v', p, s, Live)
    ensures var rs := v.cs[p].size + v.cs[NextOf(v.cs, p)].size - s;
            GrowWritten(m2, if rs == 0 then SetInuse(m2, p, s) else SetInuse(SetInuse(m2, p, s), p + s, rs), v.cs, p,
                        s, Live)
  {
    hide Tile, Shape, AllMerged, Tagged, Grow, GrowWritten, SetInuse, FreesBinned, TopOk, VictimOk, Above;
    if s == v.cs[p].size + v.cs[NextOf(v.cs, p)].size {
      GrowWholeWritten(m2, v.cs, segs, hdr, p, Live);
    } else {
      GrowLiveWritten(m2, v.cs, segs, hdr, p, s);
    }
  }

  /** The live chunks and payloads after growing into free space. */
  lemma GrownLives(m: Mem, v: View, v': View, segs: seq<Segment>, hdr: int, least: int, p: int, s: int, k: Kind)
    requires HeapOk(m, v, segs, hdr, least) && Grows(v, v', p, s, k) && !v.cs[NextOf(v.cs, p)].kind.Live?
    ensures var n := NextOf(v.cs, p);
            var rs := v.cs[p].size + v.cs[n].size - s;
            && Lives(v'.cs) == (if rs > 0 && k.Live? then Lives(v.cs)[p := s][p + s := rs] else Lives(v.cs)[p := s])
            && Lives(v.cs) - {p} - {n} == Lives(v.cs) - {p} && (rs > 0 ==> p + s !in Lives(v.cs)) && p in Lives(v'.cs)
            && Lives(v'.cs)[p] == s
  {
    GrowLives(v, v', segs, hdr, p, s, k);
    var n := NextOf(v.cs, p);
    assert n !in Lives(v.cs);
    assert Lives(v.cs) - {n} == Lives(v.cs);
    assert Lives(v.cs) - {p} - {n} == Lives(v.cs) - {p};
    GrowParts(v, v', p, s, k);
    hide Lives;
    assert s != 0 by { GrowPositive(v, v', p, s, k); }
  }

  lemma GrowPositive(v: View, v': View, p: int, s: int, k: Kind)
    requires Grows(v, v', p, s, k)
    ensures s > 0
  {
  }

  lemma RestFacts(m: Mem, v': View, v: View, segs: seq<Segment>, hdr: int, least: int, p: int, nb: int)
    requires HeapOk(m, v', segs, hdr, least) && p + nb in Lives(v'.cs)
    ensures p + nb in v'.cs && v'.cs[p + nb].kind.Live? && v'.cs[p + nb].size == Lives(v'.cs)[p + nb]
  {
  }

  lemma GrownKept(m0: Mem, m3: Mem, m4: Mem, live: map<int, int>, p: int, oldsize: int, nb: int, r: int, rs: int)
    requires p in live && r !in live && r != p && oldsize <= nb
    requires Kept(m0, m3, live - {p}) && SameWords(m0, m3, p + 16, p + oldsize)
    requires Kept(m3, m4, live[p := nb][r := rs] - {r})
    ensures Kept(m0, m4, live - {p}) && SameWords(m0, m4, p + 16, p + oldsize)
    ensures live[p := nb][r := rs] - {r} == live[p := nb]
  {
    CutOffLives(live, p, nb, r, rs);
    KeptPart(m3, m4, live[p := nb], live - {p});
    KeptTrans(m0, m3, m4, live - {p});
    assert live[p := nb][p] == nb;
    assert SameWords(m3, m4, p + 16, p + oldsize) by { assert SameWords(m3, m4, p + 16, p + live[p := nb][p]); }
    WordsTrans(m0, m3, m4, p + 16, p + oldsize);
  }

  lemma InLive(a: map<int, int>, b: map<int, int>, p: int)
    requires p in a
    ensures p in a + b
  {
  }

  lemma ReallocFacts(m: Mem, v: View, segs: seq<Segment>, hdr: int, least: int, p: int, nb: nat)
    requires HeapOk(m, v, segs, hdr, least) && p in Lives(v.cs) && nb % 16 == 0 && MIN_CHUNK_SIZE <= nb
    ensures p in v.cs && Lives(v.cs)[p] == v.cs[p].size && 0 < p && v.cs[p].size >= MIN_CHUNK_SIZE
    ensures ChunkSize(m, p) == v.cs[p].size && NextOf(v.cs, p) in v.cs
    ensures v.cs[p].size - nb >= MIN_CHUNK_SIZE ==> Cuttable(v.cs, p, nb)
  {
    NextTag(v.cs, segs, hdr, p);
    At(v.cs, segs, hdr, p);
    SizeTag(m, v, segs, hdr, least, p);
  }

  lemma Resized(live: map<int, int>, live': map<int, int>, mapped: map<int, int>, p: int)
    requires p in live && p !in mapped && p in live' && live' == live[p := live'[p]]
    ensures live' + mapped == (live + mapped)[p := live'[p]] && (live' + mapped)[p] == live'[p]
    ensures (live + mapped)[p] == live[p]
    ensures (live - {p}) + mapped == (live + mapped) - {p}
  {
    SplitLive(live, mapped, p);
  }

  // ---- memalign -------------------------------------------------------------------------------------------

  /** A power of two of at least 32. */
  ghost predicate Alignment(a: nat) { a >= 32 && a % 16 == 0 && exists k: nat :: a == Pow2(k) }

  /** `a` is the least alignment that is at least `want`. */
  ghost predicate LeastAlignment(a: nat, want: nat) { Alignment(a) && a >= want && (a == 32 || a < 2 * want) }

  lemma PowerAligned(k: nat)
    requires Pow2(k) >= 32
    ensures Alignment(Pow2(k))
  {
    Pow2Table();
    if k < 5 { Pow2Below(k, 5); }
    SixteenDivides(k);
  }

  lemma {:induction false} SixteenDivides(k: nat)
    requires k >= 4
    ensures Pow2(k) % 16 == 0
  {
    Pow2Table();
    hide Pow2;
    if k > 4 {
      SixteenDivides(k - 1);
      Pow2Step(k - 1);
      TwiceSixteen(Pow2(k - 1));
    }
  }

  lemma TwiceSixteen(x: int)
    requires x % 16 == 0
    ensures 2 * x % 16 == 0
  {
  }

  /** The least multiple of `a` that is at least `x`. */
  function RoundTo(x: nat, a: nat): nat
    requires a > 0
  {
    x + a - 1 - (x + a - 1) % a
  }

  lemma RoundToFacts(x: nat, a: nat)
    requires a > 0
    ensures x <= RoundTo(x, a) < x + a && Multiple(RoundTo(x, a), a)
  {
    RoundedDown(x + a - 1, a);
  }

  /**
   * Where memalign puts the aligned chunk: the first spot that leaves no leader or one of at least the minimum size.
   */
  function AlignedSpot(p: nat, a: nat): nat
    requires a > 16
  {
    var br := RoundTo(p + 16, a) - 16;
    if br - p >= MIN_CHUNK_SIZE then br else br + a
  }

  lemma SpotFacts(p: nat, a: nat)
    requires p % 16 == 0 && a >= 32 && a % 16 == 0 && !Multiple(p + 16, a)
    ensures var pos := AlignedSpot(p, a);
            Multiple(pos + 16, a) && MIN_CHUNK_SIZE <= pos - p <= a + 16 && (pos - p) % 16 == 0
  {
    hide Multiple, RoundTo;
    var x := RoundTo(p + 16, a);
    RoundToFacts(p + 16, a);
    assert x != p + 16;
    Sixteens(x, a);
    Apart16(x, p + 16);
    MultipleSum(x, a, a) by { MultipleSelfOnce(a); }
    StepLead(x - 16 - p, a);
  }

  lemma MultipleSelfOnce(a: int)
    requires a > 0
    ensures Multiple(a, a)
  {
  }

  lemma Apart16(x: int, y: int)
    requires x % 16 == 0 && y % 16 == 0 && x > y
    ensures (x - y) % 16 == 0 && x - y >= 16
  {
  }

  lemma StepLead(d: int, a: int)
    requires d % 16 == 0 && 16 <= d < a && a % 16 == 0
    ensures d <= a - 16 && (d < MIN_CHUNK_SIZE ==> d == 16 && (d + a) % 16 == 0)
  {
  }

  lemma Sixteens(x: int, a: int)
    requires Multiple(x, a) && a % 16 == 0
    ensures x % 16 == 0
  {
    assert Multiple(a, 16);
    MultipleTrans(x, a, 16);
  }

  /** What memalign asks of malloc leaves room for the leader and the aligned chunk. */
  lemma MemalignRoom(nb: nat, a: nat, s: int)
    requires nb % 16 == 0 && nb >= MIN_CHUNK_SIZE && a % 16 == 0 && a >= 32
    requires s >= Request2Size(nb + a + MIN_CHUNK_SIZE - 8)
    ensures s >= nb + a + MIN_CHUNK_SIZE
  {
    RequestFits(nb + a + MIN_CHUNK_SIZE - 8);
  }

  lemma PowerBound(k: nat, target: nat)
    requires Pow2(k) < target <= W64 / 2 && k <= 63
    ensures k < 63 && 2 * Pow2(k) <= W64 / 2
  {
    hide Pow2;
    Pow2Of64();
    Pow2Step(63);
    if k < 63 {
      Pow2Step(k);
      if k + 1 < 63 { Pow2Below(k + 1, 63); }
    }
  }

  lemma AlignmentIs(a: nat, want: nat)
    requires LeastAlignment(a, want)
    ensures a >= 32 && a % 16 == 0
  {
  }

  lemma MultipleIs(x: int, a: int)
    requires a > 0
    ensures Multiple(x, a) <==> x % a == 0
  {
  }

  lemma JustAdded(live: map<int, int>, p: int, s: int)
    requires p !in live
    ensures live[p := s] - {p} == live
  {
  }

  lemma LiveSizes(m: Mem, v: View, segs: seq<Segment>, hdr: int, least: int, maps: map<int, Mapping>, p: int)
    requires HeapOk(m, v, segs, hdr, least) && MapsOk(m, maps, segs, hdr, least) && p in Lives(v.cs) + MappedLives(maps)
    ensures (Lives(v.cs) + MappedLives(maps))[p] == ChunkSize(m, p) && ChunkSize(m, p) % 16 == 0
    ensures (p in Lives(v.cs) || p in maps)
    ensures p in Lives(v.cs) ==> Lives(v.cs)[p] == ChunkSize(m, p)
    ensures p in maps ==> MappedSize(p, maps[p]) == ChunkSize(m, p)
  {
    if p in Lives(v.cs) {
      SizeTag(m, v, segs, hdr, least, p);
      NextTag(v.cs, segs, hdr, p);
      ChunkNotMapped(m, v, segs, hdr, least, maps, p);
    } else {
      assert MappingOk(m, p, maps[p], segs, hdr, least);
      HeadParts(MappedSize(p, maps[p]), 0, 0);
    }
  }

  lemma CutSpot(m: Mem, v: View, segs: seq<Segment>, hdr: int, least: int, p: int, lead: nat)
    requires HeapOk(m, v, segs, hdr, least) && p in Lives(v.cs)
    requires MIN_CHUNK_SIZE <= lead <= Lives(v.cs)[p] - MIN_CHUNK_SIZE && lead % 16 == 0
    ensures Cuttable(v.cs, p, lead)
  {
    NextTag(v.cs, segs, hdr, p);
  }

  lemma MovedLive(
    m: Mem, v: View, segs: seq<Segment>, hdr: int, least: int, maps: map<int, Mapping>, live: map<int, int>, p: int,
    q: int, s: int
  )
    requires HeapOk(m, v, segs, hdr, least) && MapsOk(m, maps, segs, hdr, least) && p in live && p !in maps
    requires q !in live && Lives(v.cs) == (live - {p})[q := s]
    ensures Lives(v.cs) + MappedLives(maps) == ((live + MappedLives(maps)) - {p})[q := s]
    ensures q !in live + MappedLives(maps) && q !in maps
    ensures (live - {p}) + MappedLives(maps) == (live + MappedLives(maps)) - {p}
  {
    assert q in Lives(v.cs);
    ChunkNotMapped(m, v, segs, hdr, least, maps, q);
    var mapped := MappedLives(maps);
    assert p !in mapped && q !in mapped;
    hide Lives, MappedLives;
    SplitLive(live, mapped, p);
    assert (live - {p})[q := s] + mapped == ((live - {p}) + mapped)[q := s];
  }

  lemma NotInSegment(m: Mem, v: View, segs: seq<Segment>, hdr: int, least: int, maps: map<int, Mapping>, p: int)
    requires HeapOk(m, v, segs, hdr, least) && MapsOk(m, maps, segs, hdr, least) && p in maps
    ensures p !in Lives(v.cs)
  {
    hide HeapOk, MapsOk;
    if p in Lives(v.cs) { ChunkNotMapped(m, v, segs, hdr, least, maps, p); }
  }

  /** The chunk of a mapping moves up; only its own prev_foot and head are written. */
  lemma MapShifted(m: Mem, v: View, maps: map<int, Mapping>, segs: seq<Segment>, hdr: int, least: int, p: int, q: int)
    requires HeapOk(m, v, segs, hdr, least) && MapsOk(m, maps, segs, hdr, least) && p in maps && p !in Lives(v.cs)
    requires q % 16 == 0 && MIN_CHUNK_SIZE <= q - p <= MappedSize(p, maps[p]) - MIN_CHUNK_SIZE
    ensures var m', maps' := SetHead(SetFoot(m, q, Foot(m, p) + (q - p)), q, ChunkSize(m, p) - (q - p)),
        (maps - {p})[q := maps[p]];
            && MapsOk(m', maps', segs, hdr, least) && HeapOk(m', v, segs, hdr, least) && Edited(m, m', {q}, {q})
            && q !in Lives(v.cs) && q !in maps
            && Kept(m, m', (Lives(v.cs) + MappedLives(maps)) - {p}) && !LinkSlot(v.bs, hdr, q) && q !in v.bs
            && Lives(v.cs) + MappedLives(maps') ==
               ((Lives(v.cs) + MappedLives(maps)) - {p})[q := MappedSize(q, maps[p])]
            && p in MappedLives(maps) && MappedSize(q, maps[p]) == (Lives(v.cs) + MappedLives(maps))[p] - (q - p)
            && q !in MappedLives(maps)
  {
    hide Tile, Shape, AllMerged, LinkSlot, Vacant, MapsOk, Kept, Tagged, Lives, MappedLives, MappingOk, Edited;
    var a := maps[p];
    var m' := SetHead(SetFoot(m, q, Foot(m, p) + (q - p)), q, ChunkSize(m, p) - (q - p));
    ShiftedMapping(m, maps, segs, hdr, least, p, q);
    MapsRange(m, maps, segs, hdr, least, p);
    var others := maps - {p};
    NotASlot(v.cs, v.bs, segs, hdr, a.base, a.size, others, q);
    MapTags(m, m', v.cs, segs, hdr, a.base, a.size, others, {q}, {q});
    MapKept(m, m', v.cs, segs, hdr, a.base, a.size, others, {q}, {q});
    MapRemoved(m, maps, segs, hdr, least, Lives(v.cs), p);
    OthersKept(m, m', others, segs, hdr, least, least, a.base, a.size, {q}, {q});
    FarFromChunks(v.cs, segs, hdr, a.base, a.size, others, q);
    NewMapping(m', others, segs, hdr, least, a.base, a.size, q);
    KeptBoth(m, m', Lives(v.cs), MappedLives(others));
    assert q !in Lives(v.cs) by { NotLive(v.cs, q); }
    MovedMap(Lives(v.cs), maps, p, q);
  }

  lemma NotLive(cs: Chunks, q: int)
    requires q !in cs
    ensures q !in Lives(cs)
  {
  }

  lemma ShiftedMapping(m: Mem, maps: map<int, Mapping>, segs: seq<Segment>, hdr: int, least: int, p: int, q: int)
    requires MapsOk(m, maps, segs, hdr, least) && p in maps && q % 16 == 0
    requires MIN_CHUNK_SIZE <= q - p <= MappedSize(p, maps[p]) - MIN_CHUNK_SIZE
    ensures var m' := SetHead(SetFoot(m, q, Foot(m, p) + (q - p)), q, ChunkSize(m, p) - (q - p));
            && Edited(m, m', {q}, {q}) && MappingOk(m', q, maps[p], segs, hdr, least)
            && maps[p].base <= q < MapEnd(maps[p])
            && MappedSize(q, maps[p]) == MappedSize(p, maps[p]) - (q - p)
  {
    var a := maps[p];
    assert MappingOk(m, p, a, segs, hdr, least);
    ChunkSizeOf(m, p, MappedSize(p, a));
    Diff16(q, p);
    Diff16(MappedSize(p, a), q - p);
    hide SizeOf, ChunkSize;
    var m' := SetHead(SetFoot(m, q, Foot(m, p) + (q - p)), q, ChunkSize(m, p) - (q - p));
    assert Head(m', q) == MappedSize(q, a) && Foot(m', q) == q - a.base;
  }

  lemma ChunkSizeOf(m: Mem, p: int, s: int)
    requires Head(m, p) == s && s % 16 == 0
    ensures ChunkSize(m, p) == s
  {
    HeadParts(s, 0, 0);
  }

  lemma Diff16(x: int, y: int)
    requires x % 16 == 0 && y % 16 == 0
    ensures (x - y) % 16 == 0
  {
  }

  lemma MapsRange(m: Mem, maps: map<int, Mapping>, segs: seq<Segment>, hdr: int, least: int, p: int)
    requires MapsOk(m, maps, segs, hdr, least) && p in maps
    ensures Vacant(maps[p].base, maps[p].size, segs, hdr, maps - {p})
  {
    assert MappingOk(m, p, maps[p], segs, hdr, least);
    forall q | q in maps - {p}
      ensures MapEnd(maps[p]) <= (maps - {p})[q].base || MapEnd((maps - {p})[q]) <= maps[p].base
    {
      assert q in maps && (maps - {p})[q] == maps[q];
    }
  }

  lemma MovedMap(live: map<int, int>, maps: map<int, Mapping>, p: int, q: int)
    requires p in maps && p !in live && q !in maps - {p} && q !in live && p != q
    ensures p in MappedLives(maps) && (live + MappedLives(maps))[p] == MappedSize(p, maps[p]) && q !in MappedLives(maps)
    ensures live + MappedLives((maps - {p})[q := maps[p]]) == ((live + MappedLives(maps)) - {p})[q := MappedSize(q,
        maps[p])] && q !in maps
  {
    LivesRemoved(maps, live, p);
    var l, r := live + MappedLives((maps - {p})[q := maps[p]]),
        (live + MappedLives(maps - {p}))[q := MappedSize(q, maps[p])];
    assert l == r;
  }
}
