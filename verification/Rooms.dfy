/**
 * What a call of the allocator does, told without the bins and the memory: where every chunk lies, which free chunk is
 * the designated victim, the segments and mappings, and the counters that decide when memory is given back.
 */
module Rooms {
  import opened Words
  import opened BinIndex
  import opened Memory
  import opened Layout
  import opened Tags
  import opened HeapBase
  import opened HeapSteps
  import opened HeapFacts
  import opened ReleaseFacts
  import opened SystemFacts
  import opened CallerFacts
  import opened ResizeFacts
  import opened SegmentFacts
  import opened Segments
  import opened SegmentSteps
  import opened Mappings
  import opened Canonical

  /** The answers of the system during one call: addresses, or -1 for failure. */
  datatype Replies = Replies(brk: int, morecore: int, mmap: int, direct: int, shrinks: bool, unmaps: nat -> bool)

  datatype Room = Room(
    cs: Chunks, segs: seq<Segment>, maps: map<int, Mapping>, hdr: int, dv: int, dvsize: int, top: int, topsize: int,
    contiguous: bool, trimCheck: nat, releaseChecks: nat, granularity: nat, pageSize: nat, mmapThreshold: nat,
    trimThreshold: nat, useMmap: bool)
  {
    /** The system grants nothing that would serve `nb` bytes, or rounding the request up wraps around. */
    ghost predicate Refuses(nb: nat, sys: Replies)
      requires granularity > 0 && pageSize > 0
    {
      DirectRefused(nb, sys) &&
      (Asked(nb) <= nb || (BreakRefused(nb, sys) && NoMapping(Asked(nb), nb, sys.mmap, segs, hdr, maps)))
    }

    /** A mapping for the chunk alone is not asked for, or not granted. */
    ghost predicate DirectRefused(nb: nat, sys: Replies)
      requires pageSize > 0
    {
      useMmap && nb >= mmapThreshold && topsize != 0 ==> NoMapping(Mapped(nb), nb, sys.direct, segs, hdr, maps)
    }

    /** The break may not be used, or is not where an extension could be used, or the extension is not granted. */
    ghost predicate BreakRefused(nb: nat, sys: Replies)
      requires granularity > 0 && pageSize > 0
    {
      !contiguous || NoExtension(nb, Asked(nb), sys, topsize, granularity, pageSize, segs, hdr, maps)
    }

    /** The sizes that are asked for: of a mapping for one chunk, of a new segment, of an extension at the break. */
    function Mapped(nb: nat): nat
      requires pageSize > 0
    {
      RoundUp(nb + 63, pageSize)
    }

    function Asked(nb: nat): nat
      requires granularity > 0
    {
      RoundUp(nb + SYS_ALLOC_PADDING, granularity)
    }

    function Extension(nb: nat, sys: Replies): int
      requires granularity > 0 && pageSize > 0
    {
      if segs == [] && sys.brk > 0 then Asked(nb) + (PageEnd(sys.brk, pageSize) - sys.brk)
      else if nb >= topsize then RoundUp(nb - topsize + SYS_ALLOC_PADDING, granularity)
      else 0
    }
  }

  predicate Positive(room: Room) { room.granularity > 0 && room.pageSize > 0 }

  /** The address offered for `size` bytes is not usable, or `size` wrapped around. */
  ghost predicate NoMapping(size: nat, nb: nat, reply: int, segs: seq<Segment>, hdr: int, maps: map<int, Mapping>) {
    !(size > nb && reply != -1 && reply % 16 == 0 && Vacant(reply, size, segs, hdr, maps))
  }

  ghost predicate NoExtension(
    nb: nat, asize: nat, sys: Replies, topsize: int, unit: nat, page: nat, segs: seq<Segment>, hdr: int,
    maps: map<int, Mapping>
  )
    requires unit > 0 && page > 0
  {
    if segs == [] then
      0 < sys.brk ==>
        var size := asize + (PageEnd(sys.brk, page) - sys.brk);
        !(nb < size < HALF_MAX_SIZE_T && sys.morecore == sys.brk && Vacant(sys.brk, size, segs, hdr, maps))
    else
      topsize <= nb ==>
        var size, end := RoundUp(nb - topsize + SYS_ALLOC_PADDING, unit), End(segs[|segs| - 1]);
        !(size < HALF_MAX_SIZE_T && sys.morecore == end && Vacant(end, size, segs, hdr, maps) &&
          forall k :: 0 <= k < |segs| && !segs[k].mmapped ==> End(segs[k]) <= end)
  }

  /** A refused call changes nothing, except that the break may be given up for good. */
  ghost predicate Stays(room: Room, room': Room) {
    room' == room.(contiguous := room'.contiguous) && (room'.contiguous ==> room.contiguous)
  }

  /** Only chunks changed, and with them the victim and top. */
  ghost predicate SameMemory(room: Room, room': Room) {
    room' == room.(cs := room'.cs, dv := room'.dv, dvsize := room'.dvsize, top := room'.top, topsize := room'.topsize)
  }

  // ---- which chunk serves a request --------------------------------------------------------------------------

  /** The binned chunks: those that are free, but for the victim. */
  ghost function BinnedOf(cs: Chunks, dv: int): map<int, int> {
    map p | p in cs && cs[p].kind.Free? && p != dv :: cs[p].size
  }

  /** No free chunk of `nb` bytes and no larger top. */
  ghost predicate NoRoom(cs: Chunks, nb: nat) {
    forall p :: p in cs ==> (cs[p].kind.Free? ==> cs[p].size < nb) && (cs[p].kind.Top? ==> cs[p].size <= nb)
  }

  /**
   * The victim serves a small request that it has room for unless a binned chunk has exactly that size, and a large
   * one unless a binned chunk fits better.
   */
  ghost predicate VictimServes(bs: map<int, int>, dvsize: int, nb: int) {
    nb <= dvsize &&
    forall x :: x in bs ==> if nb < MIN_LARGE_SIZE then bs[x] != nb else bs[x] < nb || dvsize <= bs[x]
  }

  ghost predicate FitsIn(bs: map<int, int>, nb: int, p: int) { p in bs && nb <= bs[p] }

  ghost predicate LeastFit(bs: map<int, int>, nb: int, p: int) {
    FitsIn(bs, nb, p) && forall x :: FitsIn(bs, nb, x) ==> bs[p] <= bs[x]
  }

  /** The victim, a binned chunk of least size among those that fit, or top, which comes last. */
  ghost predicate Picks(bs: map<int, int>, dv: int, dvsize: int, top: int, nb: int, p: int) {
    if VictimServes(bs, dvsize, nb) then p == dv
    else if exists x :: FitsIn(bs, nb, x) then LeastFit(bs, nb, p)
    else dvsize < nb && p == top
  }

  /**
   * The victim after `p` served: what is left of the old one, or of the binned chunk that a small request was cut
   * from.
   */
  ghost predicate Leaves(bs: map<int, int>, dv: int, dvsize: int, nb: int, p: int, dv': int, dvsize': int) {
    var size := if p == dv then dvsize else if p in bs && nb < MIN_LARGE_SIZE then bs[p] else 0;
    if size - nb >= MIN_CHUNK_SIZE then dv' == p + nb && dvsize' == size - nb
    else if p == dv then dv' == 0 && dvsize' == 0
    else dv' == dv && dvsize' == dvsize
  }

  ghost predicate Serves(room: Room, room': Room, p: int, nb: int) {
    var bs := BinnedOf(room.cs, room.dv);
    && SameMemory(room, room') && Picks(bs, room.dv, room.dvsize, room.top, nb, p)
    && Leaves(bs, room.dv, room.dvsize, nb, p, room'.dv, room'.dvsize)
  }

  ghost predicate FreeAt(cs: Chunks, x: int) { x in cs && cs[x].kind.Free? }

  /**
   * Top serves only if no free chunk fits, the victim only if no other free chunk has the size of a small request or
   * fits a large one better; otherwise the chunk is of least size among those that fit.
   */
  lemma ServesMeans(room: Room, room': Room, p: int, nb: int)
    requires Serves(room, room', p, nb) && TopOk(room.cs, room.segs, room.top, room.topsize) && p != 0
    requires VictimOk(room.cs, room.dv, room.dvsize) && LayoutOk(room.cs, room.segs, room.hdr)
    ensures p == room.top ==> forall x :: FreeAt(room.cs, x) ==> room.cs[x].size < nb
    ensures p == room.dv ==> FreeAt(room.cs, p) && nb <= room.cs[p].size
    ensures p == room.dv && nb < MIN_LARGE_SIZE ==>
      forall x :: FreeAt(room.cs, x) && x != p ==> room.cs[x].size != nb
    ensures p == room.dv && nb >= MIN_LARGE_SIZE ==>
      forall x :: FreeAt(room.cs, x) && room.cs[x].size >= nb ==> room.cs[p].size <= room.cs[x].size
    ensures p != room.top && p != room.dv ==>
      && FreeAt(room.cs, p) && nb <= room.cs[p].size
      && (forall x :: FreeAt(room.cs, x) && x != room.dv && room.cs[x].size >= nb ==>
            room.cs[p].size <= room.cs[x].size)
    ensures nb < MIN_LARGE_SIZE && (exists x :: FreeAt(room.cs, x) && x != room.dv && room.cs[x].size == nb) ==>
      FreeAt(room.cs, p) && p != room.dv && room.cs[p].size == nb
  {
    NoZero(room.cs, room.segs, room.hdr);
    hide LayoutOk;
    var bs := BinnedOf(room.cs, room.dv);
    assert forall x :: FreeAt(room.cs, x) && x != room.dv <==> x in bs;
    forall x | FreeAt(room.cs, x) && x != room.dv ensures x in bs && (FitsIn(bs, nb, x) <==> room.cs[x].size >= nb) { }
  }

  /** What the bins, the victim and top hold is what the layout says. */
  lemma NoFitIs(m: Mem, v: View, segs: seq<Segment>, hdr: int, least: int, nb: nat)
    requires HeapOk(m, v, segs, hdr, least) && nb > 0
    ensures (forall x :: x in v.bs ==> v.bs[x] < nb) && v.dvsize < nb && v.topsize <= nb <==> NoRoom(v.cs, nb)
  {
    NoZero(v.cs, segs, hdr);
    hide LayoutOk, Tagged, Above;
    if (forall x :: x in v.bs ==> v.bs[x] < nb) && v.dvsize < nb && v.topsize <= nb {
      forall p | p in v.cs
        ensures (v.cs[p].kind.Free? ==> v.cs[p].size < nb) && (v.cs[p].kind.Top? ==> v.cs[p].size <= nb)
      {
        if v.cs[p].kind.Free? && p != v.dv { assert p in v.bs; }
      }
    } else if v.topsize > nb {
      assert v.top in v.cs;
    } else if v.dvsize >= nb {
      assert v.dv in v.cs;
    } else {
      var x :| x in v.bs && v.bs[x] >= nb;
      assert x in v.cs;
    }
  }

  /** The bins hold the free chunks but for the victim. */
  lemma BinnedIs(m: Mem, v: View, segs: seq<Segment>, hdr: int, least: int)
    requires HeapOk(m, v, segs, hdr, least)
    ensures v.bs == BinnedOf(v.cs, v.dv)
  {
    var bs := BinnedOf(v.cs, v.dv);
    forall x ensures x in v.bs <==> x in bs { if x in v.bs { assert x in v.cs && v.cs[x].kind.Free?; } }
    forall x | x in v.bs ensures v.bs[x] == bs[x] { assert x in bs; }
  }

  /** The victim and top are not in a bin. */
  lemma ApartOf(m: Mem, v: View, segs: seq<Segment>, hdr: int, least: int)
    requires HeapOk(m, v, segs, hdr, least)
    ensures v.dv !in v.bs && v.top !in v.bs && 0 !in v.bs && (v.dv == v.top ==> v.dv == 0)
  {
    NoZero(v.cs, segs, hdr);
    assert forall x :: x in v.bs ==> x in v.cs && v.cs[x].kind.Free? && x != v.dv;
  }

  lemma PickBinned(bs: map<int, int>, dv: int, dvsize: int, top: int, nb: int, p: int)
    requires LeastFit(bs, nb, p)
    requires dvsize < nb || (if nb < MIN_LARGE_SIZE then bs[p] == nb else bs[p] < dvsize)
    ensures Picks(bs, dv, dvsize, top, nb, p)
  {
  }

  // ---- memory from the system --------------------------------------------------------------------------------

  ghost predicate StartsAt(segs: seq<Segment>, k: int, a: int, mmapped: bool) {
    0 <= k < |segs| && segs[k].base == a && segs[k].mmapped == mmapped
  }

  ghost predicate AnyStartsAt(segs: seq<Segment>, a: int, mmapped: bool) { exists k :: StartsAt(segs, k, a, mmapped) }

  /** New space is all top, or extends the current segment, which holds top. */
  ghost predicate TakesFirst(room: Room, room': Room, s: Segment, p: int) {
    && room.segs == [] && room'.segs == [s] && p == First(s)
    && room' == room.(segs := [s], cs := room'.cs, top := room'.top, topsize := room'.topsize,
         trimCheck := room.trimThreshold, releaseChecks := MAX_RELEASE_CHECK_RATE)
  }

  ghost predicate Appends(room: Room, room': Room, size: int, p: int)
    requires room.segs != []
  {
    && p == room.top
    && room' == room.(segs := Shorter(room.segs, -size), cs := room'.cs, top := room'.top, topsize := room'.topsize,
         trimCheck := room.trimThreshold)
  }

  /** Segment `k` is extended downwards; a victim at its start grows by what the request leaves. */
  ghost predicate Prepends(room: Room, room': Room, k: int, base: int, nb: int, p: int)
    requires 0 <= k < |room.segs|
  {
    var first := First(room.segs[k]);
    && p == Align16(base)
    && room' == room.(segs := room.segs[k := Extended(room.segs[k], base)], cs := room'.cs, top := room'.top,
         topsize := room'.topsize, dv := if room.dv == first then p + nb else room.dv,
         dvsize := if room.dv == first then room.dvsize + (first - p - nb) else room.dvsize)
  }

  ghost predicate PrependsAny(room: Room, room': Room, base: int, end: int, mmapped: bool, nb: int, p: int) {
    exists k :: StartsAt(room.segs, k, end, mmapped) && Prepends(room, room', k, base, nb, p)
  }

  /** The current segment is closed with a record, and the new space becomes the current segment. */
  ghost predicate AddsSegment(room: Room, room': Room, s: Segment, p: int)
    requires room.segs != []
  {
    var last := |room.segs| - 1;
    && p == First(s)
    && (exists r :: room'.segs == room.segs[last := room.segs[last].(rec := r)] + [s])
    && room' == room.(segs := room'.segs, cs := room'.cs, top := room'.top, topsize := room'.topsize,
         trimCheck := room.trimThreshold)
  }

  lemma SegmentAdded(room: Room, room': Room, s: Segment, r: int)
    requires room.segs != [] && r >= 0
    requires var last := |room.segs| - 1; room'.segs == room.segs[last := room.segs[last].(rec := r)] + [s]
    requires room' == room.(segs := room'.segs, cs := room'.cs, top := room'.top, topsize := room'.topsize,
      trimCheck := room.trimThreshold)
    ensures AddsSegment(room, room', s, First(s)) && |room'.segs| == |room.segs| + 1
    ensures room'.segs[|room.segs|] == s
    ensures forall i :: 0 <= i < |room.segs| ==>
      room'.segs[i].base == room.segs[i].base && room'.segs[i].size == room.segs[i].size &&
      room'.segs[i].mmapped == room.segs[i].mmapped
  {
  }

  /** How new space is put to use, and where in it the request is served. */
  ghost predicate Takes(room: Room, room': Room, base: int, size: int, mmapped: bool, nb: int, p: int) {
    var segs, last := room.segs, |room.segs| - 1;
    && Vacant(base, size, segs, room.hdr, room.maps)
    && if segs == [] then TakesFirst(room, room', Segment(base, size, mmapped, 0), p)
       else if End(segs[last]) == base && segs[last].mmapped == mmapped then Appends(room, room', size, p)
       else if AnyStartsAt(segs, base + size, mmapped) then PrependsAny(room, room', base, base + size, mmapped, nb, p)
       else AddsSegment(room, room', Segment(base, size, mmapped, 0), p)
  }

  lemma FirstTaken(room: Room, room': Room, base: int, size: int, mmapped: bool, nb: int, p: int)
    requires TakesFirst(room, room', Segment(base, size, mmapped, 0), p)
    requires Vacant(base, size, room.segs, room.hdr, room.maps)
    ensures Takes(room, room', base, size, mmapped, nb, p)
  {
  }

  lemma Appended(room: Room, room': Room, base: int, size: int, mmapped: bool, nb: int, p: int)
    requires room.segs != [] && Appends(room, room', size, p) && Vacant(base, size, room.segs, room.hdr, room.maps)
    requires var last := room.segs[|room.segs| - 1]; End(last) == base && last.mmapped == mmapped
    ensures Takes(room, room', base, size, mmapped, nb, p)
  {
  }

  lemma Prepended(room: Room, room': Room, base: int, size: int, mmapped: bool, nb: int, p: int, k: int)
    requires StartsAt(room.segs, k, base + size, mmapped) && Prepends(room, room', k, base, nb, p)
    requires Vacant(base, size, room.segs, room.hdr, room.maps)
    requires var last := room.segs[|room.segs| - 1]; !(End(last) == base && last.mmapped == mmapped)
    ensures Takes(room, room', base, size, mmapped, nb, p)
  {
    hide Vacant, Prepends;
    assert AnyStartsAt(room.segs, base + size, mmapped);
  }

  lemma Added(room: Room, room': Room, base: int, size: int, mmapped: bool, nb: int, p: int)
    requires room.segs != [] && AddsSegment(room, room', Segment(base, size, mmapped, 0), p)
    requires Vacant(base, size, room.segs, room.hdr, room.maps) && !AnyStartsAt(room.segs, base + size, mmapped)
    requires var last := room.segs[|room.segs| - 1]; !(End(last) == base && last.mmapped == mmapped)
    ensures Takes(room, room', base, size, mmapped, nb, p)
  {
  }

  /** No two segments start at the same address. */
  lemma StartsOnce(m: Mem, v: View, segs: seq<Segment>, hdr: int, least: int, k: int)
    requires HeapOk(m, v, segs, hdr, least) && -1 <= k < |segs|
    ensures k >= 0 ==> forall mmapped :: AnyStartsAt(segs, segs[k].base, mmapped) ==> mmapped == segs[k].mmapped
  {
    HeapSegs(m, v, segs, hdr, least);
  }

  lemma PrependsServed(room: Room, mid: Room, room': Room, base: int, end: int, mmapped: bool, nb: int, p: int)
    requires PrependsAny(room, mid, base, end, mmapped, nb, p)
    requires room' == mid.(cs := room'.cs, top := room'.top, topsize := room'.topsize)
    ensures PrependsAny(room, room', base, end, mmapped, nb, p)
  {
    var k :| StartsAt(room.segs, k, end, mmapped) && Prepends(room, mid, k, base, nb, p);
    assert StartsAt(room.segs, k, end, mmapped) && Prepends(room, room', k, base, nb, p);
  }

  /** Serving the request from top. */
  lemma TakesServed(
    room: Room, mid: Room, room': Room, base: int, size: int, mmapped: bool, nb: int, p: int
  )
    requires Takes(room, mid, base, size, mmapped, nb, p)
    requires room' == mid.(cs := room'.cs, top := room'.top, topsize := room'.topsize)
    ensures Takes(room, room', base, size, mmapped, nb, p)
  {
    hide Vacant, StartsAt;
    if room.segs != [] && PrependsAny(room, mid, base, base + size, mmapped, nb, p) {
      PrependsServed(room, mid, room', base, base + size, mmapped, nb, p);
    }
  }

  /** From an extension at the break, else from a new segment. */
  ghost predicate Obtains(room: Room, room': Room, p: int, nb: nat, sys: Replies)
    requires Positive(room)
  {
    if !room.BreakRefused(nb, sys) then Takes(room, room', sys.morecore, room.Extension(nb, sys), false, nb, p)
    else Takes(room.(contiguous := false), room', sys.mmap, room.Asked(nb), true, nb, p)
  }

  /** The system grants a mapping for the chunk alone, else space for the heap. */
  ghost predicate Grants(room: Room, room': Room, p: int, nb: nat, sys: Replies)
    requires Positive(room)
  {
    if room.DirectRefused(nb, sys) then p !in room'.maps && Obtains(room, room', p, nb, sys)
    else
      p == Align16(sys.direct) && room' == room.(maps := room.maps[p := Mapping(sys.direct, room.Mapped(nb))])
  }

  /** Chunk `p` is handed out for `nb` bytes: from the heap if anything there fits, else from what the system grants. */
  ghost predicate Extends(room: Room, room': Room, p: int, nb: nat, sys: Replies)
    requires Positive(room)
  {
    if NoRoom(room.cs, nb) then Grants(room, room', p, nb, sys) else Serves(room, room', p, nb)
  }

  // ---- giving chunks back ------------------------------------------------------------------------------------

  /** How dispose_chunk ends: the chunk is absorbed by the victim, merged into top, or put into a bin. */
  datatype Outcome = Absorbed | IntoTop | IntoBin(start: int, size: int)

  ghost function HowDisposed(room: Room, p: int): Outcome
    requires p in room.cs && NextOf(room.cs, p) in room.cs
  {
    var q, n := MergeStart(room.cs, p), NextOf(room.cs, p);
    if n == room.top then IntoTop
    else if q == room.dv || n == room.dv then Absorbed
    else IntoBin(q, MergeEnd(room.cs, p) - q)
  }

  /** The room without live chunk `p`: merged with its free neighbours, it is part of top or the victim, or binned. */
  ghost function Disposed(room: Room, p: int): Room
    requires p in room.cs && NextOf(room.cs, p) in room.cs
  {
    var q := MergeStart(room.cs, p);
    var size, rest := MergeEnd(room.cs, p) - q, room.(cs := Freed(room.cs, p));
    match HowDisposed(room, p)
    case IntoTop =>
      var fused := q == room.dv;
      rest.(top := q, topsize := size, dv := if fused then 0 else room.dv, dvsize := if fused then 0 else room.dvsize)
    case Absorbed => rest.(dv := q, dvsize := size)
    case IntoBin(_, _) => rest
  }

  lemma DisposedBeside(room: Room, p: int)
    requires p in room.cs && NextOf(room.cs, p) in room.cs
    ensures var q, n := MergeStart(room.cs, p), NextOf(room.cs, p);
      var size, rest := MergeEnd(room.cs, p) - q, room.(cs := Freed(room.cs, p));
      && (n == room.top ==>
            HowDisposed(room, p) == IntoTop &&
            Disposed(room, p) == rest.(top := q, topsize := size, dv := if q == room.dv then 0 else room.dv,
              dvsize := if q == room.dv then 0 else room.dvsize))
      && (n != room.top && n == room.dv ==>
            HowDisposed(room, p) == Absorbed && Disposed(room, p) == rest.(dv := q, dvsize := size))
  {
    hide MergeStart, MergeEnd, Freed;
  }

  /** What sys_trim takes off top: whole units, at most half the address space at once from the break. */
  ghost function TrimAmount(room: Room, pad: nat, shrinks: bool): int
    requires room.granularity > 0 && room.topsize >= 0
  {
    if room.topsize <= pad || !shrinks || room.segs == [] then 0
    else
      var extra := TrimExtra(room.topsize, pad, room.granularity);
      if room.segs[|room.segs| - 1].mmapped || extra < HALF_MAX_SIZE_T then extra
      else HALF_MAX_SIZE_T + 1 - room.granularity
  }

  /** Top and its segment are `amount` bytes shorter. */
  ghost function TopCut(room: Room, amount: int): Room
    requires room.segs != [] && room.top in room.cs
  {
    if amount == 0 then room
    else
      room.(segs := Shorter(room.segs, amount), topsize := room.topsize - amount, trimCheck := room.trimThreshold,
        cs := Resettle(room.cs, room.top, TopEnd(room.cs, room.top, room.topsize - amount)))
  }

  /** Idle mapped segments are given back where the system agrees; a victim that fills one is a victim no more. */
  ghost predicate Sweeps(room: Room, room': Room, answers: nat -> bool) {
    && room.segs != []
    && Lives(room'.cs) == Lives(room.cs)
    && var idle := VictimIdle(room.cs, room.segs, room.dv, 0);
       room' == room.(segs := Staying(room.cs, room.segs, answers, 0), cs := room'.cs,
         dv := if idle then 0 else room.dv, dvsize := if idle then 0 else room.dvsize,
         releaseChecks := NextChecks(|room.segs| - 1))
  }

  function NextChecks(nsegs: int): nat { if nsegs > MAX_RELEASE_CHECK_RATE then nsegs else MAX_RELEASE_CHECK_RATE }

  /** sys_trim: top is cut, idle segments go, and if nothing could be given back, automatic trimming is turned off. */
  ghost predicate TrimsTo(room: Room, room': Room, pad: nat, sys: Replies) {
    if room.segs == [] || pad >= MAX_REQUEST || !Positive(room) || room.topsize < 0 || room.top !in room.cs then
      room' == room
    else
      var mid := TopCut(room, TrimAmount(room, pad + TOP_FOOT_SIZE, sys.shrinks));
      && Sweeps(mid, room'.(trimCheck := mid.trimCheck), sys.unmaps)
      && room'.trimCheck ==
         if room'.segs == room.segs && room.topsize > room.trimCheck then W64 - 1 else mid.trimCheck
  }

  lemma NoTrim(room: Room, pad: nat, shrinks: bool)
    requires room.granularity > 0 && 0 <= room.topsize && room.segs != [] && room.top in room.cs
    ensures room.topsize <= pad ==> TrimAmount(room, pad, shrinks) == 0 && TopCut(room, 0) == room
  {
  }

  lemma TrimsIs(room: Room, mid: Room, swept: Room, room': Room, pad: nat, amount: nat, r: nat, sys: Replies)
    requires Positive(room) && room.segs != [] && room.topsize >= 0 && room.top in room.cs && pad < MAX_REQUEST
    requires amount == TrimAmount(room, pad + TOP_FOOT_SIZE, sys.shrinks) && mid == TopCut(room, amount)
    requires Sweeps(mid, swept, sys.unmaps) && (r == 0 <==> swept.segs == mid.segs)
    requires room' == swept.(trimCheck := room'.trimCheck)
    requires room'.trimCheck == if amount + r == 0 && room'.topsize > swept.trimCheck then W64 - 1 else swept.trimCheck
    ensures TrimsTo(room, room', pad, sys) && (amount + r != 0 <==> room'.segs != room.segs)
  {
    hide Staying, TrimAmount, Resettle, TopEnd, VictimIdle, Lives;
    assert room'.(trimCheck := mid.trimCheck) == swept;
    if amount > 0 {
      assert room'.segs[|room'.segs| - 1] == mid.segs[|mid.segs| - 1];
      assert mid.segs[|mid.segs| - 1].size < room.segs[|room.segs| - 1].size;
    }
  }

  /** More than `pad` bytes are left, and at most one unit more if the system lets the segment shrink. */
  lemma TrimBounds(room: Room, room': Room, pad: nat, sys: Replies)
    requires TrimsTo(room, room', pad, sys) && Positive(room) && room.segs != [] && room.topsize > 0
    requires room.top in room.cs && Multiple(W64 / 2, room.granularity) && room.granularity < W64 / 2
    ensures room'.top == room.top && room'.topsize <= room.topsize
    ensures room'.topsize < room.topsize ==> room'.segs != room.segs && room'.topsize > pad + TOP_FOOT_SIZE
    ensures pad < MAX_REQUEST && sys.shrinks && room.topsize < HALF_MAX_SIZE_T ==>
      room'.topsize <= pad + TOP_FOOT_SIZE + room.granularity
  {
    hide Staying, Resettle, TopEnd, VictimIdle, Lives, TrimExtra, Multiple, Sweeps;
    if pad < MAX_REQUEST {
      var t, g := pad + TOP_FOOT_SIZE, room.granularity;
      var amount := TrimAmount(room, t, sys.shrinks);
      var mid := TopCut(room, amount);
      SweptTop(mid, room'.(trimCheck := mid.trimCheck), sys.unmaps);
      if room.topsize > t {
        var extra := TrimExtra(room.topsize, t, g);
        TrimLeavesPad(room.topsize, t, g);
        if extra >= HALF_MAX_SIZE_T { CapExtra(extra, g); }
      }
    }
  }

  lemma SweptTop(room: Room, room': Room, answers: nat -> bool)
    requires Sweeps(room, room', answers)
    ensures room'.top == room.top && room'.topsize == room.topsize && room'.segs != []
    ensures room'.segs == Staying(room.cs, room.segs, answers, 0)
    ensures room'.segs[|room'.segs| - 1] == room.segs[|room.segs| - 1]
  {
  }

  ghost predicate AllDistinct(segs: seq<Segment>) {
    forall i, j :: 0 <= i < j < |segs| ==> segs[i].base != segs[j].base
  }

  lemma {:induction false} StayingHas(cs: Chunks, segs: seq<Segment>, answers: nat -> bool, i: nat, j: nat)
    requires i < |segs| && j < |segs| && AllDistinct(segs)
    ensures segs[j] in Staying(cs, segs, answers, i) <==>
      i <= j && (j == |segs| - 1 || !Goes(cs, segs, answers, j))
    decreases |segs| - i
  {
    hide Goes;
    if i + 1 < |segs| { StayingHas(cs, segs, answers, i + 1, j); }
  }

  /** Cutting top does not make another segment idle or busy. */
  lemma TopCutIdle(m: Mem, v: View, room: Room, least: int, amount: int, j: nat)
    requires HeapOk(m, v, room.segs, room.hdr, least) && v.cs == room.cs && v.top == room.top
    requires v.topsize == room.topsize && j + 1 < |room.segs| && v.top in v.cs && 0 <= amount < room.topsize
    ensures var mid := TopCut(room, amount);
      Idle(mid.cs, mid.segs, j) == Idle(room.cs, room.segs, j) && mid.segs[j] == room.segs[j]
  {
    hide First, Tagged, Shape, AllMerged, ChunkOk;
    TopSegment(m, v, room.segs, room.hdr, least);
    FirstsAre(v.cs, room.segs, room.hdr, j);
    FirstWithin(v.cs, room.segs, room.hdr, j);
    TopNext(m, v, room.segs, room.hdr, least);
    var last := room.segs[|room.segs| - 1];
    assert End(room.segs[j]) <= last.base || End(last) <= room.segs[j].base;
  }

  lemma FirstWithin(cs: Chunks, segs: seq<Segment>, hdr: int, j: nat)
    requires Tile(cs, segs, hdr) && j < |segs|
    ensures segs[j].base <= First(segs[j]) < End(segs[j])
  {
    FirstsAre(cs, segs, hdr, j);
    assert ChunkOk(cs, segs, First(segs[j]));
  }

  lemma TopNext(m: Mem, v: View, segs: seq<Segment>, hdr: int, least: int)
    requires HeapOk(m, v, segs, hdr, least) && segs != [] && v.top in v.cs
    ensures NextOf(v.cs, v.top) == v.top + v.topsize
  {
  }

  /** A segment other than the current one is gone exactly if it was mapped and idle, and the system took it back. */
  lemma SweptOut(m: Mem, v: View, room: Room, room': Room, least: int, pad: nat, sys: Replies)
    requires HeapOk(m, v, room.segs, room.hdr, least) && v.cs == room.cs && v.top == room.top
    requires v.topsize == room.topsize && Positive(room) && room.segs != [] && pad < MAX_REQUEST
    requires Multiple(W64 / 2, room.granularity) && room.granularity < W64 / 2
    requires TrimsTo(room, room', pad, sys)
    ensures forall i :: 0 <= i < |room.segs| - 1 ==>
      (room.segs[i] in room'.segs <==> !Goes(room.cs, room.segs, sys.unmaps, i))
  {
    hide HeapOk, Staying, TrimAmount, Sweeps, VictimIdle, Lives, Idle, Multiple;
    TopSegment(m, v, room.segs, room.hdr, least);
    TrimBounds(room, room', pad, sys);
    var amount := TrimAmount(room, pad + TOP_FOOT_SIZE, sys.shrinks);
    var mid := TopCut(room, amount);
    SweptTop(mid, room'.(trimCheck := mid.trimCheck), sys.unmaps);
    HeapSegs(m, v, room.segs, room.hdr, least);
    assert AllDistinct(mid.segs);
    forall i | 0 <= i < |room.segs| - 1
      ensures room.segs[i] in room'.segs <==> !Goes(room.cs, room.segs, sys.unmaps, i)
    {
      TopCutIdle(m, v, room, least, amount, i);
      StayingHas(mid.cs, mid.segs, sys.unmaps, 0, i);
    }
  }

  /**
   * What a trim achieves. If the system lets the segment shrink, top is left with at most one unit above the padding;
   * a segment other than the current one is gone exactly if it was mapped and idle and the system took it back.
   */
  ghost predicate GivesBack(room: Room, room': Room, pad: nat, sys: Replies) {
    && room'.top == room.top && room'.topsize <= room.topsize
    && (room'.topsize < room.topsize ==> room'.segs != room.segs && room'.topsize > pad + TOP_FOOT_SIZE)
    && (pad < MAX_REQUEST && room.segs != [] && sys.shrinks && room.topsize < HALF_MAX_SIZE_T ==>
          room'.topsize <= pad + TOP_FOOT_SIZE + room.granularity)
    && (pad < MAX_REQUEST ==> forall i :: 0 <= i < |room.segs| - 1 ==>
          (room.segs[i] in room'.segs <==> !Goes(room.cs, room.segs, sys.unmaps, i)))
  }

  ghost predicate Trims(room: Room, room': Room, pad: nat, sys: Replies) {
    TrimsTo(room, room', pad, sys) && GivesBack(room, room', pad, sys)
  }

  lemma TrimsBack(m: Mem, v: View, room: Room, room': Room, least: int, pad: nat, sys: Replies)
    requires HeapOk(m, v, room.segs, room.hdr, least) && Shows(room, v) && Positive(room)
    requires Multiple(W64 / 2, room.granularity) && room.granularity < W64 / 2 && TrimsTo(room, room', pad, sys)
    ensures Trims(room, room', pad, sys)
  {
    hide HeapOk, Multiple, Goes;
    TopThere(m, v, room.segs, room.hdr, least);
    if room.segs != [] {
      assert TrimsTo(room, room', pad, sys);
      hide TrimsTo;
      TrimBounds(room, room', pad, sys);
      if pad < MAX_REQUEST { SweptOut(m, v, room, room', least, pad, sys); }
    }
  }

  /** dlfree of chunk `p` of a segment: after disposing of it, top is trimmed or idle segments are given back if due. */
  ghost predicate Frees(room: Room, room': Room, p: int, sys: Replies)
    requires p in room.cs && NextOf(room.cs, p) in room.cs
  {
    var mid := Disposed(room, p);
    match HowDisposed(room, p)
    case IntoTop => if mid.topsize > mid.trimCheck then Trims(mid, room', 0, sys) else room' == mid
    case Absorbed => room' == mid
    case IntoBin(_, size) =>
      var checks := if room.releaseChecks == 0 then W64 - 1 else room.releaseChecks - 1;
      if size < MIN_LARGE_SIZE then room' == mid
      else if checks == 0 then Sweeps(mid.(releaseChecks := 0), room', sys.unmaps)
      else room' == mid.(releaseChecks := checks)
  }

  /** dlfree of any chunk. */
  ghost predicate GivesUp(room: Room, room': Room, p: int, sys: Replies) {
    if p in room.maps then room' == room.(maps := room.maps - {p})
    else p in room.cs && NextOf(room.cs, p) in room.cs && Frees(room, room', p, sys)
  }

  /** The victim is the free chunk that holds the old one; there is none if the old one has become part of top. */
  ghost predicate VictimHeld(dv: int, room': Room) {
    if room'.dv == 0 then dv == 0 || room'.top <= dv < room'.top + room'.topsize
    else room'.dv <= dv < room'.dv + room'.dvsize
  }

  ghost predicate HeldOn(room: Room, room': Room) {
    forall x {:trigger VictimHeld(x, room')} :: VictimHeld(x, room) ==> VictimHeld(x, room')
  }

  /** The room is that of the view. */
  ghost predicate Shows(room: Room, v: View) {
    room.cs == v.cs && room.dv == v.dv && room.dvsize == v.dvsize && room.top == v.top && room.topsize == v.topsize
  }

  lemma DisposedHolds(m: Mem, v: View, segs: seq<Segment>, hdr: int, least: int, room: Room, p: int)
    requires HeapOk(m, v, segs, hdr, least) && Shows(room, v) && p in v.cs && v.cs[p].kind.Live?
    ensures NextOf(v.cs, p) in v.cs && HeldOn(room, Disposed(room, p))
  {
    hide LayoutOk, Tagged, Binnable, FreesBinned, Above, Freed, ChunkSize, Cinuse, Pinuse;
    var q, e, k := DisposeFacts(m, v, segs, hdr, least, p);
    LaidOut(v.cs, segs, hdr, p);
    var room', n := Disposed(room, p), NextOf(v.cs, p);
    assert q <= p < n <= e;
    assert n == v.top ==> e == v.top + v.topsize;
    assert n == v.dv ==> e == v.dv + v.dvsize;
    assert q == v.dv ==> q + v.dvsize == p;
    forall x | VictimHeld(x, room) ensures VictimHeld(x, room') { }
  }

  lemma LaidOut(cs: Chunks, segs: seq<Segment>, hdr: int, p: int)
    requires LayoutOk(cs, segs, hdr) && p in cs && cs[p].kind.Live?
    ensures NextOf(cs, p) in cs && 0 !in cs && forall x :: x in cs ==> cs[x].size > 0
  {
    At(cs, segs, hdr, p);
    NoZero(cs, segs, hdr);
    forall x | x in cs ensures cs[x].size > 0 { Placed(cs, segs, hdr, x); }
  }

  /** The room when the chunks in `gone` have been disposed of, in any order, and nothing is trimmed yet. */
  ghost predicate Clears(room: Room, mid: Room, gone: set<int>) {
    && SameMemory(room, mid.(maps := room.maps)) && mid.maps == room.maps - gone
    && LayoutOk(mid.cs, mid.segs, mid.hdr) && Lives(mid.cs) == Lives(room.cs) - gone
    && TopOk(mid.cs, mid.segs, mid.top, mid.topsize) && VictimOk(mid.cs, mid.dv, mid.dvsize)
    && VictimHeld(room.dv, mid)
  }

  lemma ClearsIs(
    m: Mem, v: View, m': Mem, v': View, segs: seq<Segment>, hdr: int, least: int, room: Room, mid: Room, gone: set<int>
  )
    requires HeapOk(m, v, segs, hdr, least) && MapsOk(m, room.maps, segs, hdr, least) && Shows(room, v)
    requires HeapOk(m', v', segs, hdr, least) && MapsOk(m', mid.maps, segs, hdr, least) && Shows(mid, v')
    requires mid.segs == segs && mid.hdr == hdr && SameMemory(room, mid.(maps := room.maps)) && HeldOn(room, mid)
    requires mid.maps == room.maps - gone
    requires Lives(mid.cs) + MappedLives(mid.maps) == (Lives(room.cs) + MappedLives(room.maps)) - gone
    ensures Clears(room, mid, gone)
  {
    hide MapsOk, Lives, MappedLives, Tagged, Binnable, FreesBinned, Above, LayoutOk, SameMemory;
    HeldFirst(m, v, segs, hdr, least, room);
    LivesApart(m, v, segs, hdr, least, room.maps);
    LivesApart(m', v', segs, hdr, least, mid.maps);
    var a, b := Lives(mid.cs), Lives(room.cs) - gone;
    var both := (Lives(room.cs) + MappedLives(room.maps)) - gone;
    forall p ensures p in a <==> p in b { assert p in a + MappedLives(mid.maps) <==> p in both; }
    forall p | p in a ensures a[p] == b[p] { assert (a + MappedLives(mid.maps))[p] == both[p]; }
  }

  lemma HeldFirst(m: Mem, v: View, segs: seq<Segment>, hdr: int, least: int, room: Room)
    requires HeapOk(m, v, segs, hdr, least) && Shows(room, v)
    ensures VictimHeld(room.dv, room)
  {
    if v.dv != 0 { At(v.cs, segs, hdr, v.dv); }
  }

  lemma LivesApart(m: Mem, v: View, segs: seq<Segment>, hdr: int, least: int, maps: map<int, Mapping>)
    requires HeapOk(m, v, segs, hdr, least) && MapsOk(m, maps, segs, hdr, least)
    ensures forall p :: p in MappedLives(maps) <==> p in maps
    ensures forall p :: p in Lives(v.cs) ==> p !in maps
  {
    forall p | p in Lives(v.cs) ensures p !in maps { ChunkNotMapped(m, v, segs, hdr, least, maps, p); }
  }

  /** internal_bulk_free. */
  ghost predicate GivesAll(room: Room, room': Room, gone: set<int>, sys: Replies) {
    exists mid :: Clears(room, mid, gone) &&
      if mid.topsize > mid.trimCheck then Trims(mid, room', 0, sys) else room' == mid
  }

  // ---- resizing in place and aligning ------------------------------------------------------------------------

  /** Chunk `p` keeps its first `nb` bytes and the rest is disposed of; or its first `lead` bytes are. */
  ghost function TailGiven(room: Room, p: int, nb: int): Room {
    var cut := room.(cs := Cut(room.cs, p, nb));
    if p + nb in cut.cs && NextOf(cut.cs, p + nb) in cut.cs then Disposed(cut, p + nb) else room
  }

  ghost function HeadGiven(room: Room, p: int, lead: int): Room {
    var cut := room.(cs := Cut(room.cs, p, lead));
    if p in cut.cs && NextOf(cut.cs, p) in cut.cs then Disposed(cut, p) else room
  }

  /** Chunk `p` without room that `nb` bytes do not need, if that is more than the least chunk. */
  ghost function Trimmed(room: Room, p: int, nb: int): Room
    requires p in room.cs
  {
    if room.cs[p].size > nb + MIN_CHUNK_SIZE then TailGiven(room, p, nb) else room
  }

  /** try_realloc_chunk: chunk `p` is resized where it is. */
  ghost predicate ResizesTo(room: Room, room': Room, p: int, nb: int) {
    && p in room.cs && NextOf(room.cs, p) in room.cs
    && var size, next := room.cs[p].size, NextOf(room.cs, p);
       if size >= nb then room' == if size - nb >= MIN_CHUNK_SIZE then TailGiven(room, p, nb) else room
       else
         var total := size + room.cs[next].size;
         if next == room.top then room' == room.(cs := room'.cs, top := p + nb, topsize := total - nb)
         else if next != room.dv then room' == room.(cs := room'.cs)
         else if total - nb >= MIN_CHUNK_SIZE then room' == room.(cs := room'.cs, dv := p + nb, dvsize := total - nb)
         else room' == room.(cs := room'.cs, dv := 0, dvsize := 0)
  }

  /** What is cut off free space that a chunk grew into lies between chunks in use, and so goes into a bin. */
  lemma RestBinned(
    m: Mem, v: View, m': Mem, v': View, segs: seq<Segment>, hdr: int, least: int, p: int, nb: int, room: Room
  )
    requires HeapOk(m, v, segs, hdr, least) && HeapOk(m', v', segs, hdr, least) && v'.dv == v.dv && v'.top == v.top
    requires p in v.cs && NextOf(v.cs, p) in v.cs && v.cs[NextOf(v.cs, p)].kind.Free?
    requires p in Lives(v'.cs) && p + nb in Lives(v'.cs) && Lives(v'.cs)[p] == nb
    requires p + nb + Lives(v'.cs)[p + nb] == NextOf(v.cs, NextOf(v.cs, p))
    requires room.cs == v'.cs && room.dv == v'.dv && room.top == v'.top
    ensures p + nb in room.cs && NextOf(room.cs, p + nb) in room.cs
    ensures Disposed(room, p + nb) == room.(cs := Freed(room.cs, p + nb))
  {
    hide Tagged, AllMerged, Binnable, FreesBinned, Above, SegsOk, Freed;
    var r, e := p + nb, NextOf(v.cs, NextOf(v.cs, p));
    At(v'.cs, segs, hdr, p);
    At(v'.cs, segs, hdr, r);
    AfterUnused(v.cs, segs, hdr, NextOf(v.cs, p));
    assert v'.cs[r].prev == p;
  }

  /** internal_memalign: chunk `p` is moved up to an aligned spot and spare room at both ends is given back. */
  ghost predicate Aligns(room: Room, room': Room, p: int, q: int, a: nat, nb: int)
    requires a > 16 && p >= 0
  {
    && q == (if Multiple(p + 16, a) then p else AlignedSpot(p, a))
    && if p in room.maps then room' == if q == p then room else room.(maps := (room.maps - {p})[q := room.maps[p]])
       else
         var moved := if q == p then room else HeadGiven(room, p, q - p);
         q in moved.cs && room' == Trimmed(moved, q, nb)
  }

  /** What is asked of malloc so that the bytes fit at alignment `a`, and the size of that request. */
  function Slack(a: nat, bytes: nat): nat { Request2Size(bytes) + a + MIN_CHUNK_SIZE - 8 }
  function SlackSize(a: nat, bytes: nat): nat { Request2Size(Slack(a, bytes)) }

  /** A chunk with slack for the alignment is handed out and aligned. */
  ghost predicate ExtendsAligned(room: Room, room': Room, q: int, a: nat, bytes: nat, sys: Replies)
    requires Positive(room) && a > 16
  {
    exists p: nat, mid :: Extends(room, mid, p, SlackSize(a, bytes), sys) &&
      Aligns(mid, room', p, q, a, Request2Size(bytes))
  }
}
