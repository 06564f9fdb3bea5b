/**
 * Boundary tags: the head word of a chunk holds its size, whether it is in use (bit 1) and whether the chunk before
 * it is in use (bit 0); the size of a free chunk is repeated in the first word after it.
 */
module Tags {
  import opened Memory
  import opened Layout

  const FENCEPOST_HEAD := 11

  predicate PrevInUse(cs: Chunks, p: int)
    requires p in cs
  {
    cs[p].prev == 0 || (cs[p].prev in cs && InUse(cs[cs[p].prev].kind))
  }

  function HeadWord(cs: Chunks, p: int): int
    requires p in cs
  {
    if cs[p].kind.Fence? then FENCEPOST_HEAD
    else cs[p].size + (if PrevInUse(cs, p) then 1 else 0) + (if InUse(cs[p].kind) then 2 else 0)
  }

  ghost predicate TagOk(m: Mem, cs: Chunks, p: int)
    requires p in cs
  {
    Head(m, p) == HeadWord(cs, p) && (cs[p].kind.Free? ==> Foot(m, p + cs[p].size) == cs[p].size)
  }

  ghost predicate Tagged(m: Mem, cs: Chunks) {
    forall p {:trigger TagOk(m, cs, p)} :: p in cs ==> TagOk(m, cs, p)
  }

  // ---- the tag macros ----------------------------------------------------------------------------------

  function SetBit0(h: int): int { if h % 2 == 0 then h + 1 else h }
  function ClearBit0(h: int): int { h - h % 2 }

  function ChunkSize(m: Mem, p: int): int { SizeOf(Head(m, p)) }
  predicate Pinuse(m: Mem, p: int) { Head(m, p) % 2 == 1 }
  predicate Cinuse(m: Mem, p: int) { Head(m, p) / 2 % 2 == 1 }

  function SetPinuse(m: Mem, p: int): Mem { SetHead(m, p, SetBit0(Head(m, p))) }
  function ClearPinuse(m: Mem, p: int): Mem { SetHead(m, p, ClearBit0(Head(m, p))) }

  /** set_inuse: keeps the pinuse bit of `p`. */
  function SetInuse(m: Mem, p: int, s: int): Mem { SetPinuse(SetHead(m, p, s + Head(m, p) % 2 + 2), p + s) }

  /** set_inuse_and_pinuse. */
  function SetInuseAndPinuse(m: Mem, p: int, s: int): Mem { SetPinuse(SetHead(m, p, s + 3), p + s) }

  /** set_size_and_pinuse_of_inuse_chunk. */
  function SetInuseHead(m: Mem, p: int, s: int): Mem { SetHead(m, p, s + 3) }

  /** set_size_and_pinuse_of_free_chunk. */
  function SetFreeHead(m: Mem, p: int, s: int): Mem { SetFoot(SetHead(m, p, s + 1), p + s, s) }

  /** set_free_with_pinuse. */
  function SetFreeBefore(m: Mem, p: int, s: int, n: int): Mem { SetFreeHead(ClearPinuse(m, n), p, s) }

  /** Only the heads at `hs` and the feet at `ls` differ. */
  ghost predicate Edited(m: Mem, m': Mem, hs: set<int>, ls: set<int>) {
    && (forall a :: a !in hs ==> Hi(m', a) == Hi(m, a))
    && (forall a :: a !in ls ==> Lo(m', a) == Lo(m, a))
  }

  lemma SetInuseEdits(m: Mem, p: int, s: int)
    requires s != 0
    ensures var m' := SetInuse(m, p, s);
            && Edited(m, m', {p, p + s}, {}) && Head(m', p) == s + Head(m, p) % 2 + 2
            && Head(m', p + s) == SetBit0(Head(m, p + s))
  {
  }

  lemma SetInuseAndPinuseEdits(m: Mem, p: int, s: int)
    requires s != 0
    ensures var m' := SetInuseAndPinuse(m, p, s);
            Edited(m, m', {p, p + s}, {}) && Head(m', p) == s + 3 && Head(m', p + s) == SetBit0(Head(m, p + s))
  {
  }

  lemma SetFreeHeadEdits(m: Mem, p: int, s: int)
    ensures var m' := SetFreeHead(m, p, s); Edited(m, m', {p}, {p + s}) && Head(m', p) == s + 1 && Foot(m', p + s) == s
  {
  }

  lemma SetFreeBeforeEdits(m: Mem, p: int, s: int, n: int)
    requires p != n
    ensures var m' := SetFreeBefore(m, p, s, n);
            && Edited(m, m', {p, n}, {p + s}) && Head(m', p) == s + 1 && Foot(m', p + s) == s
            && Head(m', n) == ClearBit0(Head(m, n))
  {
  }

  lemma EditedTrans(m: Mem, m1: Mem, m2: Mem, hs: set<int>, ls: set<int>, hs': set<int>, ls': set<int>)
    requires Edited(m, m1, hs, ls) && Edited(m1, m2, hs', ls')
    ensures Edited(m, m2, hs + hs', ls + ls')
  {
  }

  // ---- tags of a changed layout --------------------------------------------------------------------------

  /** Chunk `q` looks the same to its tags in both layouts. */
  ghost predicate SameTag(cs: Chunks, cs': Chunks, q: int) {
    q in cs && q in cs' && cs'[q].size == cs[q].size && cs'[q].kind == cs[q].kind && PrevInUse(cs, q) == PrevInUse(cs',
        q)
  }

  lemma TagsFrame(m: Mem, m': Mem, cs: Chunks, cs': Chunks, segs: seq<Segment>, hdr: int, hs: set<int>, ls: set<int>)
    requires Tagged(m, cs) && Edited(m, m', hs, ls)
    requires forall q :: q in cs' && q in hs ==> TagOk(m', cs', q)
    requires forall q :: q in cs' && q !in hs ==> SameTag(cs, cs', q) && (cs[q].kind.Free? ==> q + cs[q].size !in ls)
    ensures Tagged(m', cs')
  {
    forall q | q in cs' ensures TagOk(m', cs', q) {
      if q !in hs { assert TagOk(m, cs, q) && SameTag(cs, cs', q); }
    }
  }

  lemma FusedTags(m: Mem, m': Mem, cs: Chunks, cs': Chunks, segs: seq<Segment>, hdr: int, q: int, e: int, k: Kind)
    requires Tile(cs, segs, hdr) && Shape(cs, segs) && Tile(cs', segs, hdr) && Fused(cs, cs', q, e, k) && Tagged(m, cs)
    requires Edited(m, m', {q, e}, {e})
    requires Head(m', q) == HeadWord(cs', q) && Head(m', e) == HeadWord(cs', e) && (k.Free? ==> Foot(m', e) == e - q)
    ensures Tagged(m', cs')
  {
    hide SegsOk, PlaceOk, Shape, Tile, ChunkOk;
    forall x | x in cs' && x != q && x != e ensures SameTag(cs, cs', x) && (cs[x].kind.Free? ==> x + cs[x].size != e) {
      FusedSame(cs, cs', segs, q, e, k, x) by {
        At(cs, segs, hdr, x);
        Placed(cs', segs, hdr, x);
        Placed(cs', segs, hdr, e);
      }
    }
    assert TagOk(m, cs, e);
    Placed(cs, segs, hdr, e);
    TagsFrame(m, m', cs, cs', segs, hdr, {q, e}, {e});
  }

  lemma Placed(cs: Chunks, segs: seq<Segment>, hdr: int, p: int)
    requires Tile(cs, segs, hdr) && p in cs
    ensures ChunkOk(cs, segs, p) && 0 < cs[p].size
  {
    assert ChunkOk(cs, segs, p);
  }

  lemma FusedSame(cs: Chunks, cs': Chunks, segs: seq<Segment>, q: int, e: int, k: Kind, x: int)
    requires Fused(cs, cs', q, e, k) && x in cs' && x != q && x != e && x in cs
    requires ChunkOk(cs, segs, x) && ChunkOk(cs', segs, x) && ChunkOk(cs', segs, e)
    requires cs[x].kind.Free? ==> Inner(cs, segs, x)
    ensures SameTag(cs, cs', x) && (cs[x].kind.Free? ==> x + cs[x].size != e)
  {
    hide PlaceOk;
    assert cs'[x] == cs[x];
    var y := cs[x].prev;
    if y != 0 {
      assert y in cs' && y in cs;
    }
  }

  lemma SplitTags(m: Mem, m': Mem, cs: Chunks, segs: seq<Segment>, hdr: int, p: int, a: int, k1: Kind, k2: Kind)
    requires Tile(cs, segs, hdr) && Shape(cs, segs) && Tagged(m, cs) && Inner(cs, segs, p) && NextOf(cs, p) in cs
    requires 0 < a < cs[p].size && p + a !in cs && !k1.Free? && Tile(Split(cs, p, a, k1, k2), segs, hdr)
    requires var cs', r, n := Split(cs, p, a, k1, k2), p + a, NextOf(cs, p);
             && Edited(m, m', {p, r, n}, {n})
             && Head(m', p) == HeadWord(cs', p) && Head(m', r) == HeadWord(cs', r) && Head(m', n) == HeadWord(cs', n)
             && (k2.Free? ==> Foot(m', n) == cs[p].size - a)
    ensures Tagged(m', Split(cs, p, a, k1, k2))
  {
    hide SegsOk, PlaceOk, Shape, Tile, ChunkOk;
    var cs', r, n := Split(cs, p, a, k1, k2), p + a, NextOf(cs, p);
    forall x | x in cs' && x != p && x != r && x != n
      ensures SameTag(cs, cs', x) && (cs[x].kind.Free? ==> x + cs[x].size != n)
    {
      SplitSame(cs, segs, p, a, k1, k2, x) by {
        At(cs, segs, hdr, x);
        Placed(cs, segs, hdr, p);
        Placed(cs', segs, hdr, n);
      }
    }
    assert TagOk(m, cs, n);
    Placed(cs, segs, hdr, n);
    TagsFrame(m, m', cs, cs', segs, hdr, {p, r, n}, {n});
  }

  lemma SplitSame(cs: Chunks, segs: seq<Segment>, p: int, a: int, k1: Kind, k2: Kind, x: int)
    requires p in cs && NextOf(cs, p) in cs && Inner(cs, segs, p) && 0 < a < cs[p].size && p + a !in cs
    requires x in cs && x != p && x != p + a && x != NextOf(cs, p)
    requires ChunkOk(cs, segs, x) && ChunkOk(cs, segs, p) && NextOf(cs, p) in Split(cs, p, a, k1, k2)
    requires cs[x].kind.Free? ==> Inner(cs, segs, x)
    ensures SameTag(cs, Split(cs, p, a, k1, k2), x) && (cs[x].kind.Free? ==> x + cs[x].size != NextOf(cs, p))
  {
    hide PlaceOk;
    var cs' := Split(cs, p, a, k1, k2);
    assert cs'[x] == cs[x];
    var y := cs[x].prev;
    if y != 0 { assert y in cs && y != p; }
  }

  // ---- the head words the macros produce ---------------------------------------------------------------------

  lemma PinWord(cs: Chunks, cs': Chunks, n: int)
    requires n in cs && n in cs' && cs'[n].size == cs[n].size && cs'[n].kind == cs[n].kind
    requires !cs[n].kind.Fence? && cs[n].size % 16 == 0
    ensures HeadWord(cs', n) == if PrevInUse(cs', n) then SetBit0(HeadWord(cs, n)) else ClearBit0(HeadWord(cs, n))
    ensures HeadWord(cs, n) % 2 == if PrevInUse(cs, n) then 1 else 0
  {
    hide PrevInUse, InUse;
    Parity(cs[n].size, if PrevInUse(cs, n) then 1 else 0, if InUse(cs[n].kind) then 2 else 0);
  }

  lemma Parity(s: int, b: int, c: int)
    requires s % 16 == 0 && 0 <= b <= 1 && (c == 0 || c == 2)
    ensures (s + b + c) % 2 == b
  {
    var k := s / 16;
    assert s + b + c == 2 * (8 * k + c / 2) + b;
  }

  /** The chunk before free or top space is in use. */
  lemma FreeFollowsUse(cs: Chunks, segs: seq<Segment>, hdr: int, p: int)
    requires LayoutOk(cs, segs, hdr) && p in cs && (cs[p].kind.Free? || cs[p].kind.Top?)
    ensures PrevInUse(cs, p)
  {
    var b := cs[p].prev;
    At(cs, segs, hdr, p);
    if b != 0 {
      At(cs, segs, hdr, b);
      assert Merged(cs, b);
    }
  }

  /** The chunk after a live, free or top chunk, and what its pinuse bit says. */
  lemma NextTag(cs: Chunks, segs: seq<Segment>, hdr: int, p: int)
    requires Tile(cs, segs, hdr) && Shape(cs, segs) && p in cs && (Plain(cs[p].kind) || cs[p].kind.Top?)
    ensures var n := NextOf(cs, p);
            && Inner(cs, segs, p) && n in cs && !cs[n].kind.Fence? && cs[n].prev == p && cs[n].size % 16 == 0
            && 0 < cs[n].size
            && PrevInUse(cs, n) == cs[p].kind.Live?
    ensures cs[p].size % 16 == 0 && 0 < cs[p].size && 0 < p && (cs[NextOf(cs, p)].kind.Tail? <==> cs[p].kind.Top?)
  {
    At(cs, segs, hdr, p);
    At(cs, segs, hdr, NextOf(cs, p));
  }

  /** A whole free chunk is handed out. */
  lemma TakeTags(m: Mem, m': Mem, cs: Chunks, segs: seq<Segment>, hdr: int, p: int)
    requires LayoutOk(cs, segs, hdr) && Tagged(m, cs) && p in cs && cs[p].kind.Free? && NextOf(cs, p) in cs
    requires var n := NextOf(cs, p);
             Edited(m, m', {p, n}, {}) && Head(m', p) == cs[p].size + 3 && Head(m', n) == SetBit0(Head(m, n))
    ensures Tagged(m', Retag(cs, p, Live))
  {
    var cs', n := Retag(cs, p, Live), NextOf(cs, p);
    NextTag(cs, segs, hdr, p);
    FreeFollowsUse(cs, segs, hdr, p);
    RetagFuses(cs, segs, hdr, p, Live);
    ShapeAfterRetag(cs, segs, hdr, p, Live);
    assert TagOk(m, cs, n);
    hide Tile, Shape, LayoutOk, AllMerged, SetBit0;
    PinWord(cs, cs', n);
    FusedTags(m, m', cs, cs', segs, hdr, p, n, Live);
  }

  /** Free or top space is split, its first part handed out. */
  lemma CarveTags(m: Mem, m': Mem, cs: Chunks, segs: seq<Segment>, hdr: int, p: int, nb: int)
    requires LayoutOk(cs, segs, hdr) && Tagged(m, cs) && p in cs && (cs[p].kind.Free? || cs[p].kind.Top?)
    requires NextOf(cs, p) in cs && MIN_CHUNK_SIZE <= nb < cs[p].size && nb % 16 == 0
    requires cs[p].kind.Free? ==> nb + MIN_CHUNK_SIZE <= cs[p].size
    requires var r, n, rs := p + nb, NextOf(cs, p), cs[p].size - nb;
             && Edited(m, m', {p, r}, {n}) && Head(m', p) == nb + 3 && Head(m', r) == rs + 1
             && (cs[p].kind.Free? ==> Foot(m', n) == rs)
    ensures Tagged(m', Split(cs, p, nb, Live, cs[p].kind))
  {
    var k, r, n := cs[p].kind, p + nb, NextOf(cs, p);
    var cs' := Split(cs, p, nb, Live, k);
    NextTag(cs, segs, hdr, p);
    FreeFollowsUse(cs, segs, hdr, p);
    ShapeAfterSplit(cs, segs, hdr, p, nb, Live, k);
    NextTag(cs', segs, hdr, p);
    NextTag(cs', segs, hdr, r);
    assert TagOk(m, cs, n);
    Placed(cs, segs, hdr, p);
    hide Tile, Shape, LayoutOk, AllMerged;
    assert PrevInUse(cs', p);
    SplitTags(m, m', cs, segs, hdr, p, nb, Live, k);
  }

  /** A live chunk is split into two live ones. */
  lemma CutTags(m: Mem, m': Mem, cs: Chunks, segs: seq<Segment>, hdr: int, p: int, a: int)
    requires Tile(cs, segs, hdr) && Shape(cs, segs) && Tagged(m, cs) && p in cs && cs[p].kind.Live?
    requires NextOf(cs, p) in cs && MIN_CHUNK_SIZE <= a <= cs[p].size - MIN_CHUNK_SIZE && a % 16 == 0
    requires var r, n, rs := p + a, NextOf(cs, p), cs[p].size - a;
             && Edited(m, m', {p, r, n}, {}) && Head(m', p) == a + Head(m, p) % 2 + 2 && Head(m', r) == rs + 3
             && Head(m', n) == SetBit0(Head(m, n))
    ensures Tagged(m', Split(cs, p, a, Live, Live))
  {
    var r, n := p + a, NextOf(cs, p);
    var cs' := Split(cs, p, a, Live, Live);
    NextTag(cs, segs, hdr, p);
    ShapeAfterSplit(cs, segs, hdr, p, a, Live, Live);
    NextTag(cs', segs, hdr, p);
    NextTag(cs', segs, hdr, r);
    assert TagOk(m, cs, n) && TagOk(m, cs, p);
    Placed(cs, segs, hdr, p);
    SplitPrev(cs, segs, p, a, Live, Live);
    hide Tile, Shape, SetBit0;
    PinWord(cs, cs', n);
    PinWord(cs, cs, p);
    SplitTags(m, m', cs, segs, hdr, p, a, Live, Live);
  }

  lemma SplitPrev(cs: Chunks, segs: seq<Segment>, p: int, a: int, k1: Kind, k2: Kind)
    requires p in cs && NextOf(cs, p) in cs && ChunkOk(cs, segs, p) && p + a !in cs && 0 < a < cs[p].size
    ensures p in Split(cs, p, a, k1, k2) && PrevInUse(Split(cs, p, a, k1, k2), p) == PrevInUse(cs, p)
  {
  }

  lemma PrevBefore(cs: Chunks, segs: seq<Segment>, hdr: int, p: int)
    requires Tile(cs, segs, hdr) && p in cs
    ensures ChunkOk(cs, segs, p) && (cs[p].prev == 0 || cs[p].prev < p)
  {
    assert ChunkOk(cs, segs, p);
    if cs[p].prev != 0 { assert ChunkOk(cs, segs, cs[p].prev); }
  }

  lemma FusedPrev(cs: Chunks, cs': Chunks, segs: seq<Segment>, q: int, e: int, k: Kind)
    requires Fused(cs, cs', q, e, k) && ChunkOk(cs, segs, q) && (cs[q].prev == 0 || cs[q].prev < q)
    ensures PrevInUse(cs', q) == PrevInUse(cs, q)
  {
    var b := cs[q].prev;
    if b != 0 { assert b in cs' && cs'[b] == cs[b]; }
  }

  /** A live chunk takes over the live or free chunk after it. */
  lemma JoinTags(m: Mem, m': Mem, cs: Chunks, segs: seq<Segment>, hdr: int, p: int)
    requires Tile(cs, segs, hdr) && Shape(cs, segs) && Tagged(m, cs) && p in cs && cs[p].kind.Live?
    requires NextOf(cs, p) in cs && Plain(cs[NextOf(cs, p)].kind) && NextOf(cs, NextOf(cs, p)) in cs
    requires var n := NextOf(cs, p);
             var e := NextOf(cs, n);
             && Edited(m, m', {p, e}, {}) && Head(m', p) == cs[p].size + cs[n].size + Head(m, p) % 2 + 2
             && Head(m', e) == SetBit0(Head(m, e))
    ensures Tagged(m', Join(cs, p, Live))
  {
    var n := NextOf(cs, p);
    var e := NextOf(cs, n);
    var cs' := Join(cs, p, Live);
    NextTag(cs, segs, hdr, p);
    NextTag(cs, segs, hdr, n);
    ShapeAfterJoin(cs, segs, hdr, p, Live);
    JoinFuses(cs, segs, hdr, p, Live);
    NextTag(cs', segs, hdr, p);
    assert TagOk(m, cs, e) && TagOk(m, cs, p);
    FusedPrev(cs, cs', segs, p, e, Live) by { PrevBefore(cs, segs, hdr, p); }
    hide Tile, Shape, SetBit0;
    PinWord(cs, cs', e);
    PinWord(cs, cs, p);
    FusedTags(m, m', cs, cs', segs, hdr, p, e, Live);
  }

  /** The tags a joined chunk would have. */
  ghost function Joined(m: Mem, cs: Chunks, p: int, k: Kind): Mem
    requires p in cs && NextOf(cs, p) in cs && NextOf(cs, NextOf(cs, p)) in cs
    requires cs[p].size > 0 && cs[NextOf(cs, p)].size > 0
  {
    var e, cs' := NextOf(cs, NextOf(cs, p)), Join(cs, p, k);
    SetFoot(SetHead(SetHead(m, p, HeadWord(cs', p)), e, HeadWord(cs', e)), e, e - p)
  }

  lemma JoinedTags(m: Mem, cs: Chunks, segs: seq<Segment>, hdr: int, p: int, k: Kind)
    requires Tile(cs, segs, hdr) && Shape(cs, segs) && Tagged(m, cs) && p in cs && cs[p].kind.Live?
    requires NextOf(cs, p) in cs && NextOf(cs, NextOf(cs, p)) in cs && cs[p].size > 0 && cs[NextOf(cs, p)].size > 0
    requires var n := NextOf(cs, p); if cs[n].kind.Top? then k.Top? else Plain(cs[n].kind) && Plain(k)
    ensures var cs1, m1, e := Join(cs, p, k), Joined(m, cs, p, k), NextOf(cs, NextOf(cs, p));
            && Tile(cs1, segs, hdr) && Shape(cs1, segs) && Tagged(m1, cs1)
            && Edited(m, m1, {p, e}, {e}) && Head(m1, p) % 2 == Head(m, p) % 2
            && Head(m1, e) == (if k.Live? then SetBit0(Head(m, e)) else ClearBit0(Head(m, e)))
  {
    var n := NextOf(cs, p);
    var e, cs1, m1 := NextOf(cs, n), Join(cs, p, k), Joined(m, cs, p, k);
    NextTag(cs, segs, hdr, p);
    NextTag(cs, segs, hdr, n);
    At(cs, segs, hdr, p);
    ShapeAfterJoin(cs, segs, hdr, p, k);
    JoinFuses(cs, segs, hdr, p, k);
    NextTag(cs1, segs, hdr, p);
    assert TagOk(m, cs, e) && TagOk(m, cs, p);
    FusedPrev(cs, cs1, segs, p, e, k) by { PrevBefore(cs, segs, hdr, p); }
    hide Tile, Shape, SetBit0, ClearBit0;
    PinWord(cs, cs1, e);
    PinWord(cs, cs, p);
    PinWord(cs1, cs1, p);
    FusedTags(m, m1, cs, cs1, segs, hdr, p, e, k);
  }

  /** A live chunk grows over the boundary to the next chunk; the rest of that chunk becomes a chunk of kind `k`. */
  lemma GrowTags(m: Mem, m': Mem, cs: Chunks, segs: seq<Segment>, hdr: int, p: int, nb: int, k: Kind)
    requires Tile(cs, segs, hdr) && Shape(cs, segs) && Tagged(m, cs) && p in cs && cs[p].kind.Live?
    requires NextOf(cs, p) in cs && NextOf(cs, NextOf(cs, p)) in cs && cs[p].size > 0 && cs[NextOf(cs, p)].size > 0
    requires var n := NextOf(cs, p); if cs[n].kind.Top? then k.Top? else Plain(cs[n].kind) && Plain(k)
    requires var n := NextOf(cs, p);
             var e, rs := NextOf(cs, n), cs[p].size + cs[n].size - nb;
             && nb % 16 == 0 && MIN_CHUNK_SIZE <= nb && (if k.Top? then rs > 0 else rs >= MIN_CHUNK_SIZE)
             && Edited(m, m', {p, p + nb, e}, {e})
             && Head(m', p) == nb + Head(m, p) % 2 + 2 && Head(m', p + nb) == rs + (if k.Live? then 3 else 1)
             && Head(m', e) == (if k.Live? then SetBit0(Head(m, e)) else ClearBit0(Head(m, e)))
             && (k.Free? ==> Foot(m', e) == rs)
    ensures Tagged(m', Split(Join(cs, p, k), p, nb, Live, k))
  {
    hide Tile, Shape, SetBit0, ClearBit0, Joined;
    JoinedTags(m, cs, segs, hdr, p, k);
    GrowSplitTags(Joined(m, cs, p, k), m', Join(cs, p, k), segs, hdr, p, nb, k);
  }

  lemma GrowSplitTags(m: Mem, m': Mem, cs: Chunks, segs: seq<Segment>, hdr: int, p: int, nb: int, k: Kind)
    requires Tile(cs, segs, hdr) && Shape(cs, segs) && Tagged(m, cs) && p in cs && cs[p].kind == k
    requires (Plain(k) || k.Top?)
    requires NextOf(cs, p) in cs && MIN_CHUNK_SIZE <= nb < cs[p].size && nb % 16 == 0
    requires k.Top? || cs[p].size - nb >= MIN_CHUNK_SIZE
    requires var r, e, rs := p + nb, NextOf(cs, p), cs[p].size - nb;
             && Edited(m, m', {p, r, e}, {e})
             && Head(m', p) == nb + Head(m, p) % 2 + 2 && Head(m', r) == rs + (if k.Live? then 3 else 1)
             && Head(m', e) == Head(m, e) && (k.Free? ==> Foot(m', e) == rs)
    ensures Tagged(m', Split(cs, p, nb, Live, k))
  {
    var cs', r, e := Split(cs, p, nb, Live, k), p + nb, NextOf(cs, p);
    NextTag(cs, segs, hdr, p);
    ShapeAfterSplit(cs, segs, hdr, p, nb, Live, k);
    NextTag(cs', segs, hdr, p);
    NextTag(cs', segs, hdr, r);
    assert TagOk(m, cs, e) && TagOk(m, cs, p);
    Placed(cs, segs, hdr, p);
    SplitPrev(cs, segs, p, nb, Live, k);
    hide Tile, Shape;
    PinWord(cs, cs, p);
    SplitTags(m, m', cs, segs, hdr, p, nb, Live, k);
  }

  /** A live chunk is released and merged with the free space around it. */
  lemma ReleaseTags(m: Mem, m': Mem, cs: Chunks, segs: seq<Segment>, hdr: int, p: int)
    requires LayoutOk(cs, segs, hdr) && Tagged(m, cs) && p in cs && cs[p].kind.Live?
    requires NextOf(cs, p) in cs && (InUse(cs[NextOf(cs, p)].kind) || NextOf(cs, NextOf(cs, p)) in cs)
    requires var q, e, k := MergeStart(cs, p), MergeEnd(cs, p), MergeKind(cs, p);
             && Edited(m, m', {q, e}, {e}) && Head(m', q) == e - q + 1 && Head(m', e) == ClearBit0(Head(m, e))
             && (k.Free? ==> Foot(m', e) == e - q)
    ensures Tagged(m', Release(cs, p))
  {
    var q, e, k, cs' := MergeStart(cs, p), MergeEnd(cs, p), MergeKind(cs, p), Release(cs, p);
    ReleaseFuses(cs, segs, hdr, p);
    ReleaseKeeps(cs, segs, hdr, p);
    ForwardKind(cs, segs, hdr, p);
    assert k.Free? || k.Top? by { NextTag(cs, segs, hdr, p); }
    FreeFollowsUse(cs', segs, hdr, q);
    NextTag(cs', segs, hdr, q);
    assert TagOk(m, cs, e);
    hide Tile, Shape, LayoutOk, AllMerged, Release, ClearBit0, ReleaseForward, ReleaseBack;
    PinWord(cs, cs', e);
    assert Tile(cs, segs, hdr) && Shape(cs, segs) && Tile(cs', segs, hdr) by {
      LayoutParts(cs, segs, hdr); LayoutParts(cs', segs, hdr);
    }
    FusedTags(m, m', cs, cs', segs, hdr, q, e, k);
  }

  lemma LayoutParts(cs: Chunks, segs: seq<Segment>, hdr: int)
    requires LayoutOk(cs, segs, hdr)
    ensures Tile(cs, segs, hdr) && Shape(cs, segs) && AllMerged(cs)
  {
  }
}
