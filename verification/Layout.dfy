/**
 * How chunks tile the segments. The layout maps the address of every chunk to its size, its role, the chunk just
 * before it and its segment. Every segment ends in a trailer: the foot of the top chunk, or the fenceposts that
 * follow a segment record.
 */
module Layout {
  import opened Words

  datatype Kind = Live | Record | Free | Top | Fence | Tail
  datatype Chunk = Chunk(size: int, kind: Kind, prev: int, seg: nat)
  datatype Segment = Segment(base: int, size: int, mmapped: bool, rec: int)

  type Chunks = map<int, Chunk>

  const TOP_FOOT_SIZE := 80
  const MIN_CHUNK_SIZE := 32

  function End(s: Segment): int { s.base + s.size }

  /** The first chunk address of a segment (align_as_chunk of its base). */
  function First(s: Segment): int { Align16(s.base) }

  predicate InUse(k: Kind) { k.Live? || k.Record? || k.Fence? }

  function NextOf(cs: Chunks, p: int): int
    requires p in cs
  {
    p + cs[p].size
  }

  /** Chunk `p` lies in its segment. */
  ghost predicate PlaceOk(c: Chunk, segs: seq<Segment>, p: int) {
    && 0 < p && p % 16 == 0 && c.size >= 16 && c.size % 16 == 0
    && c.seg < |segs| && segs[c.seg].base <= p && p + c.size <= End(segs[c.seg])
  }

  /** The next chunk of the segment, if there is one, points back to `p`. */
  ghost predicate NextOk(cs: Chunks, segs: seq<Segment>, p: int)
    requires p in cs && cs[p].seg < |segs|
  {
    var n := p + cs[p].size;
    n == End(segs[cs[p].seg]) || (n in cs && cs[n].prev == p && cs[n].seg == cs[p].seg)
  }

  /** The chunk before `p`, if there is one, ends where `p` starts. */
  ghost predicate PrevOk(cs: Chunks, segs: seq<Segment>, p: int)
    requires p in cs && cs[p].seg < |segs|
  {
    var b := cs[p].prev;
    if b == 0 then p == First(segs[cs[p].seg]) else b in cs && b + cs[b].size == p && cs[b].seg == cs[p].seg
  }

  ghost predicate ChunkOk(cs: Chunks, segs: seq<Segment>, p: int)
    requires p in cs
  {
    PlaceOk(cs[p], segs, p) && NextOk(cs, segs, p) && PrevOk(cs, segs, p)
  }

  /** Chunk `p` ends before `q` starts. */
  ghost predicate Before(cs: Chunks, p: int, q: int)
    requires p in cs
  {
    p + cs[p].size <= q
  }

  /** Chunk `p` is not the trailer of its segment, so a chunk of the same segment follows it. */
  ghost predicate Inner(cs: Chunks, segs: seq<Segment>, p: int) {
    p in cs && cs[p].seg < |segs| && p + cs[p].size != End(segs[cs[p].seg])
  }

  ghost predicate SegsOk(segs: seq<Segment>, hdr: int) {
    && (forall i :: 0 <= i < |segs| ==>
          && 0 < segs[i].base && 0 < segs[i].size && End(segs[i]) < W64 && End(segs[i]) % 16 == 0
          && (End(segs[i]) <= hdr || hdr + BIN_HEADERS <= segs[i].base))
    && (forall i, j :: 0 <= i < j < |segs| ==> End(segs[i]) <= segs[j].base || End(segs[j]) <= segs[i].base)
  }

  /** Chunks tile the segments exactly and do not overlap. */
  ghost predicate Tile(cs: Chunks, segs: seq<Segment>, hdr: int) {
    && SegsOk(segs, hdr)
    && (forall i {:trigger First(segs[i])} :: 0 <= i < |segs| ==>
          First(segs[i]) in cs && cs[First(segs[i])].prev == 0 && cs[First(segs[i])].seg == i)
    && (forall p {:trigger ChunkOk(cs, segs, p)} :: p in cs ==> ChunkOk(cs, segs, p))
    && (forall p, q {:trigger Before(cs, p, q)} :: p in cs && q in cs && p < q ==> Before(cs, p, q))
  }

  /** The trailers, and the minimum size of an ordinary chunk. */
  ghost predicate ShapeOk(cs: Chunks, segs: seq<Segment>, p: int)
    requires p in cs && cs[p].seg < |segs|
  {
    var c, s := cs[p], segs[cs[p].seg];
    && (c.kind.Fence? || c.kind.Tail? <==> p + c.size == End(s))
    && (c.kind.Live? || c.kind.Record? || c.kind.Free? ==> c.size >= MIN_CHUNK_SIZE)
    && (c.kind.Tail? ==> c.size == TOP_FOOT_SIZE && c.prev in cs && cs[c.prev].kind.Top?)
    && (c.kind.Fence? ==> (c.size == 32 || c.size == 48) && c.prev in cs && cs[c.prev].kind.Record?)
    && (c.kind.Record? ==> c.size == 48 && p == s.rec && p + c.size in cs && cs[p + c.size].kind.Fence?)
    && (c.kind.Top? ==> c.seg == |segs| - 1 && p + c.size in cs && cs[p + c.size].kind.Tail?)
  }

  /** Freed space is fully merged: no free chunk is followed by another one or by top. */
  ghost predicate Merged(cs: Chunks, p: int)
    requires p in cs
  {
    cs[p].kind.Free? && p + cs[p].size in cs ==> !cs[p + cs[p].size].kind.Free? && !cs[p + cs[p].size].kind.Top?
  }

  ghost predicate Shape(cs: Chunks, segs: seq<Segment>) {
    forall p {:trigger ShapeOk(cs, segs, p)} :: p in cs ==> cs[p].seg < |segs| && ShapeOk(cs, segs, p)
  }

  ghost predicate AllMerged(cs: Chunks) {
    forall p {:trigger Merged(cs, p)} :: p in cs ==> Merged(cs, p)
  }

  // ---- elementary changes ------------------------------------------------------------------------------

  function Retag(cs: Chunks, p: int, k: Kind): Chunks
    requires p in cs
  {
    cs[p := cs[p].(kind := k)]
  }

  /** Cuts chunk `p` after `a` bytes. */
  function Split(cs: Chunks, p: int, a: int, k1: Kind, k2: Kind): Chunks
    requires p in cs && NextOf(cs, p) in cs && 0 < a < cs[p].size
  {
    var c, r, n := cs[p], p + a, NextOf(cs, p);
    cs[p := c.(size := a, kind := k1)][r := Chunk(c.size - a, k2, p, c.seg)][n := cs[n].(prev := r)]
  }

  /** Chunk `p` swallows its successor. */
  function Join(cs: Chunks, p: int, k: Kind): Chunks
    requires p in cs && NextOf(cs, p) in cs && NextOf(cs, NextOf(cs, p)) in cs
  {
    var n := NextOf(cs, p);
    var e := NextOf(cs, n);
    (cs - {n})[p := cs[p].(size := cs[p].size + cs[n].size, kind := k)][e := cs[e].(prev := p)]
  }

  lemma NextIsLinked(cs: Chunks, segs: seq<Segment>, hdr: int, p: int)
    requires Tile(cs, segs, hdr) && Inner(cs, segs, p)
    ensures ChunkOk(cs, segs, p) && NextOf(cs, p) in cs && ChunkOk(cs, segs, NextOf(cs, p))
    ensures cs[NextOf(cs, p)].prev == p && cs[NextOf(cs, p)].seg == cs[p].seg
  {
    assert ChunkOk(cs, segs, p) && ChunkOk(cs, segs, NextOf(cs, p));
  }

  lemma SplitChunk(cs: Chunks, segs: seq<Segment>, p: int, a: int, k1: Kind, k2: Kind, q: int)
    requires Inner(cs, segs, p) && NextOf(cs, p) in cs && 0 < a < cs[p].size && a % 16 == 0 && p + a !in cs
    requires ChunkOk(cs, segs, p) && ChunkOk(cs, segs, NextOf(cs, p))
    requires q in Split(cs, p, a, k1, k2) && (q != p + a ==> q in cs && ChunkOk(cs, segs, q))
    ensures ChunkOk(Split(cs, p, a, k1, k2), segs, q)
  {
    SplitPlace(cs, segs, p, a, k1, k2, q);
    hide PlaceOk;
    var cs' := Split(cs, p, a, k1, k2);
    var r, n := p + a, NextOf(cs, p);
    PlaceFacts(cs[p], segs, p);
    if q == p || q == r || q == n {
    } else {
      PlaceFacts(cs[q], segs, q);
      assert cs'[q] == cs[q];
    }
  }

  lemma PlaceFacts(c: Chunk, segs: seq<Segment>, p: int)
    requires PlaceOk(c, segs, p)
    ensures c.seg < |segs| && 0 < p && 0 < c.size && p + c.size <= End(segs[c.seg])
  {
  }

  lemma SplitPlace(cs: Chunks, segs: seq<Segment>, p: int, a: int, k1: Kind, k2: Kind, q: int)
    requires p in cs && NextOf(cs, p) in cs && 0 < a < cs[p].size && a % 16 == 0 && p + a !in cs
    requires PlaceOk(cs[p], segs, p)
    requires q in Split(cs, p, a, k1, k2) && (q != p + a ==> q in cs && PlaceOk(cs[q], segs, q))
    ensures PlaceOk(Split(cs, p, a, k1, k2)[q], segs, q)
  {
    if q != p && q != p + a { hide PlaceOk; PlaceIgnoresLinks(cs[q], segs, q, p + a); }
  }

  lemma PlaceIgnoresLinks(c: Chunk, segs: seq<Segment>, p: int, prev: int)
    requires PlaceOk(c, segs, p)
    ensures PlaceOk(c.(prev := prev), segs, p)
  {
  }

  lemma SplitTiles(cs: Chunks, segs: seq<Segment>, hdr: int, p: int, a: int, k1: Kind, k2: Kind)
    requires Tile(cs, segs, hdr) && Inner(cs, segs, p) && NextOf(cs, p) in cs && 0 < a < cs[p].size && a % 16 == 0
    ensures Tile(Split(cs, p, a, k1, k2), segs, hdr)
    ensures p + a !in cs
  {
    hide SegsOk, ChunkOk;
    var cs' := Split(cs, p, a, k1, k2);
    var r, n := p + a, NextOf(cs, p);
    if r in cs { assert Before(cs, p, r); }
    NextIsLinked(cs, segs, hdr, p);
    forall q | q in cs' ensures ChunkOk(cs', segs, q) {
      if q != r { assert ChunkOk(cs, segs, q); }
      SplitChunk(cs, segs, p, a, k1, k2, q);
    }
    forall q, q' | q in cs' && q' in cs' && q < q' ensures Before(cs', q, q') {
      if q' == r {
        if q != p { assert Before(cs, if q < p then q else p, if q < p then p else q); }
      } else {
        assert Before(cs, if q == r then p else q, q');
      }
    }
    FirstsKept(cs, segs, hdr, p);
  }

  lemma JoinChunk(cs: Chunks, segs: seq<Segment>, p: int, k: Kind, q: int)
    requires Inner(cs, segs, p) && NextOf(cs, p) in cs && Inner(cs, segs, NextOf(cs, p))
    requires NextOf(cs, NextOf(cs, p)) in cs
    requires ChunkOk(cs, segs, p) && ChunkOk(cs, segs, NextOf(cs, p)) && ChunkOk(cs, segs, NextOf(cs, NextOf(cs, p)))
    requires q in Join(cs, p, k) && q in cs && ChunkOk(cs, segs, q)
    ensures ChunkOk(Join(cs, p, k), segs, q)
  {
    var cs' := Join(cs, p, k);
    var n := NextOf(cs, p);
    var e := NextOf(cs, n);
    assert PlaceOk(cs'[q], segs, q);
    PlaceFacts(cs[p], segs, p);
    PlaceFacts(cs[n], segs, n);
    hide PlaceOk;
    if q == p || q == e {
    } else {
      assert cs'[q] == cs[q];
      assert cs[q].prev != n;
    }
  }

  lemma JoinTiles(cs: Chunks, segs: seq<Segment>, hdr: int, p: int, k: Kind)
    requires Tile(cs, segs, hdr) && Inner(cs, segs, p) && NextOf(cs, p) in cs && Inner(cs, segs, NextOf(cs, p))
    requires NextOf(cs, NextOf(cs, p)) in cs
    ensures Tile(Join(cs, p, k), segs, hdr)
  {
    hide SegsOk, ChunkOk;
    var cs' := Join(cs, p, k);
    var n := NextOf(cs, p);
    NextIsLinked(cs, segs, hdr, p);
    NextIsLinked(cs, segs, hdr, n);
    forall q | q in cs' ensures ChunkOk(cs', segs, q) {
      assert ChunkOk(cs, segs, q);
      JoinChunk(cs, segs, p, k, q);
    }
    forall q, q' | q in cs' && q' in cs' && q < q' ensures Before(cs', q, q') {
      assert Before(cs, q, q');
      if q == p { assert Before(cs, n, q'); }
    }
    FirstsKept(cs, segs, hdr, p);
    FirstsKept(cs, segs, hdr, n);
  }

  /** The chunk after `p` is not the first of a segment. */
  lemma FirstsKept(cs: Chunks, segs: seq<Segment>, hdr: int, p: int)
    requires Tile(cs, segs, hdr) && Inner(cs, segs, p)
    ensures forall i {:trigger First(segs[i])} :: 0 <= i < |segs| ==> First(segs[i]) != NextOf(cs, p)
  {
    NextIsLinked(cs, segs, hdr, p);
  }

  lemma RetagTiles(cs: Chunks, segs: seq<Segment>, hdr: int, p: int, k: Kind)
    requires Tile(cs, segs, hdr) && p in cs
    ensures Tile(Retag(cs, p, k), segs, hdr)
  {
    hide SegsOk;
    var cs' := Retag(cs, p, k);
    forall q | q in cs' ensures ChunkOk(cs', segs, q) {
      assert ChunkOk(cs, segs, q);
    }
    forall q, q' | q in cs' && q' in cs' && q < q' ensures Before(cs', q, q') {
      assert Before(cs, q, q');
    }
  }

  // ---- the whole layout --------------------------------------------------------------------------------

  ghost predicate LayoutOk(cs: Chunks, segs: seq<Segment>, hdr: int) {
    Tile(cs, segs, hdr) && Shape(cs, segs) && AllMerged(cs)
  }

  /** Everything that is known about a chunk and the chunk after it. */
  lemma At(cs: Chunks, segs: seq<Segment>, hdr: int, p: int)
    requires Tile(cs, segs, hdr) && Shape(cs, segs) && p in cs
    ensures ChunkOk(cs, segs, p) && ShapeOk(cs, segs, p)
    ensures !cs[p].kind.Fence? && !cs[p].kind.Tail? ==> Inner(cs, segs, p) && NextOf(cs, p) in cs
  {
    assert ChunkOk(cs, segs, p) && ShapeOk(cs, segs, p);
  }

  predicate Plain(k: Kind) { k.Live? || k.Free? }

  lemma ShapeAfterSplit(cs: Chunks, segs: seq<Segment>, hdr: int, p: int, a: int, k1: Kind, k2: Kind)
    requires Tile(cs, segs, hdr) && Shape(cs, segs) && p in cs && NextOf(cs, p) in cs
    requires Plain(k1) && if cs[p].kind.Top? then k2.Top? else Plain(cs[p].kind) && Plain(k2)
    requires MIN_CHUNK_SIZE <= a < cs[p].size && a % 16 == 0 && (k2.Top? || cs[p].size - a >= MIN_CHUNK_SIZE)
    ensures Shape(Split(cs, p, a, k1, k2), segs) && Tile(Split(cs, p, a, k1, k2), segs, hdr) && p + a !in cs
  {
    var cs' := Split(cs, p, a, k1, k2);
    var r, n := p + a, NextOf(cs, p);
    At(cs, segs, hdr, p);
    At(cs, segs, hdr, n);
    SplitTiles(cs, segs, hdr, p, a, k1, k2);
    hide Tile, Shape, ChunkOk, ShapeOk;
    forall q | q in cs' ensures cs'[q].seg < |segs| && ShapeOk(cs', segs, q) {
      if q != r { At(cs, segs, hdr, q); }
      SplitShape(cs, segs, p, a, k1, k2, q);
    }
    ShapeIntro(cs', segs);
  }

  lemma ShapeIntro(cs: Chunks, segs: seq<Segment>)
    requires forall p {:trigger cs[p]} :: p in cs ==> cs[p].seg < |segs| && ShapeOk(cs, segs, p)
    ensures Shape(cs, segs)
  {
  }

  lemma SplitShape(cs: Chunks, segs: seq<Segment>, p: int, a: int, k1: Kind, k2: Kind, q: int)
    requires Inner(cs, segs, p) && NextOf(cs, p) in cs && p + a !in cs
    requires ChunkOk(cs, segs, p) && ShapeOk(cs, segs, p)
    requires Plain(k1) && if cs[p].kind.Top? then k2.Top? else Plain(cs[p].kind) && Plain(k2)
    requires MIN_CHUNK_SIZE <= a < cs[p].size && (k2.Top? || cs[p].size - a >= MIN_CHUNK_SIZE)
    requires q in Split(cs, p, a, k1, k2) && (q != p + a ==> q in cs && ChunkOk(cs, segs, q) && ShapeOk(cs, segs, q))
    ensures var cs' := Split(cs, p, a, k1, k2); cs'[q].seg < |segs| && ShapeOk(cs', segs, q)
  {
    hide PlaceOk;
    PlaceFacts(cs[p], segs, p);
    if q != p + a { PlaceFacts(cs[q], segs, q); }
  }

  lemma ShapeAfterJoin(cs: Chunks, segs: seq<Segment>, hdr: int, p: int, k: Kind)
    requires Tile(cs, segs, hdr) && Shape(cs, segs) && p in cs && NextOf(cs, p) in cs && Plain(cs[p].kind)
    requires var n := NextOf(cs, p);
             NextOf(cs, n) in cs && if cs[n].kind.Top? then k.Top? else Plain(cs[n].kind) && Plain(k)
    ensures Shape(Join(cs, p, k), segs) && Tile(Join(cs, p, k), segs, hdr)
  {
    var cs' := Join(cs, p, k);
    var n := NextOf(cs, p);
    var e := NextOf(cs, n);
    At(cs, segs, hdr, p);
    At(cs, segs, hdr, n);
    At(cs, segs, hdr, e);
    JoinTiles(cs, segs, hdr, p, k);
    hide Tile, Shape, ChunkOk, ShapeOk;
    forall q | q in cs' ensures cs'[q].seg < |segs| && ShapeOk(cs', segs, q) {
      At(cs, segs, hdr, q);
      JoinShape(cs, segs, p, k, q);
    }
    ShapeIntro(cs', segs);
  }

  lemma JoinShape(cs: Chunks, segs: seq<Segment>, p: int, k: Kind, q: int)
    requires Inner(cs, segs, p) && NextOf(cs, p) in cs && Inner(cs, segs, NextOf(cs, p)) && Plain(cs[p].kind)
    requires ChunkOk(cs, segs, p) && ShapeOk(cs, segs, p)
    requires var n := NextOf(cs, p);
             && NextOf(cs, n) in cs && (if cs[n].kind.Top? then k.Top? else Plain(cs[n].kind) && Plain(k))
             && ChunkOk(cs, segs, n) && ShapeOk(cs, segs, n)
    requires q in Join(cs, p, k) && q in cs && ChunkOk(cs, segs, q) && ShapeOk(cs, segs, q)
    ensures var cs' := Join(cs, p, k); cs'[q].seg < |segs| && ShapeOk(cs', segs, q)
  {
    hide PlaceOk;
    PlaceFacts(cs[p], segs, p);
    PlaceFacts(cs[NextOf(cs, p)], segs, NextOf(cs, p));
    PlaceFacts(cs[q], segs, q);
  }

  lemma ShapeAfterRetag(cs: Chunks, segs: seq<Segment>, hdr: int, p: int, k: Kind)
    requires Tile(cs, segs, hdr) && Shape(cs, segs) && p in cs && Plain(cs[p].kind) && Plain(k)
    ensures Shape(Retag(cs, p, k), segs) && Tile(Retag(cs, p, k), segs, hdr)
  {
    var cs' := Retag(cs, p, k);
    At(cs, segs, hdr, p);
    RetagTiles(cs, segs, hdr, p, k);
    hide Tile, PlaceOk;
    forall q | q in cs' ensures cs'[q].seg < |segs| && ShapeOk(cs', segs, q) {
      At(cs, segs, hdr, q);
    }
  }

  // ---- what the allocator does to a layout ----------------------------------------------------------------

  /** Free or top space `p` gives its first `nb` bytes to the caller; `whole` when nothing is split off. */
  function Carve(cs: Chunks, p: int, nb: int): Chunks
    requires p in cs && NextOf(cs, p) in cs && 0 < nb <= cs[p].size
  {
    if nb == cs[p].size then Retag(cs, p, Live) else Split(cs, p, nb, Live, cs[p].kind)
  }

  lemma CarveKeeps(cs: Chunks, segs: seq<Segment>, hdr: int, p: int, nb: int)
    requires LayoutOk(cs, segs, hdr) && p in cs && (cs[p].kind.Free? || cs[p].kind.Top?) && NextOf(cs, p) in cs
    requires MIN_CHUNK_SIZE <= nb && nb % 16 == 0
    requires if cs[p].kind.Top? then nb < cs[p].size else nb == cs[p].size || nb + MIN_CHUNK_SIZE <= cs[p].size
    ensures LayoutOk(Carve(cs, p, nb), segs, hdr)
  {
    var cs', n := Carve(cs, p, nb), NextOf(cs, p);
    if nb == cs[p].size {
      ShapeAfterRetag(cs, segs, hdr, p, Live);
    } else {
      ShapeAfterSplit(cs, segs, hdr, p, nb, Live, cs[p].kind);
    }
    At(cs, segs, hdr, p);
    forall q | q in cs' ensures Merged(cs', q) {
      if q in cs { assert Merged(cs, q); At(cs, segs, hdr, q); }
      assert Merged(cs, p);
    }
  }

  /** Chunk `p` becomes free and is merged with free space after it and before it. */
  function Release(cs: Chunks, p: int): Chunks
    requires p in cs && NextOf(cs, p) in cs && (InUse(cs[NextOf(cs, p)].kind) || NextOf(cs, NextOf(cs, p)) in cs)
  {
    ReleaseBack(ReleaseForward(cs, p), p)
  }

  /** Release, extended to all arguments. */
  function Freed(cs: Chunks, p: int): Chunks {
    if p in cs && NextOf(cs, p) in cs && (InUse(cs[NextOf(cs, p)].kind) || NextOf(cs, NextOf(cs, p)) in cs)
    then Release(cs, p) else cs
  }

  function ReleaseForward(cs: Chunks, p: int): Chunks
    requires p in cs && NextOf(cs, p) in cs && (InUse(cs[NextOf(cs, p)].kind) || NextOf(cs, NextOf(cs, p)) in cs)
  {
    var k := cs[NextOf(cs, p)].kind;
    if InUse(k) then Retag(cs, p, Free) else Join(cs, p, k)
  }

  function ReleaseBack(cs: Chunks, p: int): Chunks
    requires p in cs
  {
    var b := cs[p].prev;
    if b in cs && cs[b].kind.Free? && NextOf(cs, b) == p && NextOf(cs, p) in cs then Join(cs, b, cs[p].kind) else cs
  }

  /** Where the merged space starts. */
  function MergeStart(cs: Chunks, p: int): int
    requires p in cs
  {
    if cs[p].prev in cs && cs[cs[p].prev].kind.Free? then cs[p].prev else p
  }

  lemma ForwardKeeps(cs: Chunks, segs: seq<Segment>, hdr: int, p: int)
    requires LayoutOk(cs, segs, hdr) && p in cs && cs[p].kind.Live?
    ensures NextOf(cs, p) in cs && (InUse(cs[NextOf(cs, p)].kind) || NextOf(cs, NextOf(cs, p)) in cs)
    ensures var cs' := ReleaseForward(cs, p);
            && Tile(cs', segs, hdr) && Shape(cs', segs)
            && forall q {:trigger Merged(cs', q)} :: q in cs' && q != cs[p].prev ==> Merged(cs', q)
  {
    At(cs, segs, hdr, p);
    var n := NextOf(cs, p);
    At(cs, segs, hdr, n);
    var k := cs[n].kind;
    var cs' := ReleaseForward(cs, p);
    if InUse(k) { ShapeAfterRetag(cs, segs, hdr, p, Free); } else { ShapeAfterJoin(cs, segs, hdr, p, k); }
    forall q | q in cs' && q != cs[p].prev ensures Merged(cs', q) {
      ForwardMerged(cs, segs, p, q) by {
        assert Merged(cs, q) && Merged(cs, n);
        At(cs, segs, hdr, q);
      }
    }
  }

  lemma ForwardMerged(cs: Chunks, segs: seq<Segment>, p: int, q: int)
    requires p in cs && cs[p].kind.Live? && ChunkOk(cs, segs, p) && NextOf(cs, p) in cs
    requires var n := NextOf(cs, p);
             && Merged(cs, n) && ChunkOk(cs, segs, n) && !cs[n].kind.Tail? && (InUse(cs[n].kind) || NextOf(cs, n) in cs)
             && (cs[n].kind.Top? ==> !cs[NextOf(cs, n)].kind.Free? && !cs[NextOf(cs, n)].kind.Top?)
    requires q in ReleaseForward(cs, p) && q in cs && ChunkOk(cs, segs, q) && q != cs[p].prev && Merged(cs, q)
    requires cs[q].kind.Free? ==> Inner(cs, segs, q)
    ensures Merged(ReleaseForward(cs, p), q)
  {
    hide PlaceOk;
    PlaceFacts(cs[p], segs, p);
    PlaceFacts(cs[NextOf(cs, p)], segs, NextOf(cs, p));
    PlaceFacts(cs[q], segs, q);
  }

  lemma BackKeeps(cs: Chunks, segs: seq<Segment>, hdr: int, p: int)
    requires Tile(cs, segs, hdr) && Shape(cs, segs) && p in cs && (cs[p].kind.Free? || cs[p].kind.Top?)
    requires forall q {:trigger Merged(cs, q)} :: q in cs && q != cs[p].prev ==> Merged(cs, q)
    ensures LayoutOk(ReleaseBack(cs, p), segs, hdr)
  {
    var b, cs' := cs[p].prev, ReleaseBack(cs, p);
    At(cs, segs, hdr, p);
    if b in cs && cs[b].kind.Free? {
      At(cs, segs, hdr, b);
      ShapeAfterJoin(cs, segs, hdr, b, cs[p].kind);
    }
    assert p != b && Merged(cs, p);
    forall q | q in cs' ensures Merged(cs', q) {
      BackMerged(cs, segs, p, q) by { At(cs, segs, hdr, q); if q != b { assert Merged(cs, q); } }
    }
  }

  lemma BackMerged(cs: Chunks, segs: seq<Segment>, p: int, q: int)
    requires p in cs && (cs[p].kind.Free? || cs[p].kind.Top?) && ChunkOk(cs, segs, p) && NextOf(cs, p) in cs
    requires Merged(cs, p)
    requires cs[p].kind.Top? ==> !cs[NextOf(cs, p)].kind.Free? && !cs[NextOf(cs, p)].kind.Top?
    requires q in ReleaseBack(cs, p) && q in cs && ChunkOk(cs, segs, q) && (q != cs[p].prev ==> Merged(cs, q))
    ensures Merged(ReleaseBack(cs, p), q)
  {
    hide PlaceOk;
    PlaceFacts(cs[p], segs, p);
    PlaceFacts(cs[q], segs, q);
  }

  lemma ReleaseKeeps(cs: Chunks, segs: seq<Segment>, hdr: int, p: int)
    requires LayoutOk(cs, segs, hdr) && p in cs && cs[p].kind.Live?
    ensures NextOf(cs, p) in cs && (InUse(cs[NextOf(cs, p)].kind) || NextOf(cs, NextOf(cs, p)) in cs)
    ensures LayoutOk(Release(cs, p), segs, hdr)
  {
    hide Tile, Shape, AllMerged, ReleaseBack, Merged;
    ForwardKeeps(cs, segs, hdr, p);
    BackKeeps(ReleaseForward(cs, p), segs, hdr, p) by { ForwardKind(cs, segs, hdr, p); }
  }

  lemma ForwardKind(cs: Chunks, segs: seq<Segment>, hdr: int, p: int)
    requires Tile(cs, segs, hdr) && Shape(cs, segs) && p in cs && cs[p].kind.Live?
    requires NextOf(cs, p) in cs && (InUse(cs[NextOf(cs, p)].kind) || NextOf(cs, NextOf(cs, p)) in cs)
    ensures var cs' := ReleaseForward(cs, p);
            p in cs' && (cs'[p].kind.Free? || cs'[p].kind.Top?) && cs'[p].prev == cs[p].prev && cs'[p].seg == cs[p].seg
  {
    At(cs, segs, hdr, p);
    At(cs, segs, hdr, NextOf(cs, p));
  }

  /** `cs'` is `cs` with everything from `q` up to `e` turned into one chunk of kind `k`. */
  ghost predicate Fused(cs: Chunks, cs': Chunks, q: int, e: int, k: Kind) {
    && q in cs && e in cs && q < e && q in cs' && e in cs'
    && cs'[q] == cs[q].(size := e - q, kind := k) && cs'[e] == cs[e].(prev := q)
    && (forall x {:trigger x in cs'} :: x in cs' <==> x in cs && !(q < x < e))
    && (forall x {:trigger cs'[x]} :: x in cs' && x != q && x != e ==> cs'[x] == cs[x])
  }

  lemma RetagFuses(cs: Chunks, segs: seq<Segment>, hdr: int, p: int, k: Kind)
    requires Tile(cs, segs, hdr) && Inner(cs, segs, p)
    ensures NextOf(cs, p) in cs && Fused(cs, Retag(cs, p, k), p, NextOf(cs, p), k)
  {
    NextIsLinked(cs, segs, hdr, p);
    NoneInside(cs, segs, hdr, p);
  }

  lemma NoneInside(cs: Chunks, segs: seq<Segment>, hdr: int, p: int)
    requires Tile(cs, segs, hdr) && p in cs
    ensures forall x {:trigger x in cs} :: x in cs ==> !(p < x < p + cs[p].size)
  {
    forall x | x in cs ensures !(p < x < p + cs[p].size) { if p < x { assert Before(cs, p, x); } }
  }

  lemma JoinFuses(cs: Chunks, segs: seq<Segment>, hdr: int, p: int, k: Kind)
    requires Tile(cs, segs, hdr) && Inner(cs, segs, p) && NextOf(cs, p) in cs && Inner(cs, segs, NextOf(cs, p))
    ensures NextOf(cs, NextOf(cs, p)) in cs && Fused(cs, Join(cs, p, k), p, NextOf(cs, NextOf(cs, p)), k)
  {
    NextIsLinked(cs, segs, hdr, p);
    NextIsLinked(cs, segs, hdr, NextOf(cs, p));
    NoneInside(cs, segs, hdr, p);
    NoneInside(cs, segs, hdr, NextOf(cs, p));
  }

  /** The end of the space that is merged when `p` is released, and its kind. */
  function MergeEnd(cs: Chunks, p: int): int
    requires p in cs && NextOf(cs, p) in cs
  {
    var n := NextOf(cs, p);
    if InUse(cs[n].kind) then n else NextOf(cs, n)
  }

  function MergeKind(cs: Chunks, p: int): Kind
    requires p in cs && NextOf(cs, p) in cs
  {
    var n := NextOf(cs, p);
    if InUse(cs[n].kind) then Free else cs[n].kind
  }

  /** Releasing `p` turns the space from its free predecessor to the next chunk in use into one free chunk. */
  lemma ReleaseFuses(cs: Chunks, segs: seq<Segment>, hdr: int, p: int)
    requires Tile(cs, segs, hdr) && Shape(cs, segs) && p in cs && cs[p].kind.Live?
    ensures NextOf(cs, p) in cs && (InUse(cs[NextOf(cs, p)].kind) || NextOf(cs, NextOf(cs, p)) in cs)
    ensures Fused(cs, Release(cs, p), MergeStart(cs, p), MergeEnd(cs, p), MergeKind(cs, p))
  {
    At(cs, segs, hdr, p);
    var n, b := NextOf(cs, p), cs[p].prev;
    At(cs, segs, hdr, n);
    var cs1 := ReleaseForward(cs, p);
    if InUse(cs[n].kind) {
      RetagFuses(cs, segs, hdr, p, Free);
      ShapeAfterRetag(cs, segs, hdr, p, Free);
    } else {
      JoinFuses(cs, segs, hdr, p, cs[n].kind);
      ShapeAfterJoin(cs, segs, hdr, p, cs[n].kind);
    }
    if b in cs && cs[b].kind.Free? {
      At(cs, segs, hdr, b);
      At(cs1, segs, hdr, p);
      hide Tile, Shape, Join;
      BackFuses(cs, cs1, segs, hdr, b, p, MergeEnd(cs, p), MergeKind(cs, p));
    }
  }

  lemma BackFuses(cs: Chunks, cs1: Chunks, segs: seq<Segment>, hdr: int, b: int, p: int, e: int, k: Kind)
    requires Tile(cs, segs, hdr) && Tile(cs1, segs, hdr) && Fused(cs, cs1, p, e, k) && b in cs && NextOf(cs, b) == p
    requires b < p
    requires Inner(cs1, segs, b) && Inner(cs1, segs, p)
    ensures NextOf(cs1, b) == p && NextOf(cs1, p) == e && e in cs1 && Fused(cs, Join(cs1, b, k), b, e, k)
  {
    assert cs1[b] == cs[b];
    JoinFuses(cs1, segs, hdr, b, k);
    NoneInside(cs, segs, hdr, b);
  }
}
