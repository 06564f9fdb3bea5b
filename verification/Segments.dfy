/** Growing, closing and shrinking segments, as changes of the layout. */
module Segments {
  import opened Words
  import opened Layout
  import opened Tags
  import opened HeapBase
  import opened HeapSteps

  /** A top chunk of `t` bytes at `p`, followed by the space kept for the segment record and the fenceposts. */
  function WithTop(cs: Chunks, p: int, t: int, prev: int, i: nat): Chunks {
    cs[p := Chunk(t, Top, prev, i)][p + t := Chunk(TOP_FOOT_SIZE, Tail, p, i)]
  }

  ghost predicate NoTop(cs: Chunks) {
    forall x {:trigger cs[x]} :: x in cs ==> !cs[x].kind.Top?
  }

  /** Segment `s` is apart from the others and from the bin headers, and can hold a top chunk. */
  ghost predicate Fits(segs: seq<Segment>, hdr: int, s: Segment) {
    && 0 < s.base && 0 < s.size && End(s) < W64 && End(s) % 16 == 0 && (End(s) <= hdr || hdr + BIN_HEADERS <= s.base)
    && forall i :: 0 <= i < |segs| ==> End(segs[i]) <= s.base || End(s) <= segs[i].base
  }

  lemma ApartSegs(segs: seq<Segment>, hdr: int, s: Segment)
    requires SegsOk(segs, hdr) && Fits(segs, hdr, s)
    ensures SegsOk(segs + [s], hdr)
  {
  }

  lemma FirstBounds(s: Segment)
    requires 0 < s.base
    ensures s.base <= First(s) < s.base + 16 && First(s) % 16 == 0
  {
  }

  /** Addresses of a separate segment are not chunk addresses. */
  lemma NotThere(cs: Chunks, segs: seq<Segment>, hdr: int, s: Segment, a: int)
    requires Tile(cs, segs, hdr) && Fits(segs, hdr, s) && s.base <= a < End(s)
    ensures a !in cs && forall q {:trigger q in cs} :: q in cs ==> q + cs[q].size <= a || a < q
  {
    forall q | q in cs ensures q != a && (q + cs[q].size <= a || a < q) {
      assert ChunkOk(cs, segs, q);
      var t := segs[cs[q].seg];
      assert End(t) <= s.base || End(s) <= t.base;
    }
  }

  lemma LayoutIntro(cs: Chunks, segs: seq<Segment>, hdr: int)
    requires SegsOk(segs, hdr)
    requires forall p {:trigger cs[p]} :: p in cs ==>
      ChunkOk(cs, segs, p) && cs[p].seg < |segs| && ShapeOk(cs, segs, p) && Merged(cs, p)
    requires forall p, q {:trigger cs[p], cs[q]} :: p in cs && q in cs && p < q ==> Before(cs, p, q)
    requires forall i {:trigger segs[i]} :: 0 <= i < |segs| ==>
               First(segs[i]) in cs && cs[First(segs[i])].prev == 0 && cs[First(segs[i])].seg == i
    ensures LayoutOk(cs, segs, hdr)
  {
    hide SegsOk, ChunkOk, ShapeOk, Merged, First;
  }

  /** A new segment that consists of a top chunk. */
  lemma AddTop(cs: Chunks, segs: seq<Segment>, hdr: int, s: Segment, t: int)
    requires LayoutOk(cs, segs, hdr) && NoTop(cs) && Fits(segs, hdr, s)
    requires First(s) + t + TOP_FOOT_SIZE == End(s) && 16 <= t
    ensures LayoutOk(WithTop(cs, First(s), t, 0, |segs|), segs + [s], hdr)
    ensures First(s) !in cs && First(s) + t !in cs
  {
    hide SegsOk, Fits, PlaceOk, ChunkOk, ShapeOk, Merged, First, Tile, Shape, AllMerged;
    var p, segs' := First(s), segs + [s];
    var f, cs' := p + t, WithTop(cs, p, t, 0, |segs|);
    AddTopOrder(cs, segs, hdr, s, t);
    AddTopFirsts(cs, segs, hdr, s, t);
    assert SegsOk(segs', hdr) by { assert SegsOk(segs, hdr) by { TileSegs(cs, segs, hdr); } ApartSegs(segs, hdr, s); }
    forall q | q in cs'
      ensures ChunkOk(cs', segs', q) && cs'[q].seg < |segs'| && ShapeOk(cs', segs', q) && Merged(cs', q)
    {
      if q == p || q == f {
        NewChunks(cs, segs, s, t) by { ApartFacts(segs, hdr, s); }
      } else {
        At(cs, segs, hdr, q);
        assert Merged(cs, q) && !cs[q].kind.Top? by { MergedAt(cs, q); }
        AddTopChunk(cs, segs, s, t, q);
      }
    }
    LayoutIntro(cs', segs', hdr);
  }

  lemma TileSegs(cs: Chunks, segs: seq<Segment>, hdr: int)
    requires Tile(cs, segs, hdr)
    ensures SegsOk(segs, hdr)
  {
  }

  lemma MergedAt(cs: Chunks, q: int)
    requires AllMerged(cs) && q in cs
    ensures Merged(cs, q)
  {
  }

  lemma ApartFacts(segs: seq<Segment>, hdr: int, s: Segment)
    requires Fits(segs, hdr, s)
    ensures 0 < s.base && End(s) % 16 == 0 && 0 < End(s)
  {
  }

  lemma NewChunks(cs: Chunks, segs: seq<Segment>, s: Segment, t: int)
    requires First(s) + t + TOP_FOOT_SIZE == End(s) && 16 <= t && 0 < s.base && End(s) % 16 == 0
    ensures var cs', segs', p := WithTop(cs, First(s), t, 0, |segs|), segs + [s], First(s);
            && ChunkOk(cs', segs', p) && ShapeOk(cs', segs', p) && Merged(cs', p)
            && ChunkOk(cs', segs', p + t) && ShapeOk(cs', segs', p + t) && Merged(cs', p + t)
  {
    NewPlaces(segs, s, t);
    assert First(s) != 0;
    hide PlaceOk;
  }

  lemma AddTopOrder(cs: Chunks, segs: seq<Segment>, hdr: int, s: Segment, t: int)
    requires Tile(cs, segs, hdr) && Fits(segs, hdr, s) && First(s) + t + TOP_FOOT_SIZE == End(s) && 16 <= t
    ensures First(s) !in cs && First(s) + t !in cs
    ensures var cs' := WithTop(cs, First(s), t, 0, |segs|);
            forall x, y {:trigger cs'[x], cs'[y]} :: x in cs' && y in cs' && x < y ==> Before(cs', x, y)
  {
    hide First, ChunkOk;
    var p := First(s);
    var f, cs' := p + t, WithTop(cs, p, t, 0, |segs|);
    FirstBounds(s) by { ApartFacts(segs, hdr, s); }
    NotThere(cs, segs, hdr, s, p);
    NotThere(cs, segs, hdr, s, f);
    NotThere(cs, segs, hdr, s, End(s) - 1);
    forall x, y | x in cs' && y in cs' && x < y ensures Before(cs', x, y) {
      if x != p && x != f && y != p && y != f { assert Before(cs, x, y); }
      else if y != p && y != f { BetweenNot(cs, segs, hdr, s, y); }
    }
  }

  lemma BetweenNot(cs: Chunks, segs: seq<Segment>, hdr: int, s: Segment, y: int)
    requires Tile(cs, segs, hdr) && Fits(segs, hdr, s) && y in cs
    ensures y < s.base || End(s) <= y
  {
    assert ChunkOk(cs, segs, y);
    var t := segs[cs[y].seg];
    assert End(t) <= s.base || End(s) <= t.base;
  }

  lemma AddTopFirsts(cs: Chunks, segs: seq<Segment>, hdr: int, s: Segment, t: int)
    requires Tile(cs, segs, hdr) && First(s) !in cs && First(s) + t !in cs && 16 <= t
    ensures var cs', segs' := WithTop(cs, First(s), t, 0, |segs|), segs + [s];
            forall j {:trigger segs'[j]} :: 0 <= j < |segs'| ==>
              First(segs'[j]) in cs' && cs'[First(segs'[j])].prev == 0 && cs'[First(segs'[j])].seg == j
  {
    hide ChunkOk, First;
    var cs', segs' := WithTop(cs, First(s), t, 0, |segs|), segs + [s];
    forall j | 0 <= j < |segs'|
      ensures First(segs'[j]) in cs' && cs'[First(segs'[j])].prev == 0 && cs'[First(segs'[j])].seg == j
    {
      if j < |segs| { assert segs'[j] == segs[j] && First(segs[j]) in cs; }
    }
  }

  lemma NewPlaces(segs: seq<Segment>, s: Segment, t: int)
    requires First(s) + t + TOP_FOOT_SIZE == End(s) && 16 <= t && 0 < s.base && End(s) % 16 == 0
    ensures PlaceOk(Chunk(t, Top, 0, |segs|), segs + [s], First(s))
    ensures PlaceOk(Chunk(TOP_FOOT_SIZE, Tail, First(s), |segs|), segs + [s], First(s) + t)
  {
  }

  lemma AddTopChunk(cs: Chunks, segs: seq<Segment>, s: Segment, t: int, q: int)
    requires q in cs && ChunkOk(cs, segs, q) && ShapeOk(cs, segs, q) && Merged(cs, q) && !cs[q].kind.Top?
    requires First(s) !in cs && First(s) + t !in cs && 16 <= t
    requires cs[q].kind.Free? ==> Inner(cs, segs, q)
    ensures var cs', segs' := WithTop(cs, First(s), t, 0, |segs|), segs + [s];
            ChunkOk(cs', segs', q) && cs'[q].seg < |segs'| && ShapeOk(cs', segs', q) && Merged(cs', q)
  {
  }

  // ---- the end of the current segment ----------------------------------------------------------------------------

  /** The last two chunks, top at `p` and its tail, are replaced by the chunks of `d`. */
  function Resettle(cs: Chunks, p: int, d: Chunks): Chunks
    requires p in cs
  {
    (cs - {p, NextOf(cs, p)}) + d
  }

  /** `d` covers the end of segment `i` from `p` on, and is well formed as part of the new layout. */
  ghost predicate EndOk(cs: Chunks, segs': seq<Segment>, p: int, i: nat, d: Chunks)
    requires p in cs
  {
    && i < |segs'| && p in d && d[p].prev == cs[p].prev && !d[p].kind.Tail? && !d[p].kind.Fence?
    && (forall q {:trigger d[q]} :: q in d ==> p <= q < End(segs'[i]) && d[q].seg == i && (q > p ==> d[q].prev in d))
    && (forall x, y {:trigger d[x], d[y]} :: x in d && y in d && x < y ==> x + d[x].size <= y)
    && var cs' := Resettle(cs, p, d);
       forall q {:trigger d[q]} :: q in d ==> ChunkOk(cs', segs', q) && ShapeOk(cs', segs', q) && Merged(cs', q)
  }

  lemma Resettled(cs: Chunks, segs: seq<Segment>, segs': seq<Segment>, hdr: int, p: int, d: Chunks)
    requires LayoutOk(cs, segs, hdr) && p in cs && cs[p].kind.Top? && SegsOk(segs', hdr)
    requires var i := cs[p].seg;
             && |segs'| == |segs| && i < |segs| && EndOk(cs, segs', p, i, d)
             && segs'[i].base == segs[i].base && forall j :: 0 <= j < |segs| && j != i ==> segs'[j] == segs[j]
    ensures LayoutOk(Resettle(cs, p, d), segs', hdr)
  {
    hide SegsOk, PlaceOk, ChunkOk, ShapeOk, Merged, First, Tile, Shape, AllMerged;
    var i, cs' := cs[p].seg, Resettle(cs, p, d);
    var e := NextOf(cs, p);
    NextTag(cs, segs, hdr, p);
    forall q | q in cs'
      ensures ChunkOk(cs', segs', q) && cs'[q].seg < |segs'| && ShapeOk(cs', segs', q) && Merged(cs', q)
    {
      if q in d {
        assert cs'[q] == d[q];
      } else {
        MergedAt(cs, q);
        ResettledOld(cs, segs, segs', hdr, p, d, q);
      }
    }
    ResettledOrder(cs, segs, segs', hdr, p, d);
    ResettledFirsts(cs, segs, segs', hdr, p, d);
    LayoutIntro(cs', segs', hdr);
  }

  /** Top and its tail are the last chunks of their segment. */
  lemma LastTwo(cs: Chunks, segs: seq<Segment>, hdr: int, p: int, q: int)
    requires Tile(cs, segs, hdr) && Shape(cs, segs) && p in cs && cs[p].kind.Top? && q in cs && q != p
    requires q != NextOf(cs, p)
    ensures cs[q].seg == cs[p].seg ==> q + cs[q].size <= p && !cs[q].kind.Record? && !cs[q].kind.Fence?
    ensures cs[q].seg == cs[p].seg ==> !cs[q].kind.Tail?
    ensures cs[q].prev != p && cs[q].prev != NextOf(cs, p) && 0 < p
    ensures q + cs[q].size != NextOf(cs, p)
  {
    var e := NextOf(cs, p);
    At(cs, segs, hdr, p);
    At(cs, segs, hdr, e);
    At(cs, segs, hdr, q);
    Disjoint(cs, segs, hdr, q, p);
    Disjoint(cs, segs, hdr, q, e);
    if cs[q].kind.Record? && cs[q].seg == cs[p].seg {
      var f := NextOf(cs, q);
      At(cs, segs, hdr, f);
      Disjoint(cs, segs, hdr, f, e);
    }
  }

  /** Chunks outside the replaced end keep clear of it. */
  lemma Separate(cs: Chunks, segs: seq<Segment>, segs': seq<Segment>, hdr: int, p: int, q: int)
    requires Tile(cs, segs, hdr) && Shape(cs, segs) && p in cs && cs[p].kind.Top? && q in cs && q != p
    requires q != NextOf(cs, p)
    requires var i := cs[p].seg;
             && |segs'| == |segs| && i < |segs| && SegsOk(segs', hdr)
             && segs'[i].base == segs[i].base && forall j :: 0 <= j < |segs| && j != i ==> segs'[j] == segs[j]
    ensures q + cs[q].size <= p || End(segs'[cs[p].seg]) <= q
    ensures q !in {p, NextOf(cs, p)}
  {
    LastTwo(cs, segs, hdr, p, q);
    At(cs, segs, hdr, q);
    At(cs, segs, hdr, p);
    var i, j := cs[p].seg, cs[q].seg;
    if i != j {
      assert segs'[j] == segs[j];
      assert End(segs'[i]) <= segs'[j].base || End(segs'[j]) <= segs'[i].base;
    }
  }

  lemma ResettledOld(cs: Chunks, segs: seq<Segment>, segs': seq<Segment>, hdr: int, p: int, d: Chunks, q: int)
    requires Tile(cs, segs, hdr) && Shape(cs, segs) && p in cs && cs[p].kind.Top? && SegsOk(segs', hdr)
    requires var i := cs[p].seg;
             && |segs'| == |segs| && i < |segs| && EndOk(cs, segs', p, i, d)
             && segs'[i].base == segs[i].base && forall j :: 0 <= j < |segs| && j != i ==> segs'[j] == segs[j]
    requires q in cs && q !in d && q != p && q != NextOf(cs, p) && Merged(cs, q)
    ensures var cs' := Resettle(cs, p, d);
            q in cs' && ChunkOk(cs', segs', q) && cs'[q].seg < |segs'| && ShapeOk(cs', segs', q) && Merged(cs', q)
  {
    hide EndOk, Tile, Shape, SegsOk, PlaceOk, ShapeOk, Merged;
    LastTwo(cs, segs, hdr, p, q);
    At(cs, segs, hdr, q);
    At(cs, segs, hdr, p);
    NoZero(cs, segs, hdr);
    EndFacts(cs, segs', p, cs[p].seg, d);
    var b, n := cs[q].prev, NextOf(cs, q);
    PlaceFacts(cs[q], segs, q);
    if b != 0 { Separate(cs, segs, segs', hdr, p, b); Placed(cs, segs, hdr, b); }
    if n in cs && n != p { Separate(cs, segs, segs', hdr, p, n); Placed(cs, segs, hdr, n); }
    var cs' := Resettle(cs, p, d);
    assert n !in cs && n in d ==> cs[q].seg != cs[p].seg;
    OldPlace(cs, segs, segs', p, q);
    OldChunk(cs, cs', segs, segs', p, q);
  }

  lemma EndFacts(cs: Chunks, segs': seq<Segment>, p: int, i: nat, d: Chunks)
    requires p in cs && EndOk(cs, segs', p, i, d)
    ensures i < |segs'| && p in d && d[p].prev == cs[p].prev && !d[p].kind.Tail? && !d[p].kind.Fence? && d[p].seg == i
    ensures forall q {:trigger q in d} :: q in d ==> p <= q < End(segs'[i])
  {
  }

  lemma OldChunk(cs: Chunks, cs': Chunks, segs: seq<Segment>, segs': seq<Segment>, p: int, q: int)
    requires p in cs && cs[p].kind.Top? && q in cs && q in cs' && cs'[q] == cs[q]
    requires ChunkOk(cs, segs, q) && ShapeOk(cs, segs, q) && Merged(cs, q) && PlaceOk(cs[q], segs', q)
    requires cs[p].seg < |segs'| == |segs| && segs'[cs[p].seg].base == segs[cs[p].seg].base
    requires cs[q].seg == cs[p].seg || segs'[cs[q].seg] == segs[cs[q].seg]
    requires cs[q].seg == cs[p].seg ==>
               q + cs[q].size < End(segs'[cs[p].seg]) && !cs[q].kind.Record? && !cs[q].kind.Fence? && !cs[q].kind.Tail?
    requires var b := cs[q].prev; (b in cs ==> b in cs' && cs'[b] == cs[b]) && (b != 0 ==> b in cs)
    requires var n := NextOf(cs, q);
             if n in cs && n != p then n in cs' && cs'[n] == cs[n]
             else if n == p then
               n in cs' && cs'[n].prev == cs[p].prev && cs'[n].seg == cs[p].seg &&
               !cs'[n].kind.Tail? && !cs'[n].kind.Fence?
             else n !in cs' || !cs[q].kind.Free?
    requires cs[q].kind.Free? ==> NextOf(cs, q) in cs
    ensures ChunkOk(cs', segs', q) && cs'[q].seg < |segs'| && ShapeOk(cs', segs', q) && Merged(cs', q)
  {
    hide PlaceOk;
    PlaceFacts(cs[q], segs, q);
  }

  lemma OldPlace(cs: Chunks, segs: seq<Segment>, segs': seq<Segment>, p: int, q: int)
    requires p in cs && q in cs && PlaceOk(cs[q], segs, q) && |segs'| == |segs| && cs[p].seg < |segs|
    requires segs'[cs[p].seg].base == segs[cs[p].seg].base
    requires forall j :: 0 <= j < |segs| && j != cs[p].seg ==> segs'[j] == segs[j]
    requires cs[q].seg == cs[p].seg ==> q + cs[q].size <= p <= End(segs'[cs[p].seg])
    ensures PlaceOk(cs[q], segs', q)
  {
  }

  lemma ResettledOrder(cs: Chunks, segs: seq<Segment>, segs': seq<Segment>, hdr: int, p: int, d: Chunks)
    requires Tile(cs, segs, hdr) && Shape(cs, segs) && p in cs && cs[p].kind.Top? && SegsOk(segs', hdr)
    requires var i := cs[p].seg;
             && |segs'| == |segs| && i < |segs| && EndOk(cs, segs', p, i, d)
             && segs'[i].base == segs[i].base && forall j :: 0 <= j < |segs| && j != i ==> segs'[j] == segs[j]
    ensures var cs' := Resettle(cs, p, d);
            forall x, y {:trigger cs'[x], cs'[y]} :: x in cs' && y in cs' && x < y ==> Before(cs', x, y)
  {
    hide SegsOk, ChunkOk, Shape, ShapeOk, Merged;
    var cs', i := Resettle(cs, p, d), cs[p].seg;
    forall x, y | x in cs' && y in cs' && x < y ensures Before(cs', x, y) {
      if x !in d { Separate(cs, segs, segs', hdr, p, x); }
      if y !in d { Separate(cs, segs, segs', hdr, p, y); Placed(cs, segs, hdr, y); }
      if x !in d && y !in d { assert Before(cs, x, y); }
      if x in d { EndBound(cs, segs', p, i, d, x); }
    }
  }

  lemma EndBound(cs: Chunks, segs': seq<Segment>, p: int, i: nat, d: Chunks, x: int)
    requires p in cs && EndOk(cs, segs', p, i, d) && x in d
    ensures p <= x && x + d[x].size <= End(segs'[i])
  {
    assert ChunkOk(Resettle(cs, p, d), segs', x);
  }

  lemma ResettledFirsts(cs: Chunks, segs: seq<Segment>, segs': seq<Segment>, hdr: int, p: int, d: Chunks)
    requires Tile(cs, segs, hdr) && Shape(cs, segs) && p in cs && cs[p].kind.Top? && SegsOk(segs', hdr)
    requires var i := cs[p].seg;
             && |segs'| == |segs| && i < |segs| && EndOk(cs, segs', p, i, d)
             && segs'[i].base == segs[i].base && forall j :: 0 <= j < |segs| && j != i ==> segs'[j] == segs[j]
    ensures var cs' := Resettle(cs, p, d);
            forall j {:trigger segs'[j]} :: 0 <= j < |segs'| ==>
              First(segs'[j]) in cs' && cs'[First(segs'[j])].prev == 0 && cs'[First(segs'[j])].seg == j
  {
    hide SegsOk, ChunkOk, Shape, ShapeOk, Merged;
    var cs', i, e := Resettle(cs, p, d), cs[p].seg, NextOf(cs, p);
    NextTag(cs, segs, hdr, p);
    forall j | 0 <= j < |segs'|
      ensures First(segs'[j]) in cs' && cs'[First(segs'[j])].prev == 0 && cs'[First(segs'[j])].seg == j
    {
      var f := First(segs[j]);
      assert First(segs'[j]) == f && f in cs && cs[f].prev == 0;
      if f != p {
        assert f != e;
        Separate(cs, segs, segs', hdr, p, f);
        Placed(cs, segs, hdr, f);
        assert f !in d;
      }
    }
  }

  /** The predecessor of the replaced end stays where it is. */
  lemma EndPrev(cs: Chunks, segs: seq<Segment>, segs': seq<Segment>, hdr: int, p: int, d: Chunks)
    requires Tile(cs, segs, hdr) && Shape(cs, segs) && p in cs && cs[p].kind.Top? && SegsOk(segs', hdr)
    requires var i := cs[p].seg;
             && |segs'| == |segs| && i < |segs| && segs'[i].base == segs[i].base
             && (forall j :: 0 <= j < |segs| && j != i ==> segs'[j] == segs[j])
             && (forall q {:trigger q in d} :: q in d ==> p <= q) && p in d && d[p].prev == cs[p].prev && d[p].seg == i
    ensures PrevOk(Resettle(cs, p, d), segs', p) && 0 < p && p % 16 == 0 && segs[cs[p].seg].base <= p
    ensures p + cs[p].size + TOP_FOOT_SIZE == End(segs[cs[p].seg]) && 0 < cs[p].size && cs[p].size % 16 == 0
    ensures cs[p].seg == |segs| - 1
    ensures NextOf(cs, p) in cs && cs[NextOf(cs, p)].prev == p && cs[NextOf(cs, p)].seg == cs[p].seg
  {
    hide SegsOk;
    NextTag(cs, segs, hdr, p);
    At(cs, segs, hdr, p);
    At(cs, segs, hdr, NextOf(cs, p));
    PrevBefore(cs, segs, hdr, p);
  }

  /** The current segment gets a new end, and top grows or shrinks by the same amount. */
  lemma MoveEnd(cs: Chunks, segs: seq<Segment>, segs': seq<Segment>, hdr: int, p: int, t: int)
    requires LayoutOk(cs, segs, hdr) && p in cs && cs[p].kind.Top? && SegsOk(segs', hdr)
    requires |segs'| == |segs| && cs[p].seg < |segs| && 16 <= t && t % 16 == 0
    requires var i := cs[p].seg;
             segs' == segs[i := segs[i].(size := segs[i].size + t - cs[p].size)]
    ensures LayoutOk(Resettle(cs, p, TopEnd(cs, p, t)), segs', hdr)
  {
    var i, d := cs[p].seg, TopEnd(cs, p, t);
    EndPrev(cs, segs, segs', hdr, p, d);
    hide LayoutOk, SegsOk, EndOk;
    TopEndOk(cs, segs', p, i, t);
    Resettled(cs, segs, segs', hdr, p, d);
  }

  function TopEnd(cs: Chunks, p: int, t: int): Chunks
    requires p in cs
  {
    map[p := cs[p].(size := t), p + t := Chunk(TOP_FOOT_SIZE, Tail, p, cs[p].seg)]
  }

  /** The end of a segment that is closed: what is left of top, the segment record and the fenceposts. */
  function ClosedEnd(cs: Chunks, p: int): Chunks
    requires p in cs
  {
    var c, e := cs[p], p + cs[p].size;
    if c.size >= MIN_CHUNK_SIZE then
      map[p := c.(kind := Free), e := Chunk(48, Record, p, c.seg), e + 48 := Chunk(32, Fence, e, c.seg)]
    else
      map[p := c.(kind := Record, size := 48), p + 48 := Chunk(c.size + 32, Fence, p, c.seg)]
  }

  /** Where add_segment puts the segment record. */
  function RecordAt(cs: Chunks, p: int): int
    requires p in cs
  {
    if cs[p].size >= MIN_CHUNK_SIZE then p + cs[p].size else p
  }

  lemma CloseTop(cs: Chunks, segs: seq<Segment>, segs': seq<Segment>, hdr: int, p: int)
    requires LayoutOk(cs, segs, hdr) && p in cs && cs[p].kind.Top? && cs[p].seg < |segs|
    requires var i := cs[p].seg; segs' == segs[i := segs[i].(rec := RecordAt(cs, p))]
    requires cs[p].size > 0 && forall x {:trigger cs[x]} :: x in cs && cs[x].kind.Top? ==> x == p
    ensures LayoutOk(Resettle(cs, p, ClosedEnd(cs, p)), segs', hdr) && NoTop(Resettle(cs, p, ClosedEnd(cs, p)))
  {
    hide SegsOk, EndOk, Tile, Shape, AllMerged, ClosedEnd, Resettle, PrevOk;
    var i, d := cs[p].seg, ClosedEnd(cs, p);
    TileSegs(cs, segs, hdr);
    RecordSegs(segs, hdr, i, RecordAt(cs, p));
    ClosedPlaces(cs, p);
    EndPrev(cs, segs, segs', hdr, p, d);
    if cs[p].size >= MIN_CHUNK_SIZE { ClosedEndOk(cs, segs', p, i); } else { TinyEndOk(cs, segs', p, i); }
    Resettled(cs, segs, segs', hdr, p, d);
    ClosedNoTop(cs, p);
  }

  lemma RecordSegs(segs: seq<Segment>, hdr: int, i: nat, rec: int)
    requires SegsOk(segs, hdr) && i < |segs|
    ensures SegsOk(segs[i := segs[i].(rec := rec)], hdr)
  {
  }

  lemma ClosedPlaces(cs: Chunks, p: int)
    requires p in cs
    ensures var d := ClosedEnd(cs, p);
            && p in d && d[p].prev == cs[p].prev && d[p].seg == cs[p].seg
            && (cs[p].size > 0 ==> forall q {:trigger q in d} :: q in d ==> p <= q)
  {
  }

  lemma ClosedNoTop(cs: Chunks, p: int)
    requires p in cs && forall x {:trigger cs[x]} :: x in cs && cs[x].kind.Top? ==> x == p
    ensures NoTop(Resettle(cs, p, ClosedEnd(cs, p)))
  {
    var d, cs' := ClosedEnd(cs, p), Resettle(cs, p, ClosedEnd(cs, p));
    forall x | x in cs' ensures !cs'[x].kind.Top? {
      if x in d { assert cs'[x] == d[x]; } else { assert cs'[x] == cs[x] && x != p; }
    }
  }

  lemma TopEndOk(cs: Chunks, segs': seq<Segment>, p: int, i: nat, t: int)
    requires p in cs && cs[p].kind.Top? && cs[p].seg == i == |segs'| - 1 && 16 <= t && t % 16 == 0 && 0 < p
    requires p % 16 == 0 && cs[p].size > 0
    requires segs'[i].base <= p && End(segs'[i]) == p + t + TOP_FOOT_SIZE
    requires PrevOk(Resettle(cs, p, TopEnd(cs, p, t)), segs', p)
    ensures EndOk(cs, segs', p, i, TopEnd(cs, p, t))
  {
    var d := TopEnd(cs, p, t);
    var cs' := Resettle(cs, p, d);
    assert cs'[p] == d[p] && cs'[p + t] == d[p + t];
    hide Resettle;
    assert ChunkOk(cs', segs', p) && ChunkOk(cs', segs', p + t);
    hide ChunkOk;
    assert ShapeOk(cs', segs', p) && ShapeOk(cs', segs', p + t);
  }

  lemma ClosedEndOk(cs: Chunks, segs': seq<Segment>, p: int, i: nat)
    requires p in cs && cs[p].kind.Top? && cs[p].seg == i < |segs'| && 0 < p && p % 16 == 0 && cs[p].size % 16 == 0
    requires segs'[i].base <= p && End(segs'[i]) == p + cs[p].size + TOP_FOOT_SIZE
    requires PrevOk(Resettle(cs, p, ClosedEnd(cs, p)), segs', p)
    requires cs[p].size >= MIN_CHUNK_SIZE && segs'[i].rec == p + cs[p].size
    ensures EndOk(cs, segs', p, i, ClosedEnd(cs, p))
  {
    var d, e := ClosedEnd(cs, p), p + cs[p].size;
    var cs' := Resettle(cs, p, d);
    assert cs'[p] == d[p] && cs'[e] == d[e] && cs'[e + 48] == d[e + 48];
    hide Resettle;
    assert ChunkOk(cs', segs', p) && ShapeOk(cs', segs', p) && Merged(cs', p);
    ClosedRest(cs', segs', p, e, i);
    hide ChunkOk, ShapeOk, Merged;
  }

  lemma ClosedRest(cs': Chunks, segs': seq<Segment>, p: int, e: int, i: nat)
    requires i < |segs'| && 0 < p < e && e % 16 == 0 && segs'[i].base <= p && End(segs'[i]) == e + TOP_FOOT_SIZE
    requires segs'[i].rec == e
    requires p in cs' && NextOf(cs', p) == e && cs'[p].seg == i
    requires e in cs' && cs'[e] == Chunk(48, Record, p, i) && e + 48 in cs' && cs'[e + 48] == Chunk(32, Fence, e, i)
    ensures ChunkOk(cs', segs', e) && ShapeOk(cs', segs', e) && Merged(cs', e)
    ensures ChunkOk(cs', segs', e + 48) && ShapeOk(cs', segs', e + 48) && Merged(cs', e + 48)
  {
  }

  lemma TinyEndOk(cs: Chunks, segs': seq<Segment>, p: int, i: nat)
    requires p in cs && cs[p].kind.Top? && cs[p].seg == i < |segs'| && 0 < p && p % 16 == 0 && cs[p].size % 16 == 0
    requires segs'[i].base <= p && End(segs'[i]) == p + cs[p].size + TOP_FOOT_SIZE
    requires PrevOk(Resettle(cs, p, ClosedEnd(cs, p)), segs', p)
    requires 0 < cs[p].size < MIN_CHUNK_SIZE && segs'[i].rec == p
    ensures EndOk(cs, segs', p, i, ClosedEnd(cs, p))
  {
    var d := ClosedEnd(cs, p);
    var cs' := Resettle(cs, p, d);
    assert cs'[p] == d[p] && cs'[p + 48] == d[p + 48];
    hide Resettle;
    assert ChunkOk(cs', segs', p) && ChunkOk(cs', segs', p + 48);
  }

  // ---- growing a segment downwards ---------------------------------------------------------------------------------

  /** Segment `s` extended down to `base`. */
  function Extended(s: Segment, base: int): Segment { s.(base := base, size := End(s) - base) }

  /** The new space in front of segment `i`, as one chunk in use. */
  function Prepend(cs: Chunks, segs: seq<Segment>, i: nat, base: int): Chunks
    requires i < |segs| && First(segs[i]) in cs
  {
    var p, f := First(Extended(segs[i], base)), First(segs[i]);
    cs[p := Chunk(f - p, Live, 0, i)][f := cs[f].(prev := p)]
  }

  lemma PrependKeeps(cs: Chunks, segs: seq<Segment>, hdr: int, i: nat, base: int)
    requires LayoutOk(cs, segs, hdr) && i < |segs| && First(segs[i]) in cs
    requires 0 < base && SegsOk(segs[i := Extended(segs[i], base)], hdr)
    requires First(Extended(segs[i], base)) + MIN_CHUNK_SIZE <= First(segs[i]) && base < segs[i].base
    ensures LayoutOk(Prepend(cs, segs, i, base), segs[i := Extended(segs[i], base)], hdr)
    ensures First(Extended(segs[i], base)) !in cs
    ensures forall q {:trigger q in cs} :: q in cs ==>
      q + cs[q].size <= First(Extended(segs[i], base)) || First(segs[i]) <= q
  {
    hide SegsOk, Tile, Shape, AllMerged, ChunkOk, ShapeOk, Merged, First;
    var segs', cs' := segs[i := Extended(segs[i], base)], Prepend(cs, segs, i, base);
    var p, f := First(segs'[i]), First(segs[i]);
    PrependBounds(cs, segs, hdr, i, base);
    FirstsAre(cs, segs, hdr, i);
    forall q | q in cs'
      ensures ChunkOk(cs', segs', q) && cs'[q].seg < |segs'| && ShapeOk(cs', segs', q) && Merged(cs', q)
    {
      At(cs, segs, hdr, f);
      if q == p {
        PrependNew(cs, segs, i, base);
      } else {
        At(cs, segs, hdr, q);
        MergedAt(cs, q);
        NoZero(cs, segs, hdr);
        PrependOld(cs, segs, i, base, q);
      }
    }
    forall x, y | x in cs' && y in cs' && x < y ensures Before(cs', x, y) {
      if x != p && y != p { BeforeAt(cs, segs, hdr, x, y); }
      if y != p { Placed(cs, segs, hdr, y); }
    }
    forall j | 0 <= j < |segs'|
      ensures First(segs'[j]) in cs' && cs'[First(segs'[j])].prev == 0 && cs'[First(segs'[j])].seg == j
    {
      if j != i { FirstsAre(cs, segs, hdr, j); }
    }
    LayoutIntro(cs', segs', hdr);
  }

  lemma BeforeAt(cs: Chunks, segs: seq<Segment>, hdr: int, x: int, y: int)
    requires Tile(cs, segs, hdr) && x in cs && y in cs && x < y
    ensures Before(cs, x, y)
  {
  }

  lemma FirstsAre(cs: Chunks, segs: seq<Segment>, hdr: int, i: nat)
    requires Tile(cs, segs, hdr) && i < |segs|
    ensures First(segs[i]) in cs && cs[First(segs[i])].prev == 0 && cs[First(segs[i])].seg == i
  {
  }

  lemma PrependBounds(cs: Chunks, segs: seq<Segment>, hdr: int, i: nat, base: int)
    requires Tile(cs, segs, hdr) && i < |segs| && 0 < base < segs[i].base
    requires SegsOk(segs[i := Extended(segs[i], base)], hdr)
    requires First(Extended(segs[i], base)) + MIN_CHUNK_SIZE <= First(segs[i])
    ensures var p, f := First(Extended(segs[i], base)), First(segs[i]);
            p !in cs && 0 < p && forall q {:trigger q in cs} :: q in cs ==> q + cs[q].size <= p || f <= q
  {
    var segs' := segs[i := Extended(segs[i], base)];
    FirstBounds(segs'[i]);
    FirstBounds(segs[i]) by { TileSegs(cs, segs, hdr); }
    var p, f := First(segs'[i]), First(segs[i]);
    FirstsAre(cs, segs, hdr, i);
    forall q | q in cs ensures q + cs[q].size <= p || f <= q { PrependClearOf(cs, segs, hdr, i, base, q); }
    Placed(cs, segs, hdr, f);
    forall q | q in cs ensures q != p { Placed(cs, segs, hdr, q); }
  }

  lemma PrependClearOf(cs: Chunks, segs: seq<Segment>, hdr: int, i: nat, base: int, q: int)
    requires Tile(cs, segs, hdr) && i < |segs| && 0 < base < segs[i].base && q in cs && First(segs[i]) in cs
    requires SegsOk(segs[i := Extended(segs[i], base)], hdr) && cs[First(segs[i])].seg == i
    requires base <= First(Extended(segs[i], base))
    ensures q + cs[q].size <= First(Extended(segs[i], base)) || First(segs[i]) <= q
  {
    hide First;
    var segs' := segs[i := Extended(segs[i], base)];
    assert ChunkOk(cs, segs, q);
    var j := cs[q].seg;
    TileSegs(cs, segs, hdr);
    FirstBounds(segs[i]);
    FirstBounds(segs[j]);
    if j != i {
      assert segs'[j] == segs[j];
      assert End(segs'[i]) <= segs'[j].base || End(segs'[j]) <= segs'[i].base;
    }
    Disjoint(cs, segs, hdr, q, First(segs[i]));
  }

  lemma PrependNew(cs: Chunks, segs: seq<Segment>, i: nat, base: int)
    requires i < |segs| && First(segs[i]) in cs && ChunkOk(cs, segs, First(segs[i])) && cs[First(segs[i])].seg == i
    requires 0 < base < segs[i].base
    requires First(Extended(segs[i], base)) + MIN_CHUNK_SIZE <= First(segs[i])
    ensures var cs', segs', p := Prepend(cs, segs, i, base), segs[i := Extended(segs[i], base)],
        First(Extended(segs[i], base));
            ChunkOk(cs', segs', p) && ShapeOk(cs', segs', p) && Merged(cs', p)
  {
    FirstBounds(segs[i]);
    FirstBounds(Extended(segs[i], base));
  }

  lemma PrependOld(cs: Chunks, segs: seq<Segment>, i: nat, base: int, q: int)
    requires i < |segs| && First(segs[i]) in cs && cs[First(segs[i])].seg == i && cs[First(segs[i])].prev == 0
    requires base < segs[i].base && 0 !in cs
    requires var p := First(Extended(segs[i], base)); p !in cs && p != q && 0 < p < First(segs[i])
    requires q in cs && ChunkOk(cs, segs, q) && ShapeOk(cs, segs, q) && Merged(cs, q)
    requires cs[q].kind.Free? ==> NextOf(cs, q) in cs
    ensures var cs', segs' := Prepend(cs, segs, i, base), segs[i := Extended(segs[i], base)];
            ChunkOk(cs', segs', q) && cs'[q].seg < |segs'| && ShapeOk(cs', segs', q) && Merged(cs', q)
  {
    hide First;
  }

  // ---- giving a segment back ------------------------------------------------------------------------------

  function Renumber(j: nat, i: nat): nat { if j > i then j - 1 else j }

  /** The layout without segment `i`. */
  function Drop(cs: Chunks, i: nat): Chunks {
    map q | q in cs && cs[q].seg != i :: cs[q].(seg := Renumber(cs[q].seg, i))
  }

  lemma DropKeeps(cs: Chunks, segs: seq<Segment>, hdr: int, i: nat)
    requires LayoutOk(cs, segs, hdr) && i + 1 < |segs|
    ensures LayoutOk(Drop(cs, i), segs[..i] + segs[i + 1..], hdr)
  {
    hide SegsOk, Tile, Shape, AllMerged, ChunkOk, ShapeOk, Merged, First;
    var segs', cs' := segs[..i] + segs[i + 1..], Drop(cs, i);
    assert SegsOk(segs', hdr) by { TileSegs(cs, segs, hdr); DropSegs(segs, hdr, i); }
    forall q | q in cs'
      ensures ChunkOk(cs', segs', q) && cs'[q].seg < |segs'| && ShapeOk(cs', segs', q) && Merged(cs', q)
    {
      At(cs, segs, hdr, q);
      MergedAt(cs, q);
      NoZero(cs, segs, hdr);
      DropOld(cs, segs, i, q);
    }
    forall x, y | x in cs' && y in cs' && x < y ensures Before(cs', x, y) { BeforeAt(cs, segs, hdr, x, y); }
    forall j | 0 <= j < |segs'|
      ensures First(segs'[j]) in cs' && cs'[First(segs'[j])].prev == 0 && cs'[First(segs'[j])].seg == j
    {
      FirstsAre(cs, segs, hdr, if j < i then j else j + 1);
    }
    LayoutIntro(cs', segs', hdr);
  }

  lemma DropSegs(segs: seq<Segment>, hdr: int, i: nat)
    requires SegsOk(segs, hdr) && i < |segs|
    ensures SegsOk(segs[..i] + segs[i + 1..], hdr)
  {
  }

  lemma DropOld(cs: Chunks, segs: seq<Segment>, i: nat, q: int)
    requires i + 1 < |segs| && q in cs && cs[q].seg != i && ChunkOk(cs, segs, q) && ShapeOk(cs, segs, q)
    requires Merged(cs, q)
    requires (cs[q].kind.Free? ==> Inner(cs, segs, q)) && 0 !in cs
    ensures var cs', segs' := Drop(cs, i), segs[..i] + segs[i + 1..];
            ChunkOk(cs', segs', q) && cs'[q].seg < |segs'| && ShapeOk(cs', segs', q) && Merged(cs', q)
  {
    hide First;
    var cs', segs' := Drop(cs, i), segs[..i] + segs[i + 1..];
    assert segs'[cs'[q].seg] == segs[cs[q].seg];
  }
}
