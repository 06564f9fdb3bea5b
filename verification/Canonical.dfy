/**
 * A fully merged layout is determined by the chunks in use: the order in which chunks were freed, and whether
 * neighbours were joined before they were freed, leaves no trace.
 */
module Canonical {
  import opened Layout
  import opened Tags
  import opened HeapSteps
  import opened Growth

  ghost predicate UsedAt(cs: Chunks, x: int) { x in cs && InUse(cs[x].kind) }

  /** Both layouts have the same chunks in use. */
  ghost predicate SameUse(cs1: Chunks, cs2: Chunks) {
    && (forall x {:trigger UsedAt(cs1, x)} {:trigger UsedAt(cs2, x)} :: UsedAt(cs1, x) <==> UsedAt(cs2, x))
    && (forall x {:trigger UsedAt(cs1, x)} {:trigger UsedAt(cs2, x)} :: UsedAt(cs1, x) && UsedAt(cs2, x) ==>
          cs1[x].kind == cs2[x].kind && cs1[x].size == cs2[x].size)
  }

  ghost predicate SameAt(cs1: Chunks, cs2: Chunks, x: int) {
    x in cs1 && x in cs2 && cs1[x].kind == cs2[x].kind && cs1[x].size == cs2[x].size
  }

  ghost predicate SameChunks(cs1: Chunks, cs2: Chunks) {
    forall x {:trigger x in cs1} {:trigger x in cs2} :: x in cs1 || x in cs2 ==> SameAt(cs1, cs2, x)
  }

  /** What follows a chunk that is not in use. */
  lemma AfterUnused(cs: Chunks, segs: seq<Segment>, hdr: int, x: int)
    requires LayoutOk(cs, segs, hdr) && x in cs && !InUse(cs[x].kind)
    ensures cs[x].seg < |segs| && 0 < cs[x].size
    ensures cs[x].kind.Free? ==> UsedAt(cs, NextOf(cs, x)) && NextOf(cs, x) < End(segs[cs[x].seg])
    ensures cs[x].kind.Top? ==> NextOf(cs, x) in cs && cs[NextOf(cs, x)].kind.Tail?
    ensures cs[x].kind.Top? ==> NextOf(cs, x) + TOP_FOOT_SIZE == End(segs[cs[x].seg])
    ensures cs[x].kind.Tail? ==> cs[x].size == TOP_FOOT_SIZE && NextOf(cs, x) == End(segs[cs[x].seg])
    ensures forall y {:trigger y in cs} :: y in cs ==> !(x < y < NextOf(cs, x))
  {
    At(cs, segs, hdr, x);
    NoneInside(cs, segs, hdr, x);
    if cs[x].kind.Free? {
      assert Merged(cs, x);
      NextTag(cs, segs, hdr, x);
      Placed(cs, segs, hdr, NextOf(cs, x));
    }
    if cs[x].kind.Top? { At(cs, segs, hdr, NextOf(cs, x)); NextTag(cs, segs, hdr, x); }
  }

  /** No chunk starts in the tail of the segment behind top. */
  lemma NothingAfterTop(cs: Chunks, segs: seq<Segment>, hdr: int, x: int, y: int)
    requires LayoutOk(cs, segs, hdr) && x in cs && cs[x].kind.Top? && y in cs && cs[x].seg < |segs|
    requires x < y < End(segs[cs[x].seg])
    ensures !InUse(cs[y].kind)
  {
    AfterUnused(cs, segs, hdr, x);
    AfterUnused(cs, segs, hdr, NextOf(cs, x));
    NextTag(cs, segs, hdr, x);
  }

  lemma UnusedAlike(cs1: Chunks, cs2: Chunks, segs: seq<Segment>, hdr: int, x: int)
    requires LayoutOk(cs1, segs, hdr) && LayoutOk(cs2, segs, hdr) && SameUse(cs1, cs2)
    requires x in cs1 && x in cs2 && !InUse(cs1[x].kind) && !InUse(cs2[x].kind) && cs1[x].seg == cs2[x].seg
    ensures SameAt(cs1, cs2, x)
  {
    AfterUnused(cs1, segs, hdr, x);
    AfterUnused(cs2, segs, hdr, x);
    var e1, e2, end := NextOf(cs1, x), NextOf(cs2, x), End(segs[cs1[x].seg]);
    hide LayoutOk;
    assert cs1[x].kind.Free? ==> UsedAt(cs2, e1);
    assert cs2[x].kind.Free? ==> UsedAt(cs1, e2);
    if cs1[x].kind.Free? && cs2[x].kind.Top? { NothingAfterTop(cs2, segs, hdr, x, e1); }
    if cs2[x].kind.Free? && cs1[x].kind.Top? { NothingAfterTop(cs1, segs, hdr, x, e2); }
  }

  lemma {:induction false} Alike(cs1: Chunks, cs2: Chunks, segs: seq<Segment>, hdr: int, x: int)
    requires LayoutOk(cs1, segs, hdr) && LayoutOk(cs2, segs, hdr) && SameUse(cs1, cs2) && x in cs1
    ensures SameAt(cs1, cs2, x) && cs1[x].seg == cs2[x].seg
    decreases x
  {
    At(cs1, segs, hdr, x);
    var b := cs1[x].prev;
    if b == 0 {
      assert First(segs[cs1[x].seg]) in cs2;
    } else {
      At(cs1, segs, hdr, b);
      Alike(cs1, cs2, segs, hdr, b);
      At(cs2, segs, hdr, b);
    }
    assert x in cs2 && cs2[x].seg == cs1[x].seg;
    hide LayoutOk;
    assert UsedAt(cs1, x) <==> UsedAt(cs2, x);
    if !InUse(cs1[x].kind) { UnusedAlike(cs1, cs2, segs, hdr, x); }
  }

  /** Two fully merged layouts of the same segments with the same chunks in use are the same. */
  lemma UseDetermines(cs1: Chunks, cs2: Chunks, segs: seq<Segment>, hdr: int)
    requires LayoutOk(cs1, segs, hdr) && LayoutOk(cs2, segs, hdr) && SameUse(cs1, cs2)
    ensures SameChunks(cs1, cs2)
  {
    hide LayoutOk;
    forall x | x in cs1 || x in cs2 ensures SameAt(cs1, cs2, x) {
      if x in cs1 { Alike(cs1, cs2, segs, hdr, x); } else { Alike(cs2, cs1, segs, hdr, x); }
    }
  }

  // ---- freeing one by one ---------------------------------------------------------------------------------

  /** Frees the chunks of `ps` one after the other. */
  function FreeAll(cs: Chunks, ps: seq<int>): Chunks {
    if ps == [] then cs else FreeAll(Freed(cs, ps[0]), ps[1..])
  }

  /** The chunks in use are those of `cs` without `gone`. */
  ghost predicate UseWithout(cs: Chunks, cs': Chunks, gone: set<int>) {
    && (forall x {:trigger UsedAt(cs', x)} {:trigger UsedAt(cs, x)} :: UsedAt(cs', x) <==> UsedAt(cs, x) && x !in gone)
    && (forall x {:trigger UsedAt(cs', x)} :: UsedAt(cs', x) && x in cs ==>
          cs'[x].kind == cs[x].kind && cs'[x].size == cs[x].size)
  }

  lemma FreedUse(cs: Chunks, segs: seq<Segment>, hdr: int, p: int)
    requires LayoutOk(cs, segs, hdr) && p in cs && cs[p].kind.Live?
    ensures LayoutOk(Freed(cs, p), segs, hdr) && UseWithout(cs, Freed(cs, p), {p})
  {
    ReleaseKeeps(cs, segs, hdr, p);
    ReleaseFuses(cs, segs, hdr, p);
    ReleaseSpan(cs, segs, hdr, p);
    NextTag(cs, segs, hdr, p);
    var cs', q, e := Freed(cs, p), MergeStart(cs, p), MergeEnd(cs, p);
    hide LayoutOk, Release;
    forall x ensures UsedAt(cs', x) <==> UsedAt(cs, x) && x != p {
      assert x in cs' <==> x in cs && !(q < x < e);
      if x in cs' && x != q && x != e { assert cs'[x] == cs[x]; }
    }
    forall x | UsedAt(cs', x) && x in cs ensures cs'[x].kind == cs[x].kind && cs'[x].size == cs[x].size {
      if x != q && x != e { assert cs'[x] == cs[x]; }
    }
  }

  ghost predicate AllLive(cs: Chunks, ps: seq<int>) {
    forall i {:trigger ps[i]} :: 0 <= i < |ps| ==> ps[i] in cs && cs[ps[i]].kind.Live?
  }

  ghost predicate Distinct(ps: seq<int>) {
    forall i, j {:trigger ps[i], ps[j]} :: 0 <= i < j < |ps| ==> ps[i] != ps[j]
  }

  ghost function Elems(ps: seq<int>): (r: set<int>)
    ensures forall x :: x in r <==> x in ps
  {
    if ps == [] then {} else {ps[0]} + Elems(ps[1..])
  }

  lemma {:induction false} FreeAllUse(cs: Chunks, segs: seq<Segment>, hdr: int, ps: seq<int>)
    requires LayoutOk(cs, segs, hdr) && AllLive(cs, ps) && Distinct(ps)
    ensures LayoutOk(FreeAll(cs, ps), segs, hdr) && UseWithout(cs, FreeAll(cs, ps), Elems(ps))
  {
    if ps != [] {
      var cs1, rest := Freed(cs, ps[0]), ps[1..];
      FreedUse(cs, segs, hdr, ps[0]);
      forall i | 0 <= i < |rest| ensures rest[i] in cs1 && cs1[rest[i]].kind.Live? {
        assert rest[i] == ps[i + 1];
        assert UsedAt(cs, ps[i + 1]) && ps[i + 1] != ps[0];
      }
      hide LayoutOk, Freed;
      FreeAllUse(cs1, segs, hdr, rest);
      UseTwice(cs, cs1, FreeAll(cs1, rest), {ps[0]}, Elems(rest));
    }
  }

  lemma UseTwice(cs: Chunks, cs1: Chunks, cs2: Chunks, a: set<int>, b: set<int>)
    requires UseWithout(cs, cs1, a) && UseWithout(cs1, cs2, b)
    ensures UseWithout(cs, cs2, a + b)
  {
    forall x | UsedAt(cs2, x) && x in cs ensures cs2[x].kind == cs[x].kind && cs2[x].size == cs[x].size {
      assert UsedAt(cs1, x) && UsedAt(cs, x);
    }
  }

  /** However the chunks of `ps` came to be freed, the result is the same as freeing them one by one. */
  lemma SameAsOneByOne(cs: Chunks, cs': Chunks, segs: seq<Segment>, hdr: int, ps: seq<int>)
    requires LayoutOk(cs, segs, hdr) && LayoutOk(cs', segs, hdr) && AllLive(cs, ps) && Distinct(ps)
    requires UseWithout(cs, cs', Elems(ps))
    ensures SameChunks(cs', FreeAll(cs, ps))
  {
    hide LayoutOk;
    FreeAllUse(cs, segs, hdr, ps);
    var cs2 := FreeAll(cs, ps);
    forall x ensures UsedAt(cs', x) <==> UsedAt(cs2, x) { assert UsedAt(cs, x) <==> UsedAt(cs, x); }
    forall x | UsedAt(cs', x) && UsedAt(cs2, x) ensures cs'[x].kind == cs2[x].kind && cs'[x].size == cs2[x].size {
      assert UsedAt(cs, x);
    }
    UseDetermines(cs', cs2, segs, hdr);
  }

  // ---- bulk free ------------------------------------------------------------------------------------------

  /** The chunks that the first `k` entries point to. */
  ghost function PtrSet(a: seq<int>, k: nat): set<int>
    requires k <= |a|
  {
    if k == 0 then {} else PtrSet(a, k - 1) + (if a[k - 1] == 0 then {} else {a[k - 1] - 16})
  }

  lemma {:induction false} PtrFrom(a: seq<int>, k: nat, x: int) returns (j: nat)
    requires k <= |a| && x in PtrSet(a, k)
    ensures j < k && a[j] != 0 && a[j] == x + 16
  {
    if a[k - 1] != 0 && a[k - 1] - 16 == x { j := k - 1; } else { j := PtrFrom(a, k - 1, x); }
  }

  lemma {:induction false} PtrIn(a: seq<int>, k: nat, j: nat)
    requires j < k <= |a| && a[j] != 0
    ensures a[j] - 16 in PtrSet(a, k)
  {
    if j < k - 1 { PtrIn(a, k - 1, j); }
  }

  /** The chunks in use are those of `cs` without `gone`; chunk `c`, if not 0, may have grown. */
  ghost predicate UseBut(cs: Chunks, cs': Chunks, gone: set<int>, c: int) {
    && (forall x {:trigger UsedAt(cs', x)} {:trigger UsedAt(cs, x)} :: UsedAt(cs', x) <==> UsedAt(cs, x) && x !in gone)
    && (forall x {:trigger UsedAt(cs', x)} :: UsedAt(cs', x) && x in cs ==>
          cs'[x].kind == cs[x].kind && (x != c ==> cs'[x].size == cs[x].size))
  }

  /** What is gone when entry `i` is next and `c`, if not 0, stands for a run of chunks that ends with entry `i`. */
  ghost function Gone(cs: Chunks, a: seq<int>, i: nat, c: int): set<int>
    requires i <= |a| && (c != 0 ==> i < |a|)
  {
    set x | x in PtrSet(a, if c == 0 then i else i + 1) && x in cs && x != c
  }

  lemma FreedUseBut(cs0: Chunks, cs: Chunks, segs: seq<Segment>, hdr: int, gone: set<int>, c: int, p: int)
    requires UseBut(cs0, cs, gone, c) && LayoutOk(cs, segs, hdr) && p in cs && cs[p].kind.Live? && (c == 0 || c == p)
    requires 0 !in cs0
    ensures LayoutOk(Freed(cs, p), segs, hdr) && UseBut(cs0, Freed(cs, p), gone + {p}, 0)
  {
    FreedUse(cs, segs, hdr, p);
    hide LayoutOk, Freed;
    var cs' := Freed(cs, p);
    forall x | UsedAt(cs', x) && x in cs0 ensures cs'[x].kind == cs0[x].kind && cs'[x].size == cs0[x].size {
      assert UsedAt(cs, x) && UsedAt(cs0, x);
    }
  }

  lemma JoinUseBut(cs0: Chunks, v: View, v': View, segs: seq<Segment>, hdr: int, gone: set<int>, c: int, p: int, s: int)
    requires UseBut(cs0, v.cs, gone, c) && Tile(v.cs, segs, hdr) && Shape(v.cs, segs) && Grows(v, v', p, s, Live)
    requires (c == 0 || c == p)
    requires s == v.cs[p].size + v.cs[NextOf(v.cs, p)].size && v.cs[NextOf(v.cs, p)].kind.Live?
    ensures UseBut(cs0, v'.cs, gone + {NextOf(v.cs, p)}, p)
  {
    GrowGrewTo(v, v', segs, hdr, p, s, Live);
    hide Grow, Grows;
    var cs, cs', n := v.cs, v'.cs, NextOf(v.cs, p);
    forall x ensures UsedAt(cs', x) <==> UsedAt(cs, x) && x != n {
      assert x in cs' <==> x in cs && x != n;
    }
    forall x | UsedAt(cs', x) && x in cs0
      ensures cs'[x].kind == cs0[x].kind && (x != p ==> cs'[x].size == cs0[x].size)
    {
      assert UsedAt(cs, x) && UsedAt(cs0, x);
    }
  }

  /** Entry `i` was freed. */
  lemma GoneFreed(cs: Chunks, a: seq<int>, i: nat, c: int, p: int)
    requires i < |a| && a[i] != 0 && p in cs && 0 !in cs
    requires (if c == 0 then p == a[i] - 16 else c == p && p in PtrSet(a, i))
    ensures Gone(cs, a, i + 1, 0) == Gone(cs, a, i, c) + {p}
  {
    PtrStep(a, i);
    hide PtrSet;
    var g, g' := Gone(cs, a, i, c), Gone(cs, a, i + 1, 0);
    assert forall x :: x in g' <==> x in g || x == p;
  }

  lemma PtrStep(a: seq<int>, i: nat)
    requires i < |a| && a[i] != 0
    ensures PtrSet(a, i + 1) == PtrSet(a, i) + {a[i] - 16}
  {
  }

  /** Entry `i` was joined with entry `i + 1`. */
  lemma GoneJoined(cs: Chunks, a: seq<int>, i: nat, c: int, p: int)
    requires i + 1 < |a| && a[i] != 0 && a[i + 1] != 0 && p in cs && a[i + 1] - 16 in cs && 0 !in cs
    requires a[i + 1] - 16 != p
    requires if c == 0 then p == a[i] - 16 && p !in PtrSet(a, i) else c == p && p in PtrSet(a, i)
    ensures Gone(cs, a, i + 1, p) == Gone(cs, a, i, c) + {a[i + 1] - 16} && p in PtrSet(a, i + 1)
  {
    PtrStep(a, i);
    PtrStep(a, i + 1);
    hide PtrSet;
    var g, g', n := Gone(cs, a, i, c), Gone(cs, a, i + 1, p), a[i + 1] - 16;
    assert forall x :: x in g' <==> x in g || x == n;
  }

  /** Entry `i` was null or not a chunk of a segment. */
  lemma GoneSkipped(cs: Chunks, a: seq<int>, i: nat)
    requires i < |a| && (a[i] == 0 || a[i] - 16 !in cs)
    ensures Gone(cs, a, i + 1, 0) == Gone(cs, a, i, 0)
  {
  }
}
