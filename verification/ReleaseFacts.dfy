/** What giving segments and the end of top back to the system relies on. */
module ReleaseFacts {
  import opened Words
  import opened BinIndex
  import opened BitMaps
  import opened Memory
  import opened SmallBins
  import opened BinStore
  import opened Layout
  import opened Tags
  import opened HeapBase
  import opened HeapSteps
  import opened Segments
  import opened SegmentSteps
  import opened HeapFacts
  import opened SegmentFacts

  // ---- release_unused_segments ----------------------------------------------------------------------------

  /** The segments without segment `i`, if it is gone. */
  function Spared(segs: seq<Segment>, i: nat, gone: bool): seq<Segment>
    requires i < |segs|
  {
    if gone then segs[..i] + segs[i + 1..] else segs
  }

  /** Segment `i` is given back: it is a mapping that holds no chunk in use, and the system agrees. */
  ghost predicate Goes(cs: Chunks, segs: seq<Segment>, answers: nat -> bool, i: nat)
    requires i + 1 < |segs|
  {
    segs[i].mmapped && Idle(cs, segs, i) && answers(|segs| - 1 - i)
  }

  /** The victim fills one of the mapped segments from `i` on, other than the current one. */
  ghost predicate VictimIdle(cs: Chunks, segs: seq<Segment>, dv: int, i: nat) {
    exists j: nat :: i <= j && VictimFills(cs, segs, dv, j)
  }

  ghost predicate VictimFills(cs: Chunks, segs: seq<Segment>, dv: int, j: nat) {
    j + 1 < |segs| && segs[j].mmapped && Idle(cs, segs, j) && First(segs[j]) == dv
  }

  lemma VictimScanned(cs: Chunks, segs: seq<Segment>, dv: int, i: nat)
    ensures VictimIdle(cs, segs, dv, i) <==> VictimFills(cs, segs, dv, i) || VictimIdle(cs, segs, dv, i + 1)
    ensures i + 1 >= |segs| ==> !VictimIdle(cs, segs, dv, i)
  {
    hide Idle, First;
  }

  /** The segments from `i` on that are not given back. The current segment always stays. */
  ghost function Staying(cs: Chunks, segs: seq<Segment>, answers: nat -> bool, i: nat): (r: seq<Segment>)
    requires i < |segs|
    ensures r != [] && r[|r| - 1] == segs[|segs| - 1]
    decreases |segs| - i
  {
    if i + 1 == |segs| then [segs[i]]
    else (if Goes(cs, segs, answers, i) then [] else [segs[i]]) + Staying(cs, segs, answers, i + 1)
  }

  lemma IdleTest(cs: Chunks, segs: seq<Segment>, i: nat)
    requires i + 1 < |segs| && First(segs[i]) in cs && !cs[First(segs[i])].kind.Top? && !cs[First(segs[i])].kind.Tail?
    ensures var p := First(segs[i]);
      Idle(cs, segs, i) <==> !InUse(cs[p].kind) && p + cs[p].size >= End(segs[i]) - TOP_FOOT_SIZE
  {
  }

  /** Giving back segment `i` does not decide about the segments before it. */
  lemma DropIdle(m: Mem, v: View, segs: seq<Segment>, hdr: int, least: int, i: nat)
    requires HeapOk(m, v, segs, hdr, least) && i + 1 < |segs|
    ensures forall j :: 0 <= j < i ==> Idle(Drop(v.cs, i), Spared(segs, i, true), j) == Idle(v.cs, segs, j)
  {
    hide Tile, First;
    var cs, segs' := v.cs, Spared(segs, i, true);
    forall j | 0 <= j < i ensures Idle(Drop(cs, i), segs', j) == Idle(cs, segs, j) {
      FirstsAre(cs, segs, hdr, j);
      assert segs'[j] == segs[j];
    }
  }

  /** Where the scan stands before segment `i - 1`: the segments from `i` on are decided, the others as they were. */
  ghost predicate Scanned(
    cs0: Chunks, segs0: seq<Segment>, answers: nat -> bool, cs: Chunks, segs: seq<Segment>, i: nat, released: int
  ) {
    && i < |segs0| && segs == segs0[..i] + Staying(cs0, segs0, answers, i)
    && released >= 0 && (released == 0 <==> segs == segs0) && |segs| <= |segs0|
    && forall j :: 0 <= j < i ==> Idle(cs, segs, j) == Idle(cs0, segs0, j)
  }

  lemma ScanStart(cs0: Chunks, segs0: seq<Segment>, answers: nat -> bool)
    requires segs0 != []
    ensures Scanned(cs0, segs0, answers, cs0, segs0, |segs0| - 1, 0)
  {
  }

  lemma ScanDone(
    cs0: Chunks, segs0: seq<Segment>, answers: nat -> bool, cs: Chunks, segs: seq<Segment>, released: int
  )
    requires Scanned(cs0, segs0, answers, cs, segs, 0, released)
    ensures segs == Staying(cs0, segs0, answers, 0) && (released == 0 <==> segs == segs0)
  {
  }

  lemma ScanRoom(cs0: Chunks, segs0: seq<Segment>, answers: nat -> bool, segs: seq<Segment>, i: nat)
    requires i + 1 < |segs0| && segs == segs0[..i + 1] + Staying(cs0, segs0, answers, i + 1)
    ensures i + 1 < |segs| && segs[i] == segs0[i]
    ensures Spared(segs, i, Goes(cs0, segs0, answers, i)) == segs0[..i] + Staying(cs0, segs0, answers, i)
  {
    hide Goes;
    assert segs0[..i + 1] == segs0[..i] + [segs0[i]];
  }

  /** The scan decides about segment `i`. */
  lemma ScanStep(
    cs0: Chunks, segs0: seq<Segment>, answers: nat -> bool, m: Mem, v: View, segs: seq<Segment>, hdr: int, least: int,
    i: nat, released: int, r: nat
  )
    requires Scanned(cs0, segs0, answers, v.cs, segs, i + 1, released) && HeapOk(m, v, segs, hdr, least)
    requires r > 0 <==> i + 1 < |segs| && segs[i].mmapped && Idle(v.cs, segs, i) && answers(|segs0| - 1 - i)
    ensures i + 1 < |segs| && i < |Spared(segs, i, r > 0)|
    ensures Scanned(cs0, segs0, answers, if r > 0 then Drop(v.cs, i) else v.cs, Spared(segs, i, r > 0), i,
      released + r)
  {
    hide HeapOk, Idle, Drop, Staying, Spared, Goes;
    ScanRoom(cs0, segs0, answers, segs, i);
    ScanGoes(cs0, segs0, answers, v.cs, segs, i, released);
    SparedSize(segs, i, r > 0);
    DropIdle(m, v, segs, hdr, least, i);
    assert Spared(segs, i, r > 0) == segs0[..i] + Staying(cs0, segs0, answers, i);
  }

  lemma ScanGoes(
    cs0: Chunks, segs0: seq<Segment>, answers: nat -> bool, cs: Chunks, segs: seq<Segment>, i: nat, released: int
  )
    requires Scanned(cs0, segs0, answers, cs, segs, i + 1, released) && i + 1 < |segs| && segs[i] == segs0[i]
    ensures Goes(cs0, segs0, answers, i) <==> segs[i].mmapped && Idle(cs, segs, i) && answers(|segs0| - 1 - i)
  {
    hide Staying;
  }

  /** The scan looks at segment `i`, which the victim may fill. */
  lemma VictimStep(
    cs0: Chunks, segs0: seq<Segment>, dv: int, answers: nat -> bool, m: Mem, v: View, segs: seq<Segment>, hdr: int,
    least: int, i: nat, released: int
  )
    requires Scanned(cs0, segs0, answers, v.cs, segs, i + 1, released) && HeapOk(m, v, segs, hdr, least)
    requires v.dv == if VictimIdle(cs0, segs0, dv, i + 1) then 0 else dv
    ensures VictimIdle(cs0, segs0, dv, i) <==> VictimIdle(cs0, segs0, dv, i + 1) || VictimFills(v.cs, segs, v.dv, i)
    ensures VictimIdle(cs0, segs0, dv, i + 1) ==> !VictimFills(v.cs, segs, v.dv, i)
  {
    hide HeapOk, Idle, Staying, VictimIdle, First;
    VictimScanned(cs0, segs0, dv, i);
    ScanRoom(cs0, segs0, answers, segs, i);
    assert First(segs[i]) != 0 by { FirstTags(m, v, segs, hdr, least, i); FirstPositive(segs[i]); }
  }

  lemma FirstPositive(s: Segment)
    requires 0 < s.base
    ensures First(s) > 0
  {
  }

  lemma SparedSize(segs: seq<Segment>, i: nat, gone: bool)
    requires i < |segs|
    ensures |Spared(segs, i, gone)| == |segs| - if gone then 1 else 0
    ensures !gone ==> Spared(segs, i, gone) == segs
  {
  }

  lemma FirstTags(m: Mem, v: View, segs: seq<Segment>, hdr: int, least: int, i: nat)
    requires HeapOk(m, v, segs, hdr, least) && i < |segs|
    ensures var p := First(segs[i]);
            && p in v.cs && v.cs[p].seg == i && ChunkSize(m, p) == v.cs[p].size && Pinuse(m, p)
            && (Cinuse(m, p) <==> InUse(v.cs[p].kind))
            && (p == v.dv ==> v.cs[p].kind.Free?) && (v.cs[p].kind.Top? ==> i == |segs| - 1) && !v.cs[p].kind.Tail?
            && 0 < segs[i].size && 0 < segs[i].base
  {
    var p := First(segs[i]);
    FirstsAre(v.cs, segs, hdr, i);
    NotFence(v.cs, segs, hdr, p);
    NoZero(v.cs, segs, hdr);
    At(v.cs, segs, hdr, p);
    assert TagOk(m, v.cs, p);
    TagParts(m, v.cs, p);
  }

  /** The free chunk of an idle mapped segment is large. */
  lemma IdleSize(m: Mem, v: View, segs: seq<Segment>, hdr: int, least: int, i: nat, g: nat)
    requires HeapOk(m, v, segs, hdr, least) && i + 1 < |segs| && First(segs[i]) in v.cs
    requires !InUse(v.cs[First(segs[i])].kind)
    requires var p := First(segs[i]); p + v.cs[p].size >= End(segs[i]) - TOP_FOOT_SIZE
    requires g >= 4096 && Multiple(segs[i].size, g)
    ensures var p := First(segs[i]);
            && Idle(v.cs, segs, i) && v.cs[p].size >= MIN_LARGE_SIZE
            && (if p == v.dv then p !in v.bs else p in v.bs && v.bs[p] == v.cs[p].size)
            && v.cs[p].size < W64 && p != 0
  {
    var p := First(segs[i]);
    FirstTags(m, v, segs, hdr, least, i);
    FirstBounds(segs[i]);
    NoZero(v.cs, segs, hdr);
    At(v.cs, segs, hdr, p);
    MultipleAtLeast(segs[i].size, g);
  }

  lemma MultipleAtLeast(s: int, g: int)
    requires 0 < s && Multiple(s, g)
    ensures s >= g
  {
  }

  lemma PartOf(bs: map<int, nat>, p: int)
    ensures SubMap(bs, bs) && SubMap(bs - {p}, bs)
  {
  }

  lemma NoSuch(bs: map<int, nat>, p: int)
    ensures p !in bs ==> bs - {p} == bs
  {
  }

  lemma RoomAgain(m: Mem, m2: Mem, v: View, segs: seq<Segment>, hdr: int, least: int, p: int, bs2: map<int, nat>)
    requires HeapOk(m, v, segs, hdr, least) && p in v.cs && v.cs[p].kind.Free? && OnlySlots(m, m2, v.bs, hdr)
    requires SubMap(bs2, v.bs) && v.cs[p].size >= 0
    ensures Spaced(bs2[p := v.cs[p].size], hdr) && least <= p && ChunkSize(m2, p) == v.cs[p].size
  {
    SlotsKeepTags(m, m2, v.cs, segs, hdr, v.bs);
    SpacedIn(v.cs, segs, hdr, bs2[p := v.cs[p].size]);
    Placed(v.cs, segs, hdr, p);
    assert TagOk(m2, v.cs, p);
    TagParts(m2, v.cs, p);
  }

  lemma RebinSlots(m: Mem, m2: Mem, m': Mem, bs: map<int, nat>, bs': map<int, nat>, p: int, s: nat, hdr: int)
    requires OnlySlots(m, m2, bs, hdr) && (p in bs ==> bs[p] == s) && OnlySlots(m2, m', bs', hdr)
    requires (bs' == (bs - {p})[p := s] || bs' == bs[p := s])
    ensures OnlySlots(m, m', bs', hdr) && bs' == bs[p := s]
  {
    assert (bs - {p})[p := s] == bs[p := s];
    hide Lo, Hi;
    forall a | !LinkSlot(bs', hdr, a) ensures !LinkSlot(bs, hdr, a) { }
  }

  // ---- sys_trim -------------------------------------------------------------------------------------------

  /** What sys_trim may give back: whole units, leaving more than `pad` of top. */
  function TrimExtra(topsize: nat, pad: nat, unit: nat): int
    requires unit > 0
  {
    ((topsize - pad + (unit - 1)) / unit - 1) * unit
  }

  lemma TrimLeavesPad(topsize: nat, pad: nat, unit: nat)
    requires unit > 0 && topsize > pad
    ensures 0 <= TrimExtra(topsize, pad, unit) && topsize - TrimExtra(topsize, pad, unit) > pad
    ensures Multiple(TrimExtra(topsize, pad, unit), unit)
    ensures topsize - TrimExtra(topsize, pad, unit) <= pad + unit
  {
    var d := topsize - pad;
    var c := (d + (unit - 1)) / unit;
    QuotientBounds(d + (unit - 1), unit);
    assert (c - 1) * unit == c * unit - unit;
    AtLeastOne(d + (unit - 1), unit);
    MulNonNeg(c - 1, unit);
    MultipleOf(c - 1, unit);
  }

  lemma QuotientBounds(x: int, d: int)
    requires d > 0
    ensures x / d * d <= x < x / d * d + d
  {
  }

  lemma AtLeastOne(x: int, d: int)
    requires 0 < d <= x
    ensures x / d >= 1
  {
  }

  lemma MulNonNeg(a: int, b: int)
    requires a >= 0 && b >= 0
    ensures a * b >= 0
  {
  }

  lemma MultipleOf(k: int, g: int)
    requires g > 0
    ensures Multiple(k * g, g)
  {
    RemainderIs(k * g, g, k, 0);
  }

  lemma MultipleSum(a: int, b: int, g: int)
    requires Multiple(a, g) && Multiple(b, g)
    ensures Multiple(a + b, g) && Multiple(a - b, g)
  {
    var x, y := a / g, b / g;
    assert a == x * g && b == y * g;
    assert a + b == (x + y) * g && a - b == (x - y) * g;
    MultipleOf(x + y, g);
    MultipleOf(x - y, g);
  }

  lemma MultipleTrans(a: int, b: int, c: int)
    requires Multiple(a, b) && Multiple(b, c)
    ensures Multiple(a, c)
  {
    var x, y := a / b, b / c;
    assert a == x * b && b == y * c;
    MulAssoc(x, y, c);
    MultipleOf(x * y, c);
  }

  lemma MulAssoc(x: int, y: int, c: int)
    ensures x * (y * c) == x * y * c
  {
  }

  lemma Aligned16(a: int, g: int, p: int)
    requires Multiple(a, g) && Multiple(g, p) && Multiple(p, 4096)
    ensures a % 16 == 0 && Multiple(a, 4096) && Multiple(a, p)
  {
    hide Multiple;
    MultipleTrans(a, g, p);
    MultipleTrans(a, p, 4096);
    Page16(a);
  }

  lemma Page16Multiple(a: int, p: int)
    requires Multiple(a, p) && Multiple(p, 4096)
    ensures a % 16 == 0 && Multiple(a, 4096)
  {
    hide Multiple;
    MultipleTrans(a, p, 4096);
    Page16(a);
  }

  lemma Page16(a: int)
    requires Multiple(a, 4096)
    ensures a % 16 == 0
  {
  }

  lemma TopThere(m: Mem, v: View, segs: seq<Segment>, hdr: int, least: int)
    requires HeapOk(m, v, segs, hdr, least)
    ensures (segs != [] <==> v.top != 0) && (segs != [] ==> v.top in v.cs)
    ensures if segs == [] then v.topsize == 0 else 0 < v.topsize < W64 && v.topsize % 16 == 0
  {
    NoZero(v.cs, segs, hdr);
    if segs != [] { TopSegment(m, v, segs, hdr, least); TopFacts(m, v, segs, hdr, least); }
  }

  /** Capping the amount keeps it a multiple of the unit and below the original amount. */
  lemma CapExtra(extra: nat, unit: nat)
    requires Multiple(extra, unit) && extra >= HALF_MAX_SIZE_T && Multiple(W64 / 2, unit) && unit < W64 / 2
    ensures var cap := HALF_MAX_SIZE_T + 1 - unit; 0 < cap <= extra && Multiple(cap, unit)
  {
    assert HALF_MAX_SIZE_T + 1 == W64 / 2;
    MultipleSum(W64 / 2, unit, unit) by { MultipleOf(1, unit); assert 1 * unit == unit; }
  }

  lemma FewerOuter(m: Mem, m': Mem, segs: seq<Segment>, segs': seq<Segment>, hdr: int)
    requires OuterKept(m, m', segs, hdr) && Fewer(segs, segs')
    ensures OuterKept(m, m', segs', hdr)
  {
    forall a | Outside(segs', hdr, a) ensures Outside(segs, hdr, a) {
      forall i | 0 <= i < |segs| ensures a < segs[i].base || End(segs[i]) <= a {
        var j :| 0 <= j < |segs'| && segs'[j] == segs[i];
      }
    }
  }

  lemma ShrunkOuter(m: Mem, m': Mem, segs: seq<Segment>, segs': seq<Segment>, hdr: int)
    requires OuterKept(m, m', segs, hdr) && Shrunk(segs, segs')
    ensures OuterKept(m, m', segs', hdr)
  {
    forall a | Outside(segs', hdr, a) ensures Outside(segs, hdr, a) {
      forall i | 0 <= i < |segs| ensures a < segs[i].base || End(segs[i]) <= a {
        var j :| 0 <= j < |segs'| && Starts(segs[i], segs'[j]);
      }
    }
  }

  lemma ShrunkTrans(a: seq<Segment>, b: seq<Segment>, c: seq<Segment>)
    requires Fewer(a, b) && Shrunk(b, c)
    ensures Shrunk(a, c)
  {
    forall i | 0 <= i < |a| ensures StartsIn(a[i], c) {
      var j :| 0 <= j < |b| && b[j] == a[i];
      var k :| 0 <= k < |c| && Starts(b[j], c[k]);
      assert Starts(a[i], c[k]);
    }
  }

  lemma FewerSelf(segs: seq<Segment>)
    ensures Fewer(segs, segs)
  {
  }

  /** Leaving out a segment that is not the last. */
  lemma FewerLess(segs: seq<Segment>, segs': seq<Segment>, i: nat, gone: bool, g: int)
    requires Fewer(segs, segs') && Whole(segs, g) && i + 1 < |segs|
    ensures Fewer(Spared(segs, i, gone), segs') && Whole(Spared(segs, i, gone), g)
  {
  }

  lemma BrkShrunk(segs: seq<Segment>, segs': seq<Segment>)
    requires Shrunk(segs, segs')
    ensures BrkOnly(segs') ==> BrkOnly(segs)
  {
    if BrkOnly(segs') {
      forall i | 0 <= i < |segs| ensures !segs[i].mmapped { assert StartsIn(segs[i], segs'); }
    }
  }

  lemma ShrunkSelf(segs: seq<Segment>)
    ensures Shrunk(segs, segs)
  {
    forall i | 0 <= i < |segs| ensures StartsIn(segs[i], segs) { assert Starts(segs[i], segs[i]); }
  }

  /** The current segment without its last `released` bytes. */
  function Shorter(segs: seq<Segment>, released: int): seq<Segment>
    requires segs != []
  {
    segs[|segs| - 1 := segs[|segs| - 1].(size := segs[|segs| - 1].size - released)]
  }

  lemma ShrinkSegs(m: Mem, v: View, segs: seq<Segment>, hdr: int, least: int, released: nat, unit: nat, page: nat)
    requires HeapOk(m, v, segs, hdr, least) && segs != [] && v.topsize - released > TOP_FOOT_SIZE
    requires Multiple(released, unit) && Multiple(unit, page) && Multiple(page, 4096)
    ensures SegsOk(Shorter(segs, released), hdr) && (v.topsize - released) % 16 == 0
    ensures Shrunk(Shorter(segs, released), segs)
  {
    hide HeapOk, SegsOk, Multiple, Shrunk, Shorter, End;
    HeapSegs(m, v, segs, hdr, least);
    Aligned16(released, unit, page);
    TopRoom(m, v, segs, hdr, least);
    SegsShorter(segs, hdr, released);
    ShorterShrunk(segs, released);
    Less16(v.topsize, released);
  }

  lemma HeapSegs(m: Mem, v: View, segs: seq<Segment>, hdr: int, least: int)
    requires HeapOk(m, v, segs, hdr, least)
    ensures SegsOk(segs, hdr)
  {
    hide SegsOk, Tagged, Shape, AllMerged, Binnable, FreesBinned, VictimOk, TopOk, Above;
  }

  lemma TopRoom(m: Mem, v: View, segs: seq<Segment>, hdr: int, least: int)
    requires HeapOk(m, v, segs, hdr, least) && segs != []
    ensures v.topsize < segs[|segs| - 1].size && v.topsize % 16 == 0
  {
    hide HeapOk;
    TopSegment(m, v, segs, hdr, least);
  }

  lemma Less16(a: int, b: int)
    requires a % 16 == 0 && b % 16 == 0
    ensures (a - b) % 16 == 0
  {
  }

  lemma ShorterShrunk(segs: seq<Segment>, released: nat)
    requires segs != []
    ensures Shrunk(Shorter(segs, released), segs)
  {
    var segs' := Shorter(segs, released);
    forall i | 0 <= i < |segs'| ensures StartsIn(segs'[i], segs) { assert Starts(segs'[i], segs[i]); }
  }

  lemma SegsShorter(segs: seq<Segment>, hdr: int, released: nat)
    requires SegsOk(segs, hdr) && segs != [] && released % 16 == 0 && released < segs[|segs| - 1].size
    ensures SegsOk(Shorter(segs, released), hdr)
  {
  }

  /** The current segment is a mapping that holds the record of another one, so it must not be shortened. */
  predicate Pinned(segs: seq<Segment>)
    requires segs != []
  {
    var s := segs[|segs| - 1];
    s.mmapped && exists j :: 0 <= j < |segs| - 1 && s.base <= segs[j].rec < End(s)
  }

  /** That never happens: every record lies in its own segment. */
  lemma NeverPinned(m: Mem, v: View, segs: seq<Segment>, hdr: int, least: int)
    requires HeapOk(m, v, segs, hdr, least) && segs != []
    ensures !Pinned(segs)
  {
    var s := segs[|segs| - 1];
    forall j | 0 <= j < |segs| - 1 ensures !(s.base <= segs[j].rec < End(s)) {
      FirstsAre(v.cs, segs, hdr, j);
      RecordIn(v.cs, segs, hdr, j, First(segs[j]));
      assert End(segs[j]) <= s.base || End(s) <= segs[j].base;
    }
  }

  lemma WholeShrunk(segs: seq<Segment>, released: nat, unit: nat)
    requires Whole(segs, unit) && segs != [] && Multiple(released, unit)
    ensures Whole(Shorter(segs, released), unit)
  {
    var segs' := Shorter(segs, released);
    forall i | 0 <= i < |segs'| && segs'[i].mmapped ensures Multiple(segs'[i].size, unit) {
      assert Multiple(segs[i].size, unit);
      MultipleSum(segs[i].size, released, unit);
    }
  }
}
