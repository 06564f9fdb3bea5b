/** Chunks that were mapped directly from the system: each has a mapping of its own, outside all segments. */
module Mappings {
  import opened Words
  import opened Memory
  import opened Layout
  import opened HeapBase

  const MMAP_FOOT_PAD := 32

  datatype Mapping = Mapping(base: int, size: int)

  function MapEnd(a: Mapping): int { a.base + a.size }

  /** The size of chunk `p` of mapping `a`. */
  function MappedSize(p: int, a: Mapping): int { MapEnd(a) - MMAP_FOOT_PAD - p }

  /** The range [base, end) is apart from the bin headers and all segments. */
  predicate ClearOfHeap(base: int, end: int, segs: seq<Segment>, hdr: int) {
    && (end <= hdr || hdr + BIN_HEADERS <= base)
    && forall i :: 0 <= i < |segs| ==> End(segs[i]) <= base || end <= segs[i].base
  }

  predicate ClearOfMaps(base: int, end: int, maps: map<int, Mapping>) {
    forall p :: p in maps ==> end <= maps[p].base || MapEnd(maps[p]) <= base
  }

  ghost predicate MappingOk(m: Mem, p: int, a: Mapping, segs: seq<Segment>, hdr: int, least: int) {
    && 0 < a.base <= p && p % 16 == 0 && MapEnd(a) < W64 && least <= p
    && MappedSize(p, a) >= MIN_CHUNK_SIZE && MappedSize(p, a) % 16 == 0
    && Foot(m, p) == p - a.base && Head(m, p) == MappedSize(p, a)
    && ClearOfHeap(a.base, MapEnd(a), segs, hdr)
  }

  ghost predicate MapsOk(m: Mem, maps: map<int, Mapping>, segs: seq<Segment>, hdr: int, least: int) {
    && (forall p {:trigger maps[p]} :: p in maps ==> MappingOk(m, p, maps[p], segs, hdr, least))
    && (forall p, q {:trigger maps[p], maps[q]} :: p in maps && q in maps && p != q ==>
          MapEnd(maps[p]) <= maps[q].base || MapEnd(maps[q]) <= maps[p].base)
  }

  ghost function MappedLives(maps: map<int, Mapping>): map<int, int> {
    map p | p in maps :: MappedSize(p, maps[p])
  }

  /** All segments stay clear of the mappings. */
  ghost predicate SegsClear(maps: map<int, Mapping>, segs: seq<Segment>) {
    forall i {:trigger segs[i]} :: 0 <= i < |segs| ==> ClearOfMaps(segs[i].base, End(segs[i]), maps)
  }

  /** Whatever happens inside the heap leaves mapped chunks alone. */
  lemma MapsFrame(
    m: Mem, m': Mem, maps: map<int, Mapping>, segs: seq<Segment>, segs': seq<Segment>, hdr: int, least: int,
    least': int
  )
    requires MapsOk(m, maps, segs, hdr, least) && OuterKept(m, m', segs', hdr) && SegsClear(maps, segs')
    requires least' <= least
    ensures MapsOk(m', maps, segs', hdr, least') && Kept(m, m', MappedLives(maps))
  {
    hide MappingOk, OuterKept, SameWords, SegsClear;
    forall p | p in maps
      ensures MappingOk(m', p, maps[p], segs', hdr, least') && SameWords(m, m', p + 16, p + MappedSize(p, maps[p]))
    {
      MapFrame(m, m', maps, segs, segs', hdr, least, least', p);
    }
  }

  lemma MapFrame(
    m: Mem, m': Mem, maps: map<int, Mapping>, segs: seq<Segment>, segs': seq<Segment>, hdr: int, least: int,
    least': int, p: int
  )
    requires p in maps && MappingOk(m, p, maps[p], segs, hdr, least) && OuterKept(m, m', segs', hdr)
    requires SegsClear(maps, segs') && least' <= least
    ensures MappingOk(m', p, maps[p], segs', hdr, least') && SameWords(m, m', p + 16, p + MappedSize(p, maps[p]))
  {
    hide Lo, Hi, Outside;
    var a := maps[p];
    forall x | a.base <= x < MapEnd(a) ensures Lo(m', x) == Lo(m, x) && Hi(m', x) == Hi(m, x) {
      MapOutside(maps, segs', hdr, p, x);
    }
    forall i | 0 <= i < |segs'| ensures End(segs'[i]) <= a.base || MapEnd(a) <= segs'[i].base {
      assert ClearOfMaps(segs'[i].base, End(segs'[i]), maps);
    }
  }

  lemma MapOutside(maps: map<int, Mapping>, segs: seq<Segment>, hdr: int, p: int, x: int)
    requires SegsClear(maps, segs) && p in maps && maps[p].base <= x < MapEnd(maps[p])
    requires MapEnd(maps[p]) <= hdr || hdr + BIN_HEADERS <= maps[p].base
    ensures Outside(segs, hdr, x)
  {
    forall i | 0 <= i < |segs| ensures x < segs[i].base || End(segs[i]) <= x {
      assert ClearOfMaps(segs[i].base, End(segs[i]), maps);
    }
  }

  lemma MapsClear(m: Mem, maps: map<int, Mapping>, segs: seq<Segment>, hdr: int, least: int)
    requires MapsOk(m, maps, segs, hdr, least)
    ensures SegsClear(maps, segs)
  {
    forall i | 0 <= i < |segs| ensures ClearOfMaps(segs[i].base, End(segs[i]), maps) {
      forall p | p in maps ensures End(segs[i]) <= maps[p].base || MapEnd(maps[p]) <= segs[i].base {
        assert MappingOk(m, p, maps[p], segs, hdr, least);
      }
    }
  }
}
