/** Resizing a chunk by moving it: dlrealloc. */
module Reallocation {
  import opened Words
  import opened Memory
  import opened Layout
  import opened Tags
  import opened HeapBase
  import opened HeapSteps
  import opened HeapFacts
  import opened SystemFacts
  import opened CallerFacts
  import opened ResizeFacts
  import opened ProgramFacts
  import opened Mappings
  import opened Rooms
  import opened Heaps

  ghost predicate Covers(live: map<int, int>, p: int, w: int) { p in live && PayloadWord(p, live[p], w) }

  ghost predicate InPayload(live: map<int, int>, w: int) { exists p :: Covers(live, p, w) }

  /** The sizes and addresses of live chunks are multiples of 16. */
  ghost predicate Sized(live: map<int, int>) {
    forall p {:trigger live[p]} :: p in live ==> 0 < p && p % 16 == 0 && live[p] % 16 == 0 && live[p] > 0
  }

  lemma LiveSized(h: Heap)
    requires h.Valid()
    ensures Sized(h.Live())
  {
    forall p | p in h.Live() ensures 0 < p && p % 16 == 0 && h.Live()[p] % 16 == 0 && h.Live()[p] > 0 {
      SizedAt(h.bins.mem, h.TheView(), h.segs, h.bins.hdr, h.bins.least, h.maps, p);
    }
  }

  lemma SizedAt(m: Mem, v: View, segs: seq<Segment>, hdr: int, least: int, maps: map<int, Mapping>, p: int)
    requires HeapOk(m, v, segs, hdr, least) && MapsOk(m, maps, segs, hdr, least)
    requires p in Lives(v.cs) + MappedLives(maps)
    ensures var live := Lives(v.cs) + MappedLives(maps); 0 < p && p % 16 == 0 && live[p] % 16 == 0 && live[p] > 0
  {
    LiveFacts(m, v, segs, hdr, least, maps, p);
    LiveSizes(m, v, segs, hdr, least, maps, p);
    PositiveSize(m, v, segs, hdr, least, maps, p);
    if p in Lives(v.cs) { Placed(v.cs, segs, hdr, p); } else { assert MappingOk(m, p, maps[p], segs, hdr, least); }
  }

  lemma KeptWord(m: Mem, m': Mem, live: map<int, int>, w: int)
    requires Kept(m, m', live) && InPayload(live, w) && Sized(live)
    ensures GetWord(m', w) == GetWord(m, w)
  {
    var p :| Covers(live, p, w);
    assert SameWords(m, m', p + 16, p + live[p]);
    ParaIn(p, live[p], w);
  }

  /** No word belongs to two live chunks. */
  lemma PayloadsApart(h: Heap, p: int, q: int, w: int)
    requires h.Valid() && Covers(h.Live(), p, w) && Covers(h.Live(), q, w)
    ensures p == q
  {
    hide PayloadWord;
    if p != q {
      LiveApart(h.bins.mem, h.TheView(), h.segs, h.bins.hdr, h.bins.least, h.maps, p, q);
      NoCommonWord(p, h.Live()[p], q, h.Live()[q], w);
    }
  }

  lemma NoCommonWord(p: int, s: int, q: int, t: int, w: int)
    requires p + s <= q || q + t <= p
    ensures !(PayloadWord(p, s, w) && PayloadWord(q, t, w))
  {
  }

  /** Live chunks do not overlap. */
  lemma LiveApart(m: Mem, v: View, segs: seq<Segment>, hdr: int, least: int, maps: map<int, Mapping>, p: int, q: int)
    requires HeapOk(m, v, segs, hdr, least) && MapsOk(m, maps, segs, hdr, least)
    requires p in Lives(v.cs) + MappedLives(maps) && q in Lives(v.cs) + MappedLives(maps) && p != q
    ensures var live := Lives(v.cs) + MappedLives(maps); p + live[p] <= q || q + live[q] <= p
  {
    LiveFacts(m, v, segs, hdr, least, maps, p);
    LiveFacts(m, v, segs, hdr, least, maps, q);
    LiveSizes(m, v, segs, hdr, least, maps, p);
    LiveSizes(m, v, segs, hdr, least, maps, q);
    if p in maps && q in maps {
      assert MappingOk(m, p, maps[p], segs, hdr, least) && MappingOk(m, q, maps[q], segs, hdr, least);
    } else if p in maps {
      MapChunkApart(m, v, segs, hdr, least, maps, p, q);
    } else if q in maps {
      MapChunkApart(m, v, segs, hdr, least, maps, q, p);
    } else {
      Disjoint(v.cs, segs, hdr, p, q);
    }
  }

  lemma ChunksApart(h: Heap, p: int, q: int)
    requires h.Valid() && p in h.Live() && q in h.Live() && p != q
    ensures p + h.Live()[p] <= q || q + h.Live()[q] <= p
  {
    LiveApart(h.bins.mem, h.TheView(), h.segs, h.bins.hdr, h.bins.least, h.maps, p, q);
  }

  lemma MapChunkApart(
    m: Mem, v: View, segs: seq<Segment>, hdr: int, least: int, maps: map<int, Mapping>, p: int, q: int
  )
    requires HeapOk(m, v, segs, hdr, least) && MapsOk(m, maps, segs, hdr, least) && p in maps && q in v.cs
    ensures p + MappedSize(p, maps[p]) <= q || q + v.cs[q].size <= p
  {
    assert MappingOk(m, p, maps[p], segs, hdr, least);
    MapsRange(m, maps, segs, hdr, least, p);
    FarFromChunks(v.cs, segs, hdr, maps[p].base, maps[p].size, maps - {p}, p);
  }

  lemma SizeOfLive(h: Heap, p: int)
    requires h.Valid() && p in h.Live()
    ensures h.Live()[p] == ChunkSize(h.bins.mem, p) && p % 16 == 0
  {
    LiveSizes(h.bins.mem, h.TheView(), h.segs, h.bins.hdr, h.bins.least, h.maps, p);
    LiveSized(h);
  }

  lemma RoomPositive(h: Heap)
    requires h.Valid()
    ensures Positive(h.TheRoom())
  {
  }

  lemma SegmentChunk(h: Heap, p: int)
    requires h.Valid() && p in h.Live()
    ensures Cinuse(h.bins.mem, p) <==> p in Lives(h.cs)
  {
    LiveFacts(h.bins.mem, h.TheView(), h.segs, h.bins.hdr, h.bins.least, h.maps, p);
  }

  lemma WordOf(p: int, i: nat)
    requires p % 16 == 0
    ensures (p + 16 + 8 * i) % 8 == 0
  {
  }

  /** Copies the first `n` words of chunk `p` into chunk `q`. */
  method CopyWords(h: Heap, p: int, q: int, n: nat)
    requires h.Valid() && p in h.Live() && q in h.Live() && p != q
    requires 8 + 8 * n <= h.Live()[p] && 8 + 8 * n <= h.Live()[q]
    modifies h.bins`mem
    ensures h.Valid()
    ensures forall i :: 0 <= i < n ==> GetWord(h.bins.mem, q + 16 + 8 * i) == GetWord(old(h.bins.mem), p + 16 + 8 * i)
    ensures Kept(old(h.bins.mem), h.bins.mem, h.Live() - {q})
  {
    hide h.Valid, h.Live, Kept, SetWord, GetWord, PayloadWord, SameWords;
    ghost var m0, live := h.bins.mem, h.Live();
    LiveSized(h);
    ChunksApart(h, p, q);
    KeptSelf(m0, live - {q});
    for i := 0 to n
      invariant h.Valid() && h.Live() == live && Kept(m0, h.bins.mem, live - {q})
      invariant forall j :: 0 <= j < i ==> GetWord(h.bins.mem, q + 16 + 8 * j) == GetWord(m0, p + 16 + 8 * j)
      invariant forall j :: 0 <= j < n ==> GetWord(h.bins.mem, p + 16 + 8 * j) == GetWord(m0, p + 16 + 8 * j)
    {
      ghost var m1 := h.bins.mem;
      var w, x := q + 16 + 8 * i, GetWord(h.bins.mem, p + 16 + 8 * i);
      InChunk(live, q, i);
      h.Store(q, w, x);
      WordWritten(m1, w, x, p, q, i, n, live);
      KeptTrans(m0, m1, h.bins.mem, live - {q});
    }
  }

  lemma KeptSelf(m: Mem, live: map<int, int>)
    ensures Kept(m, m, live)
  {
  }

  lemma InChunk(live: map<int, int>, q: int, i: nat)
    requires Sized(live) && q in live && 16 + 8 * i <= live[q]
    ensures PayloadWord(q, live[q], q + 16 + 8 * i)
  {
    assert live[q] > 0;
    WordOf(q, i);
  }

  /** Storing a word of chunk `q` changes no other word of it, and none of chunk `p`. */
  lemma WordWritten(m: Mem, w: int, x: int, p: int, q: int, i: nat, n: nat, live: map<int, int>)
    requires Sized(live) && p in live && q in live && w == q + 16 + 8 * i && i < n
    requires 8 + 8 * n <= live[p] && 8 + 8 * n <= live[q] && (p + live[p] <= q || q + live[q] <= p)
    ensures GetWord(SetWord(m, w, x), w) == x
    ensures forall j: nat :: j < n && j != i ==> GetWord(SetWord(m, w, x), q + 16 + 8 * j) == GetWord(m, q + 16 + 8 * j)
    ensures forall j: nat :: j < n ==> GetWord(SetWord(m, w, x), p + 16 + 8 * j) == GetWord(m, p + 16 + 8 * j)
  {
    assert live[p] > 0 && live[q] > 0;
    WordOf(q, i);
    WordEdit(m, w, x);
    hide SetWord, GetWord;
    forall j: nat | j < n && j != i
      ensures GetWord(SetWord(m, w, x), q + 16 + 8 * j) == GetWord(m, q + 16 + 8 * j)
    {
      WordOf(q, j);
    }
    forall j: nat | j < n ensures GetWord(SetWord(m, w, x), p + 16 + 8 * j) == GetWord(m, p + 16 + 8 * j) {
      WordOf(p, j);
    }
  }

  /** The bytes of a chunk that its owner may use: a direct mapping has one more word of overhead. */
  function Usable(m: Mem, p: int): int { ChunkSize(m, p) - (if Cinuse(m, p) then 8 else 16) }

  /** The words of the old chunk that the new one keeps. */
  ghost predicate WordsMoved(m: Mem, m': Mem, p: int, q: int, bytes: int) {
    forall i: nat {:trigger WordAt(q, i)} :: 8 * i + 8 <= bytes ==>
      GetWord(m', WordAt(q, i)) == GetWord(m, WordAt(p, i))
  }

  /** Word `i` of the payload of chunk `p`. */
  function WordAt(p: int, i: nat): int { p + 16 + 8 * i }

  /** The chunk is resized where it is: it is large enough already, or can grow into the space after it. */
  ghost predicate Resizes(cs: Chunks, p: int, nb: nat) {
    p in Lives(cs) && (Lives(cs)[p] >= nb || CanGrow(cs, p, nb))
  }

  /** No free chunk and no top that exceeds `nb` bytes, and the system grants nothing that would serve them. */
  ghost predicate Denied(room: Room, nb: nat, sys: Replies)
    requires Positive(room)
  {
    NoRoom(room.cs, nb) && room.Refuses(nb, sys)
  }

  /** Neither the heap nor the system has room for `nb` more bytes. */
  ghost predicate Exhausted(h: Heap, nb: nat, sys: Replies)
    requires h.Params()
    reads h, h.bins
  {
    h.NoFit(nb) && h.Refuses(nb, sys)
  }

  /** Chunk `q` was handed out and then chunk `p` given back. */
  ghost predicate Relocates(room: Room, room': Room, p: int, q: int, nb: nat, sys: Replies)
    requires Positive(room)
  {
    exists mid :: Extends(room, mid, q, nb, sys) && GivesUp(mid, room', p, sys)
  }

  /** What the bins, the victim and top hold is what the layout says. */
  lemma DeniedIs(h: Heap, nb: nat, sys: Replies)
    requires h.Valid() && nb > 0
    ensures h.NoFit(nb) <==> NoRoom(h.cs, nb)
    ensures Exhausted(h, nb, sys) <==> Denied(h.TheRoom(), nb, sys)
  {
    NoFitIs(h.bins.mem, h.TheView(), h.segs, h.bins.hdr, h.bins.least, nb);
  }

  /**
   * dlrealloc. On success exactly the old chunk is replaced, at the same address or another, by one that holds the
   * request and the words of the old that both have room for; on failure nothing changes.
   */
  method Realloc(h: Heap, oldmem: int, bytes: nat, sys: Replies) returns (mem: int)
    requires h.Valid() && bytes < W64 && (oldmem == 0 || oldmem - 16 in h.Live())
    modifies h, h.bins
    ensures h.Valid()
    ensures mem == 0 <==>
      bytes >= MAX_REQUEST ||
      (!(oldmem != 0 && Resizes(old(h.cs), oldmem - 16, Request2Size(bytes))) &&
       old(Exhausted(h, Request2Size(bytes), sys)))
    ensures oldmem != 0 && mem != 0 ==> (mem == oldmem <==> Resizes(old(h.cs), oldmem - 16, Request2Size(bytes)))
    ensures mem == 0 ==> h.Live() == old(h.Live()) && Kept(old(h.bins.mem), h.bins.mem, old(h.Live()))
    ensures mem == 0 ==> Stays(old(h.TheRoom()), h.TheRoom())
    ensures mem != 0 ==>
      var room, nb := old(h.TheRoom()), Request2Size(bytes);
      Positive(room) &&
      if oldmem == 0 then Extends(room, h.TheRoom(), mem - 16, nb, sys)
      else if mem == oldmem then ResizesTo(room, h.TheRoom(), mem - 16, nb)
      else Relocates(room, h.TheRoom(), oldmem - 16, mem - 16, nb, sys)
    ensures oldmem == 0 && mem != 0 ==>
      NewLive(old(h.Live()), h.Live(), mem - 16, Request2Size(bytes)) &&
      Kept(old(h.bins.mem), h.bins.mem, old(h.Live()))
    ensures oldmem != 0 && mem != 0 ==>
      var p, q, live := oldmem - 16, mem - 16, old(h.Live());
      && (q == p || q !in live) && q in h.Live() && h.Live()[q] >= Request2Size(bytes)
      && h.Live() == (live - {p})[q := h.Live()[q]] && Kept(old(h.bins.mem), h.bins.mem, live - {p})
      && WordsMoved(old(h.bins.mem), h.bins.mem, p, q, Min(Usable(old(h.bins.mem), p), bytes))
      && (q == p ==> SameWords(old(h.bins.mem), h.bins.mem, p + 16, p + Min(live[p], h.Live()[p])))
  {
    hide h.Valid, h.Live, Kept, Request2Size, CanGrow, Lives, SameWords, GetWord, WordsMoved, NewLive,
         Room.Refuses, Extends, ResizesTo, Relocates;
    ghost var m0, live := h.bins.mem, h.Live();
    RoomPositive(h);
    KeptSelf(m0, live);
    if oldmem == 0 {
      mem := h.Malloc(bytes, sys);
      return;
    }
    mem := 0;
    if bytes >= MAX_REQUEST { return; }
    var oldp := oldmem - 16;
    RequestFits(bytes);
    SegmentChunk(h, oldp);
    SizeOfLive(h, oldp);
    LiveSized(h);
    var newp := 0;
    if Cinuse(h.bins.mem, oldp) {
      newp := h.TryReallocChunk(oldp, Request2Size(bytes));
    }
    if newp != 0 {
      mem := newp + 16;
      LiveSized(h);
      assert live[oldp] > 0 && h.Live()[oldp] > 0;
      MovedInPlace(m0, h.bins.mem, oldp, live[oldp], h.Live()[oldp], bytes, Min(Usable(m0, oldp), bytes));
      assert live[oldp := h.Live()[oldp]] == (live - {oldp})[oldp := h.Live()[oldp]];
      return;
    }
    mem := MoveTo(h, oldp, bytes, sys);
  }

  lemma MovedInPlace(m: Mem, m': Mem, p: int, s: int, s': int, bytes: nat, n: int)
    requires SameWords(m, m', p + 16, p + Min(s, s')) && p % 16 == 0 && s % 16 == 0 && s' % 16 == 0
    requires s' >= Request2Size(bytes) && n <= s - 8 && n <= bytes
    ensures WordsMoved(m, m', p, p, n)
  {
    forall i: nat | 8 * i + 8 <= n ensures GetWord(m', WordAt(p, i)) == GetWord(m, WordAt(p, i)) {
      RequestRoom(bytes);
      var t := Min(s, s');
      WordOf(p, i);
      assert PayloadWord(p, t, WordAt(p, i));
      ParaIn(p, t, WordAt(p, i));
    }
  }

  lemma RequestRoom(bytes: nat)
    ensures Request2Size(bytes) >= bytes + 8
  {
  }

  lemma UsableSize(h: Heap, p: int)
    requires h.Valid() && p in h.Live()
    ensures 0 <= Usable(h.bins.mem, p) <= h.Live()[p] - 8
  {
    SizeOfLive(h, p);
    LiveAtLeast(h.bins.mem, h.TheView(), h.segs, h.bins.hdr, h.bins.least, h.maps, p);
  }

  lemma LiveAtLeast(m: Mem, v: View, segs: seq<Segment>, hdr: int, least: int, maps: map<int, Mapping>, p: int)
    requires HeapOk(m, v, segs, hdr, least) && MapsOk(m, maps, segs, hdr, least)
    requires p in Lives(v.cs) + MappedLives(maps)
    ensures (Lives(v.cs) + MappedLives(maps))[p] >= 16
  {
    SizedAt(m, v, segs, hdr, least, maps, p);
  }

  /** Allocating, copying and freeing keep every other chunk and carry the copied words over. */
  lemma MovedWords(
    m0: Mem, m1: Mem, m2: Mem, m3: Mem, live: map<int, int>, live1: map<int, int>, p: int, q: int, n: nat
  )
    requires Sized(live) && Sized(live1) && p in live && q !in live && q in live1 && live1 == live[q := live1[q]]
    requires 8 + 8 * n <= live[p] && 8 + 8 * n <= live1[q]
    requires Kept(m0, m1, live) && Kept(m1, m2, live1 - {q}) && Kept(m2, m3, live1 - {p})
    requires forall i :: 0 <= i < n ==> GetWord(m2, q + 16 + 8 * i) == GetWord(m1, p + 16 + 8 * i)
    ensures Kept(m0, m3, live - {p})
    ensures forall i :: 0 <= i < n ==> GetWord(m3, q + 16 + 8 * i) == GetWord(m0, p + 16 + 8 * i)
  {
    hide GetWord, Kept;
    KeptPart(m0, m1, live, live - {p});
    KeptPart(m1, m2, live1 - {q}, live - {p});
    KeptPart(m2, m3, live1 - {p}, live - {p});
    KeptTrans(m0, m1, m2, live - {p});
    KeptTrans(m0, m2, m3, live - {p});
    assert Sized(live1 - {p}) by { LessSized(live1, p); }
    forall i | 0 <= i < n ensures GetWord(m3, q + 16 + 8 * i) == GetWord(m0, p + 16 + 8 * i) {
      InChunk(live, p, i);
      InChunk(live1 - {p}, q, i);
      assert Covers(live, p, p + 16 + 8 * i) && Covers(live1 - {p}, q, q + 16 + 8 * i);
      KeptWord(m0, m1, live, p + 16 + 8 * i);
      KeptWord(m2, m3, live1 - {p}, q + 16 + 8 * i);
    }
  }

  lemma LessSized(live: map<int, int>, p: int)
    requires Sized(live)
    ensures Sized(live - {p})
  {
    var less := live - {p};
    forall q | q in less ensures 0 < q && q % 16 == 0 && less[q] % 16 == 0 && less[q] > 0 { assert less[q] == live[q]; }
  }

  lemma WordsCounted(m: Mem, m': Mem, p: int, q: int, n: nat, bytes: int)
    requires n == bytes / 8 && forall i :: 0 <= i < n ==> GetWord(m', q + 16 + 8 * i) == GetWord(m, p + 16 + 8 * i)
    ensures WordsMoved(m, m', p, q, bytes)
  {
    forall i: nat | 8 * i + 8 <= bytes ensures GetWord(m', WordAt(q, i)) == GetWord(m, WordAt(p, i)) { assert i < n; }
  }

  /** dlrealloc, when the chunk cannot be resized where it is: allocates, copies and frees. */
  method MoveTo(h: Heap, oldp: int, bytes: nat, sys: Replies) returns (mem: int)
    requires h.Valid() && oldp in h.Live() && bytes < MAX_REQUEST
    modifies h, h.bins
    ensures h.Valid() && (mem == 0 <==> old(Exhausted(h, Request2Size(bytes), sys)))
    ensures mem == 0 ==> h.Live() == old(h.Live()) && Kept(old(h.bins.mem), h.bins.mem, old(h.Live()))
    ensures mem == 0 ==> Stays(old(h.TheRoom()), h.TheRoom())
    ensures mem != 0 ==>
      Positive(old(h.TheRoom())) &&
      Relocates(old(h.TheRoom()), h.TheRoom(), oldp, mem - 16, Request2Size(bytes), sys)
    ensures mem != 0 ==>
      var p, q, live := oldp, mem - 16, old(h.Live());
      && q !in live && q in h.Live() && h.Live()[q] >= Request2Size(bytes)
      && h.Live() == (live - {p})[q := h.Live()[q]] && Kept(old(h.bins.mem), h.bins.mem, live - {p})
      && WordsMoved(old(h.bins.mem), h.bins.mem, p, q, Min(Usable(old(h.bins.mem), p), bytes))
  {
    hide h.Valid, h.Live, Kept, Request2Size, Lives, SameWords, GetWord, WordsMoved, h.NoFit, h.Refuses, Usable;
    hide Extends, GivesUp, Stays;
    ghost var m0, live := h.bins.mem, h.Live();
    RoomPositive(h);
    LiveSized(h);
    UsableSize(h, oldp);
    var oc := Usable(h.bins.mem, oldp);
    mem := h.Malloc(bytes, sys);
    if mem == 0 { return; }
    var q := mem - 16;
    ghost var m1, live1 := h.bins.mem, h.Live();
    LiveSized(h);
    RequestRoom(bytes);
    var n := (if oc < bytes then oc else bytes) / 8;
    CopyWords(h, oldp, q, n);
    ghost var m2 := h.bins.mem;
    ghost var mid := h.TheRoom();
    h.Free(oldp + 16, sys);
    assert Extends(old(h.TheRoom()), mid, q, Request2Size(bytes), sys) && GivesUp(mid, h.TheRoom(), oldp, sys);
    MovedWords(m0, m1, m2, h.bins.mem, live, live1, oldp, q, n);
    WordsCounted(m0, h.bins.mem, oldp, q, n, Min(Usable(m0, oldp), bytes));
  }
}
