/**
 * Whole runs of a program on the heap. The program allocates, frees, resizes, trims and writes its chunks in any
 * order; the system answers in any way. What the program may rely on is a function of the calls and their results.
 */
module Sessions {
  import opened Words
  import opened Memory
  import opened Layout
  import opened Tags
  import opened HeapBase
  import opened HeapSteps
  import opened HeapFacts
  import opened CallerFacts
  import opened ResizeFacts
  import opened ProgramFacts
  import opened Mappings
  import opened Segments
  import opened SegmentSteps
  import opened Rooms
  import opened Heaps
  import opened Canonical
  import opened BulkFacts
  import opened Reallocation

  /** One call of the program. Chunks are named by their position among those the program holds. */
  datatype Op =
    | Alloc(bytes: nat, sys: Replies)
    | AllocAligned(align: nat, bytes: nat, sys: Replies)
    | Release(k: nat, sys: Replies)
    | ReleaseFirst(n: nat, sys: Replies)
    | ResizeInPlace(k: nat, bytes: nat)
    | Resize(k: nat, bytes: nat, sys: Replies)
    | Trim(pad: nat, sys: Replies)
    | Write(k: nat, i: nat, x: int)

  /** What the program sees after a call: the chunks it holds, in order, and the size of each. */
  datatype Hands = Hands(handles: seq<int>, live: map<int, int>)

  const EMPTY_HANDED := Hands([], map[])

  /** A call, the room when it was made, the room it left, and what it left the program with. */
  datatype Moment = Moment(op: Op, room: Room, next: Room, after: Hands)

  datatype Option<T> = None | Some(value: T)

  /** The program holds exactly the live chunks, each once. */
  ghost predicate Holds(h: Hands) {
    && (forall p {:trigger p in h.live} :: p in h.live <==> p in h.handles)
    && (forall i, j {:trigger h.handles[i], h.handles[j]} :: 0 <= i < j < |h.handles| ==> h.handles[i] != h.handles[j])
  }

  // ---- what a call may do to what the program holds ----------------------------------------------------------

  function Without(handles: seq<int>, k: nat): seq<int>
    requires k < |handles|
  {
    handles[..k] + handles[k + 1..]
  }

  /** Nothing, or one new chunk of at least `nb` bytes. */
  ghost predicate Grows(h: Hands, h': Hands, nb: int) {
    h' == h ||
    (|h'.handles| == |h.handles| + 1 &&
     var p := h'.handles[|h.handles|];
     h'.handles == h.handles + [p] && NewLive(h.live, h'.live, p, nb))
  }

  /** Chunk `k` is the same, or has been replaced by one of at least `nb` bytes. */
  ghost predicate Replaces(h: Hands, h': Hands, k: nat, nb: int) {
    h' == h ||
    (k < |h.handles| && |h'.handles| == |h.handles| &&
     var p, q := h.handles[k], h'.handles[k];
     && h'.handles == h.handles[k := q] && (q == p || q !in h.live) && q in h'.live && h'.live[q] >= nb
     && h'.live == (h.live - {p})[q := h'.live[q]])
  }

  function FirstSet(handles: seq<int>, n: nat): set<int>
    requires n <= |handles|
  {
    if n == 0 then {} else FirstSet(handles, n - 1) + {handles[n - 1]}
  }

  /** The chunks in the room are merged, tile its segments, and are live exactly where the program holds them. */
  ghost predicate Agrees(room: Room, h: Hands) {
    && Positive(room) && LayoutOk(room.cs, room.segs, room.hdr)
    && TopOk(room.cs, room.segs, room.top, room.topsize) && VictimOk(room.cs, room.dv, room.dvsize)
    && h.live == Lives(room.cs) + MappedLives(room.maps) && forall p :: p in room.cs ==> p !in room.maps
  }

  /** The chunk that was added. */
  function Added(h: Hands, after: Hands): int {
    if |after.handles| > |h.handles| then after.handles[|h.handles|] else 0
  }

  /** One new chunk, unless the request is too large or there is no room for it. */
  ghost predicate Allocates(h: Hands, m: Moment, bytes: nat, sys: Replies)
    requires Positive(m.room)
  {
    var nb := Request2Size(bytes);
    && Grows(h, m.after, nb)
    && (m.after == h <==> bytes >= MAX_REQUEST || Denied(m.room, nb, sys))
    && (m.after == h ==> Stays(m.room, m.next))
    && (m.after != h ==> Extends(m.room, m.next, Added(h, m.after), nb, sys))
  }

  /** The request with the slack that alignment `a` needs is too large or there is no room for it. */
  ghost predicate Starves(room: Room, a: nat, bytes: nat, sys: Replies)
    requires Positive(room)
  {
    bytes >= MAX_REQUEST - a || Slack(a, bytes) >= MAX_REQUEST || Denied(room, SlackSize(a, bytes), sys)
  }

  /** One new chunk at alignment `a`, unless there is no room for it. */
  ghost predicate AllocatesAt(h: Hands, m: Moment, a: nat, bytes: nat, sys: Replies)
    requires Positive(m.room)
  {
    && (m.after == h <==> Starves(m.room, a, bytes, sys))
    && (m.after != h ==> Multiple(Added(h, m.after) + 16, a))
    && (m.after != h ==> a > 16 && ExtendsAligned(m.room, m.next, Added(h, m.after), a, bytes, sys))
  }

  /** One new chunk at the least alignment that will do, unless there is no room for it. */
  ghost predicate AllocatesAligned(h: Hands, m: Moment, align: nat, bytes: nat, sys: Replies)
    requires Positive(m.room)
  {
    && Grows(h, m.after, Request2Size(bytes)) && (m.after == h ==> Stays(m.room, m.next))
    && if align > W64 / 2 || bytes >= W64 then m.after == h
       else exists a: nat :: LeastAlignment(a, align) && AllocatesAt(h, m, a, bytes, sys)
  }

  /** Chunk `k` has at least `nb` bytes. */
  ghost predicate Reaches(h: Hands, k: nat, nb: int) {
    k < |h.handles| && h.handles[k] in h.live && h.live[h.handles[k]] >= nb
  }

  /** Chunk `k` is resized where it is if that can be done, else moved if there is room, else left alone. */
  ghost predicate Reallocates(h: Hands, m: Moment, k: nat, bytes: nat, sys: Replies)
    requires Positive(m.room)
  {
    var nb := Request2Size(bytes);
    && Replaces(h, m.after, k, nb)
    && if k >= |h.handles| || bytes >= MAX_REQUEST then m.after == h && Stays(m.room, m.next)
       else
         var stays, fails := Resizes(m.room.cs, h.handles[k], nb), Denied(m.room, nb, sys);
         && (!stays && fails ==> m.after == h && Stays(m.room, m.next))
         && (stays || !fails ==> Reaches(m.after, k, nb))
         && (stays ==> ResizesTo(m.room, m.next, h.handles[k], nb))
         && (m.after.handles == h.handles <==> stays || fails)
         && (!stays && !fails ==>
               Relocates(m.room, m.next, h.handles[k], m.after.handles[k], nb, sys))
  }

  /** Chunk `k` is resized where it is if that can be done, else left alone. */
  ghost predicate ReallocatesInPlace(h: Hands, m: Moment, k: nat, bytes: nat) {
    var nb := Request2Size(bytes);
    && Replaces(h, m.after, k, nb) && m.after.handles == h.handles
    && if k >= |h.handles| || bytes >= MAX_REQUEST || !Resizes(m.room.cs, h.handles[k], nb) then
         m.after == h && m.next == m.room
       else Reaches(m.after, k, nb) && ResizesTo(m.room, m.next, h.handles[k], nb)
  }

  /** Chunk `k` is gone. */
  ghost predicate Releases(h: Hands, m: Moment, k: nat, sys: Replies) {
    if k < |h.handles| then
      var p := h.handles[k];
      m.after == Hands(Without(h.handles, k), h.live - {p}) && GivesUp(m.room, m.next, p, sys)
    else m.after == h && m.next == m.room
  }

  ghost predicate ReleasesFirst(h: Hands, m: Moment, n: nat, sys: Replies) {
    if n <= |h.handles| then
      m.after == Hands(h.handles[n..], h.live - FirstSet(h.handles, n)) &&
      GivesAll(m.room, m.next, FirstSet(h.handles, n), sys)
    else m.after == h && m.next == m.room
  }

  /** The results a call can have. */
  ghost predicate Results(h: Hands, m: Moment)
    requires Positive(m.room)
  {
    match m.op
    case Alloc(bytes, sys) => Allocates(h, m, bytes, sys)
    case AllocAligned(align, bytes, sys) => AllocatesAligned(h, m, align, bytes, sys)
    case Release(k, sys) => Releases(h, m, k, sys)
    case ReleaseFirst(n, sys) => ReleasesFirst(h, m, n, sys)
    case ResizeInPlace(k, bytes) => ReallocatesInPlace(h, m, k, bytes)
    case Resize(k, bytes, sys) => Reallocates(h, m, k, bytes, sys)
    case Trim(pad, sys) => m.after == h && Trims(m.room, m.next, pad, sys)
    case Write(_, _, _) => m.after == h && m.next == m.room
  }

  /** A call has the result that the room demands, and leaves a room that agrees with it. */
  ghost predicate Follows(h: Hands, m: Moment) { Agrees(m.room, h) && Agrees(m.next, m.after) && Results(h, m) }

  ghost function Now(trace: seq<Moment>): Hands { if trace == [] then EMPTY_HANDED else trace[|trace| - 1].after }

  // ---- the chunks in hand determine what is free --------------------------------------------------------------

  /** A chunk in use in one room is in use in the other. */
  lemma UsedAlike(cs1: Chunks, cs2: Chunks, segs: seq<Segment>, hdr: int, top: int, x: int)
    requires LayoutOk(cs1, segs, hdr) && LayoutOk(cs2, segs, hdr) && Lives(cs1) == Lives(cs2)
    requires UsedAt(cs1, x) && top in cs1 && cs1[top].kind.Top?
    ensures UsedAt(cs2, x) && cs2[x].kind == cs1[x].kind && cs2[x].size == cs1[x].size
  {
    if cs1[x].kind.Live? {
      assert x in Lives(cs1) && x in Lives(cs2) && Lives(cs1)[x] == Lives(cs2)[x];
    } else {
      At(cs1, segs, hdr, x);
      var i := cs1[x].seg;
      var r := if cs1[x].kind.Record? then x else cs1[x].prev;
      At(cs1, segs, hdr, r);
      OnlyClosed(cs1, segs, hdr, top, r);
      FirstsAre(cs2, segs, hdr, i);
      RecordIn(cs2, segs, hdr, i, First(segs[i]));
      At(cs2, segs, hdr, r);
      At(cs2, segs, hdr, NextOf(cs2, r));
    }
  }

  /** The current segment holds no record. */
  lemma OnlyClosed(cs: Chunks, segs: seq<Segment>, hdr: int, top: int, r: int)
    requires Tile(cs, segs, hdr) && Shape(cs, segs) && top in cs && cs[top].kind.Top? && r in cs && cs[r].kind.Record?
    ensures cs[r].seg + 1 < |segs|
  {
    At(cs, segs, hdr, top);
    At(cs, segs, hdr, NextOf(cs, top));
    At(cs, segs, hdr, r);
    LastTwo(cs, segs, hdr, top, r);
  }

  /** What is free is determined by the segments, the mappings and the chunks in hand. */
  lemma RoomPinned(room1: Room, room2: Room, h: Hands)
    requires Agrees(room1, h) && Agrees(room2, h)
    requires room1.segs == room2.segs && room1.maps == room2.maps && room1.hdr == room2.hdr
    ensures SameChunks(room1.cs, room2.cs) && room1.top == room2.top && room1.topsize == room2.topsize
  {
    hide LayoutOk, Lives, MappedLives;
    var cs1, cs2 := room1.cs, room2.cs;
    if room1.segs != [] {
      SameLives(cs1, cs2, room1.maps);
      forall x | UsedAt(cs1, x) ensures UsedAt(cs2, x) && cs2[x].kind == cs1[x].kind && cs2[x].size == cs1[x].size {
        UsedAlike(cs1, cs2, room1.segs, room1.hdr, room1.top, x);
      }
      forall x | UsedAt(cs2, x) ensures UsedAt(cs1, x) { UsedAlike(cs2, cs1, room1.segs, room1.hdr, room2.top, x); }
      UseDetermines(cs1, cs2, room1.segs, room1.hdr);
      assert SameAt(cs1, cs2, room1.top);
    }
  }

  lemma SameLives(cs1: Chunks, cs2: Chunks, maps: map<int, Mapping>)
    requires Lives(cs1) + MappedLives(maps) == Lives(cs2) + MappedLives(maps)
    requires forall p :: p in cs1 || p in cs2 ==> p !in maps
    ensures Lives(cs1) == Lives(cs2)
  {
    var a, b, m := Lives(cs1), Lives(cs2), MappedLives(maps);
    forall p ensures p in a <==> p in b { assert p in a + m <==> p in b + m; }
    forall p | p in a ensures a[p] == b[p] { assert (a + m)[p] == (b + m)[p]; }
  }

  /** The room after a trace that began in room `start`. */
  ghost function RoomAfter(start: Room, trace: seq<Moment>): Room {
    if trace == [] then start else trace[|trace| - 1].next
  }

  /** Every call of the trace is made in the room that the one before it left, and has a result it can have there. */
  ghost predicate Consistent(start: Room, trace: seq<Moment>) {
    trace == [] ||
    var init, last := trace[..|trace| - 1], trace[|trace| - 1];
    Consistent(start, init) && last.room == RoomAfter(start, init) && Follows(Now(init), last)
  }

  // ---- what the program wrote and still owns -----------------------------------------------------------------

  /** The word a write goes to, if the chunk has it. */
  ghost predicate WritesTo(h: Hands, op: Op, w: int) {
    op.Write? && op.k < |h.handles| && h.handles[op.k] in h.live && 16 + 8 * op.i <= h.live[h.handles[op.k]] &&
    w == h.handles[op.k] + 16 + 8 * op.i
  }

  /** The chunks that a call leaves in place, with the smaller of the two sizes. */
  ghost function Surviving(live: map<int, int>, live': map<int, int>): map<int, int> {
    map p | p in live && p in live' :: Min(live[p], live'[p])
  }

  /** Chunk `k` has moved, and word `w` of its new place was copied from the old one. */
  ghost predicate Copied(h: Hands, m: Moment, w: int) {
    m.op.Resize? && m.op.k < |h.handles| && m.op.k < |m.after.handles| &&
    var p, q := h.handles[m.op.k], m.after.handles[m.op.k];
    q != p && p in h.live && q + 16 <= w && (w - q) % 8 == 0 && w - q - 8 <= Min(h.live[p] - 16, m.op.bytes)
  }

  /** Where the content of word `w` was before the call, if the call kept it. */
  ghost function Origin(h: Hands, m: Moment, w: int): Option<int> {
    if InPayload(Surviving(h.live, m.after.live), w) then Some(w)
    else if Copied(h, m, w) then Some(w - m.after.handles[m.op.k] + h.handles[m.op.k])
    else None
  }

  /**
   * The value last written to a word that the program still owns. It is lost only when the chunk is released, or
   * cut below the word; resizing by moving carries it along.
   */
  ghost function Written(trace: seq<Moment>, w: int): Option<int> {
    if trace == [] then None
    else
      var init, last := trace[..|trace| - 1], trace[|trace| - 1];
      if WritesTo(Now(init), last.op, w) then Some(last.op.x)
      else
        match Origin(Now(init), last, w)
        case None => None
        case Some(u) => Written(init, u)
  }

  /** Chunk `p` is there after each of these calls, reaches to word `w`, and the word is not written. */
  ghost predicate Undisturbed(h: Hands, more: seq<Moment>, p: int, w: int)
    decreases |more|
  {
    Covers(h.live, p, w) &&
    (more == [] || (!WritesTo(h, more[0].op, w) && Undisturbed(more[0].after, more[1..], p, w)))
  }

  /** A value stays known as long as its chunk is neither released nor cut below it, and the word is not overwritten. */
  lemma {:induction false} StaysWritten(trace: seq<Moment>, more: seq<Moment>, p: int, w: int)
    requires Undisturbed(Now(trace), more, p, w)
    ensures Written(trace + more, w) == Written(trace, w)
    decreases |more|
  {
    if more == [] {
      assert trace + more == trace;
    } else {
      var next := trace + [more[0]];
      assert trace + more == next + more[1..] && next[..|next| - 1] == trace && Now(next) == more[0].after;
      StaysWritten(next, more[1..], p, w);
      var part := Surviving(Now(trace).live, more[0].after.live);
      assert Covers(part, p, w);
    }
  }

  /** Memory holds every word that was written and is still owned. */
  ghost predicate Remembers(m: Mem, trace: seq<Moment>) {
    forall w {:trigger Written(trace, w)} :: Written(trace, w).Some? ==>
      GetWord(m, w) == Written(trace, w).value && InPayload(Now(trace).live, w)
  }

  /** One call keeps what it must, copies what it moves, and writes what it is told. */
  ghost predicate Keeps(m: Mem, m': Mem, h: Hands, last: Moment) {
    && (forall w {:trigger InPayload(Surviving(h.live, last.after.live), w)} ::
          InPayload(Surviving(h.live, last.after.live), w) && !WritesTo(h, last.op, w) ==>
            GetWord(m', w) == GetWord(m, w))
    && (forall w {:trigger WritesTo(h, last.op, w)} :: WritesTo(h, last.op, w) ==>
          GetWord(m', w) == last.op.x && InPayload(last.after.live, w))
    && (forall w {:trigger Copied(h, last, w)} :: Copied(h, last, w) ==>
          GetWord(m', w) == GetWord(m, w - last.after.handles[last.op.k] + h.handles[last.op.k]) &&
          InPayload(last.after.live, w))
  }

  lemma Remembered(m: Mem, m': Mem, trace: seq<Moment>, last: Moment)
    requires Remembers(m, trace) && Keeps(m, m', Now(trace), last)
    ensures Remembers(m', trace + [last])
  {
    var all, h := trace + [last], Now(trace);
    assert all[..|all| - 1] == trace;
    forall w | Written(all, w).Some? ensures GetWord(m', w) == Written(all, w).value && InPayload(Now(all).live, w) {
      if !WritesTo(h, last.op, w) {
        var o := Origin(h, last, w);
        if InPayload(Surviving(h.live, last.after.live), w) { StillOwned(h.live, last.after.live, w); }
      }
    }
  }

  lemma StillOwned(live: map<int, int>, live': map<int, int>, w: int)
    requires InPayload(Surviving(live, live'), w)
    ensures InPayload(live', w)
  {
    var p :| Covers(Surviving(live, live'), p, w);
    assert Covers(live', p, w);
  }

  // ---- one call ----------------------------------------------------------------------------------------------

  /** A call that neither writes nor moves keeps every word of the surviving chunks. */
  lemma KeepsPlain(m: Mem, m': Mem, h: Hands, last: Moment, part: map<int, int>)
    requires Kept(m, m', part) && Sized(part) && part == Surviving(h.live, last.after.live) && !last.op.Write?
    requires last.op.Resize? ==> last.after.handles == h.handles
    ensures Keeps(m, m', h, last)
  {
    hide Kept, GetWord, Surviving, Sized;
    forall w | InPayload(part, w) ensures GetWord(m', w) == GetWord(m, w) { KeptWord(m, m', part, w); }
  }

  lemma HoldsMore(h: Hands, p: int, s: int)
    requires Holds(h) && p !in h.live
    ensures Holds(Hands(h.handles + [p], h.live[p := s]))
  {
    var hs := h.handles + [p];
    forall i, j | 0 <= i < j < |hs| ensures hs[i] != hs[j] {
      if j == |h.handles| { assert hs[i] in h.handles; }
    }
  }

  lemma HoldsLess(h: Hands, k: nat)
    requires Holds(h) && k < |h.handles|
    ensures h.handles[k] in h.live && Holds(Hands(Without(h.handles, k), h.live - {h.handles[k]}))
  {
    var hs, p := Without(h.handles, k), h.handles[k];
    assert p in h.handles;
    forall x ensures x in hs <==> x in h.handles && x != p {
      if x in h.handles && x != p {
        var i :| 0 <= i < |h.handles| && h.handles[i] == x;
        assert hs[if i < k then i else i - 1] == x;
      }
    }
  }

  /** Putting another chunk in the place of chunk `k`. */
  lemma HoldsReplaced(h: Hands, k: nat, q: int, s: int)
    requires Holds(h) && k < |h.handles| && (q == h.handles[k] || q !in h.live)
    ensures h.handles[k] in h.live
    ensures Holds(Hands(h.handles[k := q], (h.live - {h.handles[k]})[q := s]))
  {
    var p, hs := h.handles[k], h.handles[k := q];
    assert p in h.handles;
    forall x ensures x in hs <==> x == q || (x in h.live && x != p) {
      if x in h.live && x != p {
        var i :| 0 <= i < |h.handles| && h.handles[i] == x;
        assert hs[i] == x;
      }
      assert hs[k] == q;
    }
    forall i, j | 0 <= i < j < |hs| ensures hs[i] != hs[j] {
      assert h.handles[i] in h.handles && h.handles[j] in h.handles && h.handles[i] != h.handles[j];
    }
  }

  lemma SurvivesAdded(live: map<int, int>, live': map<int, int>, p: int, s: int)
    requires live' == live || (p !in live && live' == live[p := s])
    ensures Surviving(live, live') == live
  {
    var s := Surviving(live, live');
    assert forall q :: q in live ==> q in s && s[q] == live[q];
  }

  lemma SurvivesRemoved(live: map<int, int>, gone: set<int>)
    ensures Surviving(live, live - gone) == live - gone
  {
    var s, less := Surviving(live, live - gone), live - gone;
    assert forall q :: q in less ==> q in s && s[q] == less[q];
  }

  lemma LessSetSized(live: map<int, int>, gone: set<int>)
    requires Sized(live)
    ensures Sized(live - gone)
  {
    var less := live - gone;
    forall q | q in less ensures 0 < q && q % 16 == 0 && less[q] % 16 == 0 && less[q] > 0 { assert less[q] == live[q]; }
  }

  lemma RoomAgrees(h: Heap, handles: seq<int>)
    requires h.Valid()
    ensures h.Params() && Positive(h.TheRoom()) && Agrees(h.TheRoom(), Hands(handles, h.Live()))
  {
    forall p | p in h.cs ensures p !in h.maps {
      ChunkNotMapped(h.bins.mem, h.TheView(), h.segs, h.bins.hdr, h.bins.least, h.maps, p);
    }
  }

  method DoAlloc(h: Heap, op: Op, handles: seq<int>) returns (handles': seq<int>)
    requires h.Valid() && Holds(Hands(handles, h.Live())) && (op.Alloc? || op.AllocAligned?)
    modifies h, h.bins
    ensures h.Valid() && Holds(Hands(handles', h.Live()))
    ensures var before := Hands(handles, old(h.Live()));
      var last := Moment(op, old(h.TheRoom()), h.TheRoom(), Hands(handles', h.Live()));
      Positive(last.room) && Results(before, last) && Keeps(old(h.bins.mem), h.bins.mem, before, last)
  {
    hide h.Valid, h.Live, Holds, Kept, NewLive, LeastAlignment, Multiple, Request2Size, Surviving, Keeps, Sized;
    hide h.NoFit, h.Refuses, h.Starved, Denied, Starves, NoRoom, Extends, ExtendsAligned, AllocatesAt;
    LiveSized(h);
    RoomAgrees(h, handles);
    ghost var m, live, room := h.bins.mem, h.Live(), h.TheRoom();
    KeptSelf(m, live);
    var mem := 0;
    if op.Alloc? {
      AllocDenied(h, op.bytes, op.sys);
      if op.bytes < W64 { mem := h.Malloc(op.bytes, op.sys); }
    } else if op.bytes < W64 && op.align <= W64 / 2 {
      AlignedDenied(h, op.bytes, op.sys);
      mem := h.Memalign(op.align, op.bytes, op.sys);
      ghost var a: nat :|
        LeastAlignment(a, op.align) && (mem == 0 <==> old(h.Starved(a, op.bytes, op.sys))) &&
        (mem != 0 ==> Multiple(mem, a)) &&
        (mem != 0 ==> a > 16 && ExtendsAligned(room, h.TheRoom(), mem - 16, a, op.bytes, op.sys));
      ghost var after := Hands(if mem == 0 then handles else handles + [mem - 16], h.Live());
      assert mem == 0 <==> Starves(room, a, op.bytes, op.sys);
      AllocatedAt(Hands(handles, live), Moment(op, room, h.TheRoom(), after), a, op.bytes, op.sys, mem);
    }
    handles' := if mem == 0 then handles else handles + [mem - 16];
    Longer(handles, mem - 16);
    if mem != 0 { AddedOne(live, h.Live(), handles, mem - 16, Request2Size(op.bytes)); }
    SurvivesAdded(live, h.Live(), mem - 16, if mem == 0 then 0 else h.Live()[mem - 16]);
    KeepsPlain(m, h.bins.mem, Hands(handles, live), Moment(op, room, h.TheRoom(), Hands(handles', h.Live())), live);
  }

  lemma Longer(handles: seq<int>, p: int)
    ensures handles + [p] != handles && (handles + [p])[|handles|] == p && |handles + [p]| > |handles|
  {
    assert |handles + [p]| == |handles| + 1;
  }

  lemma AllocatedAt(h: Hands, last: Moment, a: nat, bytes: nat, sys: Replies, mem: int)
    requires Positive(last.room) && (mem == 0 ==> last.after == h)
    requires mem != 0 ==> last.after.handles == h.handles + [mem - 16] && Multiple(mem, a)
    requires mem == 0 <==> Starves(last.room, a, bytes, sys)
    requires mem != 0 ==> a > 16 && ExtendsAligned(last.room, last.next, mem - 16, a, bytes, sys)
    ensures AllocatesAt(h, last, a, bytes, sys)
  {
    hide Multiple, Starves, ExtendsAligned;
    Longer(h.handles, mem - 16);
  }

  lemma AllocDenied(h: Heap, bytes: nat, sys: Replies)
    requires h.Valid()
    ensures h.NoFit(Request2Size(bytes)) <==> NoRoom(h.cs, Request2Size(bytes))
    ensures h.NoFit(Request2Size(bytes)) && h.Refuses(Request2Size(bytes), sys) <==>
      Denied(h.TheRoom(), Request2Size(bytes), sys)
  {
    hide h.Valid, h.NoFit, h.Refuses, Denied;
    DeniedIs(h, Request2Size(bytes), sys);
  }

  lemma AlignedDenied(h: Heap, bytes: nat, sys: Replies)
    requires h.Valid() && h.Params() && Positive(h.TheRoom())
    ensures forall a: nat :: h.Starved(a, bytes, sys) <==> Starves(h.TheRoom(), a, bytes, sys)
    ensures forall a: nat :: h.NoFit(SlackSize(a, bytes)) <==> NoRoom(h.cs, SlackSize(a, bytes))
  {
    hide h.Valid, h.NoFit, h.Refuses, Denied, Request2Size, h.TheRoom;
    forall a: nat
      ensures h.Starved(a, bytes, sys) <==> Starves(h.TheRoom(), a, bytes, sys)
      ensures h.NoFit(SlackSize(a, bytes)) <==> NoRoom(h.cs, SlackSize(a, bytes))
    {
      RequestRoom(bytes);
      AllocDenied(h, Slack(a, bytes), sys);
    }
  }

  lemma AddedOne(live: map<int, int>, live': map<int, int>, handles: seq<int>, p: int, nb: int)
    requires NewLive(live, live', p, nb) && Holds(Hands(handles, live))
    ensures p in live' && p !in live && live' == live[p := live'[p]] && Holds(Hands(handles + [p], live'))
    ensures Grows(Hands(handles, live), Hands(handles + [p], live'), nb)
  {
    hide Holds;
    HoldsMore(Hands(handles, live), p, live'[p]);
  }

  method DoRelease(h: Heap, op: Op, handles: seq<int>) returns (handles': seq<int>)
    requires h.Valid() && Holds(Hands(handles, h.Live())) && op.Release?
    modifies h, h.bins
    ensures h.Valid() && Holds(Hands(handles', h.Live()))
    ensures var before := Hands(handles, old(h.Live()));
      var last := Moment(op, old(h.TheRoom()), h.TheRoom(), Hands(handles', h.Live()));
      Positive(last.room) && Results(before, last) && Keeps(old(h.bins.mem), h.bins.mem, before, last)
  {
    hide h.Valid, h.Live, Holds, Kept, Surviving, Keeps, Sized;
    LiveSized(h);
    ghost var m, live, room := h.bins.mem, h.Live(), h.TheRoom();
    RoomAgrees(h, handles);
    KeptSelf(m, live);
    SurvivesAdded(live, live, 0, 0);
    handles' := handles;
    ghost var part := live;
    if op.k < |handles| {
      var p := handles[op.k];
      HoldsLess(Hands(handles, live), op.k);
      LessSetSized(live, {p});
      PositiveAddress(live, p);
      h.Free(p + 16, op.sys);
      handles' := Without(handles, op.k);
      SurvivesRemoved(live, {p});
      part := live - {p};
    }
    KeepsPlain(m, h.bins.mem, Hands(handles, live), Moment(op, room, h.TheRoom(), Hands(handles', h.Live())), part);
  }

  lemma PositiveAddress(live: map<int, int>, p: int)
    requires Sized(live) && p in live
    ensures p > 0
  {
    assert live[p] > 0;
  }

  // ---- bulk release ------------------------------------------------------------------------------------------

  lemma {:induction false} FirstSetIs(handles: seq<int>, n: nat)
    requires n <= |handles|
    ensures forall x :: x in FirstSet(handles, n) <==> exists i :: 0 <= i < n && handles[i] == x
  {
    if n > 0 { FirstSetIs(handles, n - 1); }
  }

  lemma HoldsLast(h: Hands, n: nat)
    requires Holds(h) && n <= |h.handles|
    ensures Holds(Hands(h.handles[n..], h.live - FirstSet(h.handles, n)))
  {
    var hs := h.handles[n..];
    FirstSetIs(h.handles, n);
    forall x ensures x in hs <==> x in h.live && x !in FirstSet(h.handles, n) {
      if x in hs {
        var i :| 0 <= i < |hs| && hs[i] == x;
        assert h.handles[n + i] == x && x in h.handles;
        assert forall j :: 0 <= j < n ==> h.handles[j] != h.handles[n + i];
      }
      if x in h.live && x !in FirstSet(h.handles, n) {
        var i :| 0 <= i < |h.handles| && h.handles[i] == x;
        assert i >= n && hs[i - n] == x;
      }
    }
    forall i, j | 0 <= i < j < |hs| ensures hs[i] != hs[j] { assert h.handles[n + i] != h.handles[n + j]; }
  }

  /** The pointers that are freed together name the first `n` chunks. */
  lemma {:induction false} PointersAre(a: seq<int>, handles: seq<int>, n: nat)
    requires n <= |a| && n <= |handles| && forall i :: 0 <= i < n ==> a[i] == handles[i] + 16 && handles[i] > 0
    ensures PtrSet(a, n) == FirstSet(handles, n)
  {
    if n > 0 { PointersAre(a, handles, n - 1); }
  }

  method DoReleaseFirst(h: Heap, op: Op, handles: seq<int>) returns (handles': seq<int>)
    requires h.Valid() && Holds(Hands(handles, h.Live())) && op.ReleaseFirst?
    modifies h, h.bins
    ensures h.Valid() && Holds(Hands(handles', h.Live()))
    ensures var before := Hands(handles, old(h.Live()));
      var last := Moment(op, old(h.TheRoom()), h.TheRoom(), Hands(handles', h.Live()));
      Positive(last.room) && Results(before, last) && Keeps(old(h.bins.mem), h.bins.mem, before, last)
  {
    hide h.Valid, h.Live, Kept, Surviving, Keeps, Sized, PtrSet, FirstSet, Holds;
    LiveSized(h);
    ghost var m, live, room := h.bins.mem, h.Live(), h.TheRoom();
    RoomAgrees(h, handles);
    KeptSelf(m, live);
    SurvivesAdded(live, live, 0, 0);
    handles' := handles;
    ghost var part := live;
    if op.n <= |handles| {
      var a := new int[op.n](i requires 0 <= i < op.n => handles[i] + 16);
      HandlesPositive(live, handles);
      PointersAre(a[..], handles, op.n);
      PointersValid(live, handles, a[..], op.n);
      h.BulkFree(a, op.sys);
      HoldsLast(Hands(handles, live), op.n);
      handles' := handles[op.n..];
      part := live - FirstSet(handles, op.n);
      SurvivesRemoved(live, FirstSet(handles, op.n));
      LessSetSized(live, FirstSet(handles, op.n));
    }
    KeepsPlain(m, h.bins.mem, Hands(handles, live), Moment(op, room, h.TheRoom(), Hands(handles', h.Live())), part);
  }

  lemma HandlesPositive(live: map<int, int>, handles: seq<int>)
    requires Sized(live) && Holds(Hands(handles, live))
    ensures forall i :: 0 <= i < |handles| ==> handles[i] > 0 && handles[i] in live
  {
    forall i | 0 <= i < |handles| ensures handles[i] > 0 && handles[i] in live {
      assert handles[i] in handles;
      PositiveAddress(live, handles[i]);
    }
  }

  lemma PointersValid(live: map<int, int>, handles: seq<int>, a: seq<int>, n: nat)
    requires Holds(Hands(handles, live)) && |a| == n <= |handles|
    requires forall i :: 0 <= i < n ==> a[i] == handles[i] + 16 && handles[i] in live
    ensures AllPointers(a, live) && NoTwice(a)
  {
    forall i, j | 0 <= i < j < n ensures a[i] != a[j] { assert handles[i] != handles[j]; }
  }

  // ---- resizing ----------------------------------------------------------------------------------------------

  /** Chunk `p` with another size: what survives has the smaller one. */
  lemma SurvivesResized(live: map<int, int>, p: int, s: int)
    requires p in live
    ensures Surviving(live, live[p := s]) == live[p := Min(live[p], s)]
  {
    var x, y := Surviving(live, live[p := s]), live[p := Min(live[p], s)];
    assert forall q :: q in y ==> q in x && x[q] == y[q];
  }

  lemma ResizedKept(m: Mem, m': Mem, live: map<int, int>, p: int, s: int)
    requires p in live && Kept(m, m', live - {p}) && SameWords(m, m', p + 16, p + Min(live[p], s))
    ensures Kept(m, m', live[p := Min(live[p], s)])
  {
    var l := live[p := Min(live[p], s)];
    forall q | q in l ensures SameWords(m, m', q + 16, q + l[q]) {
      if q != p { assert (live - {p})[q] == l[q]; }
    }
  }

  lemma ResizedSized(live: map<int, int>, p: int, s: int)
    requires Sized(live) && p in live && s > 0 && s % 16 == 0
    ensures Sized(live[p := s])
  {
    var l := live[p := s];
    forall q | q in l ensures 0 < q && q % 16 == 0 && l[q] % 16 == 0 && l[q] > 0 {
      assert live[q] > 0;
    }
  }

  lemma SizeAt(live: map<int, int>, p: int)
    requires Sized(live) && p in live
    ensures live[p] > 0 && live[p] % 16 == 0 && p > 0 && p % 16 == 0
  {
    assert live[p] > 0;
  }

  method DoResizeInPlace(h: Heap, op: Op, handles: seq<int>)
    requires h.Valid() && Holds(Hands(handles, h.Live())) && op.ResizeInPlace?
    modifies h, h.bins
    ensures h.Valid() && Holds(Hands(handles, h.Live()))
    ensures var before := Hands(handles, old(h.Live()));
      var last := Moment(op, old(h.TheRoom()), h.TheRoom(), Hands(handles, h.Live()));
      Positive(last.room) && Results(before, last) && Keeps(old(h.bins.mem), h.bins.mem, before, last)
  {
    hide h.Valid, h.Live, Holds, Kept, SameWords, Request2Size, CanGrow, Lives, Surviving, Keeps, Sized;
    LiveSized(h);
    ghost var m, live, room := h.bins.mem, h.Live(), h.TheRoom();
    RoomAgrees(h, handles);
    KeptSelf(m, live);
    SurvivesAdded(live, live, 0, 0);
    ghost var part := live;
    if op.k < |handles| && op.bytes < MAX_REQUEST {
      var p := handles[op.k];
      HoldsLess(Hands(handles, live), op.k);
      SegmentChunk(h, p);
      RequestFits(op.bytes);
      var newp := 0;
      if Cinuse(h.bins.mem, p) {
        newp := h.TryReallocChunk(p, Request2Size(op.bytes));
      }
      if newp != 0 {
        LiveSized(h);
        SizeAt(live, p);
        SizeAt(h.Live(), p);
        ResizedKept(m, h.bins.mem, live, p, h.Live()[p]);
        ResizedSized(live, p, Min(live[p], h.Live()[p]));
        SurvivesResized(live, p, h.Live()[p]);
        HoldsReplaced(Hands(handles, live), op.k, p, h.Live()[p]);
        assert handles[op.k := p] == handles && (live - {p})[p := h.Live()[p]] == live[p := h.Live()[p]];
        part := live[p := Min(live[p], h.Live()[p])];
      }
    }
    KeepsPlain(m, h.bins.mem, Hands(handles, live), Moment(op, room, h.TheRoom(), Hands(handles, h.Live())), part);
  }

  lemma SurvivesMoved(live: map<int, int>, p: int, q: int, s: int)
    requires p in live && q !in live
    ensures Surviving(live, (live - {p})[q := s]) == live - {p}
  {
    var x, y := Surviving(live, (live - {p})[q := s]), live - {p};
    assert forall r :: r in y ==> r in x && x[r] == y[r];
  }

  /** A chunk that moved: the others keep their words and the copied ones arrive. */
  lemma KeepsMoved(m: Mem, m': Mem, h: Hands, last: Moment, p: int, q: int)
    requires last.op.Resize? && last.op.k < |h.handles| && h.handles[last.op.k] == p && p in h.live && q !in h.live
    requires q in last.after.live
    requires last.after == Hands(h.handles[last.op.k := q], (h.live - {p})[q := last.after.live[q]])
    requires Sized(h.live) && Sized(last.after.live) && last.after.live[q] >= Request2Size(last.op.bytes)
    requires Kept(m, m', h.live - {p}) && Usable(m, p) >= h.live[p] - 16
    requires WordsMoved(m, m', p, q, Min(Usable(m, p), last.op.bytes))
    ensures Keeps(m, m', h, last)
  {
    hide Kept, GetWord, Surviving, Sized, WordsMoved, Usable, Request2Size;
    SurvivesMoved(h.live, p, q, last.after.live[q]);
    LessSetSized(h.live, {p});
    forall w | InPayload(h.live - {p}, w) ensures GetWord(m', w) == GetWord(m, w) { KeptWord(m, m', h.live - {p}, w); }
    forall w | Copied(h, last, w) ensures GetWord(m', w) == GetWord(m, w - q + p) && InPayload(last.after.live, w) {
      CopiedArrives(m, m', h.live, last.after.live, p, q, last.op.bytes, w);
    }
  }

  lemma CopiedArrives(
    m: Mem, m': Mem, live: map<int, int>, live': map<int, int>, p: int, q: int, bytes: nat, w: int
  )
    requires p in live && q in live' && Sized(live') && live'[q] >= Request2Size(bytes)
    requires Usable(m, p) >= live[p] - 16 && WordsMoved(m, m', p, q, Min(Usable(m, p), bytes))
    requires q + 16 <= w && (w - q) % 8 == 0 && w - q - 8 <= Min(live[p] - 16, bytes)
    ensures GetWord(m', w) == GetWord(m, w - q + p) && InPayload(live', w)
  {
    hide GetWord, Sized, WordsMoved, Usable, Request2Size;
    SizeAt(live', q);
    CopiedWord(m, m', p, q, w, Min(Usable(m, p), bytes));
    RequestRoom(bytes);
    assert Covers(live', q, w);
  }

  lemma CopiedWord(m: Mem, m': Mem, p: int, q: int, w: int, bytes: int)
    requires WordsMoved(m, m', p, q, bytes) && q + 16 <= w && (w - q) % 8 == 0 && w - q - 8 <= bytes
    ensures GetWord(m', w) == GetWord(m, w - q + p)
  {
    hide GetWord;
    var i: nat := (w - q - 16) / 8;
    assert WordAt(q, i) == w && WordAt(p, i) == w - q + p;
  }

  lemma UsableAtLeast(h: Heap, p: int)
    requires h.Valid() && p in h.Live()
    ensures Usable(h.bins.mem, p) >= h.Live()[p] - 16
  {
    SizeOfLive(h, p);
  }

  method DoResize(h: Heap, op: Op, handles: seq<int>) returns (handles': seq<int>)
    requires h.Valid() && Holds(Hands(handles, h.Live())) && op.Resize?
    modifies h, h.bins
    ensures h.Valid() && Holds(Hands(handles', h.Live()))
    ensures var before := Hands(handles, old(h.Live()));
      var last := Moment(op, old(h.TheRoom()), h.TheRoom(), Hands(handles', h.Live()));
      Positive(last.room) && Results(before, last) && Keeps(old(h.bins.mem), h.bins.mem, before, last)
  {
    hide h.Valid, h.Live, Holds, Kept, SameWords, Request2Size, Surviving, Keeps, Sized, Usable, WordsMoved, Denied,
         h.NoFit, h.Refuses, Resizes, ResizesTo, Relocates;
    LiveSized(h);
    ghost var m, live, room := h.bins.mem, h.Live(), h.TheRoom();
    RoomAgrees(h, handles);
    KeptSelf(m, live);
    SurvivesAdded(live, live, 0, 0);
    handles' := handles;
    ghost var part := live;
    if op.k < |handles| && op.bytes < W64 {
      var p := handles[op.k];
      HoldsLess(Hands(handles, live), op.k);
      PositiveAddress(live, p);
      UsableAtLeast(h, p);
      AllocDenied(h, op.bytes, op.sys);
      var mem := Realloc(h, p + 16, op.bytes, op.sys);
      if mem != 0 {
        var q := mem - 16;
        LiveSized(h);
        HoldsReplaced(Hands(handles, live), op.k, q, h.Live()[q]);
        handles' := handles[op.k := q];
        if q != p {
          KeepsMoved(m, h.bins.mem, Hands(handles, live), Moment(op, room, h.TheRoom(), Hands(handles', h.Live())), p,
                     q);
          return;
        }
        SizeAt(live, p);
        SizeAt(h.Live(), p);
        assert h.Live() == live[p := h.Live()[p]];
        ResizedKept(m, h.bins.mem, live, p, h.Live()[p]);
        ResizedSized(live, p, Min(live[p], h.Live()[p]));
        SurvivesResized(live, p, h.Live()[p]);
        part := live[p := Min(live[p], h.Live()[p])];
      }
    }
    KeepsPlain(m, h.bins.mem, Hands(handles, live), Moment(op, room, h.TheRoom(), Hands(handles', h.Live())), part);
  }

  // ---- trimming and writing ----------------------------------------------------------------------------------

  method DoTrim(h: Heap, op: Op, handles: seq<int>)
    requires h.Valid() && Holds(Hands(handles, h.Live())) && op.Trim?
    modifies h, h.bins
    ensures h.Valid() && Holds(Hands(handles, h.Live()))
    ensures var before := Hands(handles, old(h.Live()));
      var last := Moment(op, old(h.TheRoom()), h.TheRoom(), Hands(handles, h.Live()));
      Positive(last.room) && Results(before, last) && Keeps(old(h.bins.mem), h.bins.mem, before, last)
  {
    hide h.Valid, h.Live, Holds, Kept, Surviving, Keeps, Sized;
    LiveSized(h);
    ghost var m, live, room := h.bins.mem, h.Live(), h.TheRoom();
    RoomAgrees(h, handles);
    SurvivesAdded(live, live, 0, 0);
    var trimmed := h.MallocTrim(op.pad, op.sys);
    KeepsPlain(m, h.bins.mem, Hands(handles, live), Moment(op, room, h.TheRoom(), Hands(handles, h.Live())), live);
  }

  lemma KeepsWrite(m: Mem, h: Hands, op: Op, room: Room)
    requires op.Write? && op.k < |h.handles| && h.handles[op.k] in h.live && Sized(h.live)
    requires 16 + 8 * op.i <= h.live[h.handles[op.k]]
    ensures Keeps(m, SetWord(m, h.handles[op.k] + 16 + 8 * op.i, op.x), h, Moment(op, room, room, h))
  {
    var p := h.handles[op.k];
    var w := p + 16 + 8 * op.i;
    SizeAt(h.live, p);
    WordOf(p, op.i);
    WordEdit(m, w, op.x);
    assert Covers(h.live, p, w);
    hide SetWord, GetWord, Surviving;
    SurvivesAdded(h.live, h.live, 0, 0);
    forall u | InPayload(h.live, u) ensures u % 8 == 0 { var q :| Covers(h.live, q, u); }
  }

  lemma KeepsNothing(m: Mem, h: Hands, op: Op, room: Room)
    requires op.Write? && forall w :: !WritesTo(h, op, w)
    ensures Keeps(m, m, h, Moment(op, room, room, h))
  {
  }

  method DoWrite(h: Heap, op: Op, handles: seq<int>)
    requires h.Valid() && Holds(Hands(handles, h.Live())) && op.Write?
    modifies h, h.bins
    ensures h.Valid() && Holds(Hands(handles, h.Live()))
    ensures var before := Hands(handles, old(h.Live()));
      var last := Moment(op, old(h.TheRoom()), h.TheRoom(), Hands(handles, h.Live()));
      Positive(last.room) && Results(before, last) && Keeps(old(h.bins.mem), h.bins.mem, before, last)
  {
    hide h.Valid, h.Live, Holds, Kept, SetWord, Keeps, Sized;
    LiveSized(h);
    ghost var m, live, room := h.bins.mem, h.Live(), h.TheRoom();
    RoomAgrees(h, handles);
    if op.k < |handles| {
      var p := handles[op.k];
      HoldsLess(Hands(handles, live), op.k);
      SizeOfLive(h, p);
      if 16 + 8 * op.i <= ChunkSize(h.bins.mem, p) {
        InChunk(live, p, op.i);
        h.Store(p, p + 16 + 8 * op.i, op.x);
        KeepsWrite(m, Hands(handles, live), op, room);
        return;
      }
    }
    KeepsNothing(m, Hands(handles, live), op, room);
  }

  // ---- whole runs --------------------------------------------------------------------------------------------

  method Step(h: Heap, op: Op, handles: seq<int>) returns (handles': seq<int>)
    requires h.Valid() && Holds(Hands(handles, h.Live()))
    modifies h, h.bins
    ensures h.Valid() && Holds(Hands(handles', h.Live()))
    ensures var before := Hands(handles, old(h.Live()));
      var last := Moment(op, old(h.TheRoom()), h.TheRoom(), Hands(handles', h.Live()));
      Follows(before, last) && Keeps(old(h.bins.mem), h.bins.mem, before, last)
  {
    hide h.Valid, h.Live, Holds, Results, Agrees, Keeps, h.TheRoom;
    RoomAgrees(h, handles);
    handles' := handles;
    match op {
      case Alloc(_, _) => handles' := DoAlloc(h, op, handles);
      case AllocAligned(_, _, _) => handles' := DoAlloc(h, op, handles);
      case Release(_, _) => handles' := DoRelease(h, op, handles);
      case ReleaseFirst(_, _) => handles' := DoReleaseFirst(h, op, handles);
      case ResizeInPlace(_, _) => DoResizeInPlace(h, op, handles);
      case Resize(_, _, _) => handles' := DoResize(h, op, handles);
      case Trim(_, _) => DoTrim(h, op, handles);
      case Write(_, _, _) => DoWrite(h, op, handles);
    }
    RoomAgrees(h, handles');
  }

  /** The calls of the trace are the given ones. */
  ghost predicate Calls(trace: seq<Moment>, ops: seq<Op>) {
    |trace| == |ops| && forall i :: 0 <= i < |ops| ==> trace[i].op == ops[i]
  }

  /**
   * Any sequence of calls on a fresh heap, with any answers of the system: the heap invariant holds throughout, the
   * program holds exactly the live chunks, every call has a result it can have, and memory holds every word that
   * was written and is still owned. No error branch of the allocator is taken.
   */
  method Run(h: Heap, ops: seq<Op>) returns (handles: seq<int>, ghost trace: seq<Moment>)
    requires h.Valid() && h.Live() == map[]
    modifies h, h.bins
    ensures h.Valid() && Calls(trace, ops) && Now(trace) == Hands(handles, h.Live())
    ensures Consistent(old(h.TheRoom()), trace) && RoomAfter(old(h.TheRoom()), trace) == h.TheRoom()
    ensures Holds(Now(trace)) && Remembers(h.bins.mem, trace)
  {
    hide h.Valid, Holds, Follows, Keeps, Remembers, h.TheRoom;
    ghost var start := h.TheRoom();
    handles, trace := [], [];
    Nothing(h.bins.mem);
    for n := 0 to |ops|
      invariant h.Valid() && Calls(trace, ops[..n]) && Now(trace) == Hands(handles, h.Live())
      invariant Consistent(start, trace) && RoomAfter(start, trace) == h.TheRoom()
      invariant Holds(Now(trace)) && Remembers(h.bins.mem, trace)
    {
      ghost var m, room := h.bins.mem, h.TheRoom();
      handles := Step(h, ops[n], handles);
      ghost var last := Moment(ops[n], room, h.TheRoom(), Hands(handles, h.Live()));
      Remembered(m, h.bins.mem, trace, last);
      Chained(start, trace, last);
      trace := trace + [last];
    }
  }

  lemma Nothing(m: Mem)
    ensures Remembers(m, []) && Holds(EMPTY_HANDED)
  {
  }

  lemma Chained(start: Room, trace: seq<Moment>, last: Moment)
    requires Consistent(start, trace) && last.room == RoomAfter(start, trace) && Follows(Now(trace), last)
    ensures Consistent(start, trace + [last]) && Now(trace + [last]) == last.after
    ensures RoomAfter(start, trace + [last]) == last.next
  {
    hide Follows;
    assert (trace + [last])[..|trace|] == trace;
  }
}
