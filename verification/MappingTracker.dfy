/**
 * The hooked memory calls as steps of concurrent threads, against a client that drops pages when an unmapping is
 * announced and records them when a mapping is. Pages are numbered; a mapping is known by its generation, which is
 * fresh for every successful call that maps or discards pages.
 */
module MappingTracker {
  type Page = int
  type Gen = int
  type Thread = nat

  const NO_GEN: Gen := -1

  datatype Range = Range(lo: int, n: nat)

  const NOTHING := Range(0, 0)

  predicate In(p: Page, r: Range) { r.lo <= p < r.lo + r.n }

  function Pages(r: Range): (s: set<Page>)
    ensures forall p :: p in s <==> In(p, r)
    decreases r.n
  {
    if r.n == 0 then {} else Pages(Range(r.lo, r.n - 1)) + {r.lo + r.n - 1}
  }

  /** The calls, with page-aligned ranges; remapping to a fixed address is not among them. */
  datatype Op =
    | Mmap(fixed: bool, range: Range)
    | Munmap(range: Range)
    | Mremap(range: Range, size: nat)
    | Shmat(remap: bool, range: Range)
    | Shmdt(addr: Page)
    | Sbrk(increment: int)
    | Brk(to: Page)
    | Madvise(range: Range, release: bool)

  /** Entered, the unmapping announced, the real call made, an attachment noted, finished. */
  datatype Phase = Entered | Announced | Made | Noted | Done

  /**
   * A call in progress: the generations whose calls had returned when it was entered, the range it announces as
   * unmapped, the break it read, and once the real call succeeded its generation and the range it mapped.
   */
  datatype Call = Call(op: Op, settled: set<Gen>, drop: Range, base: Page, phase: Phase, gen: Gen, made: Range)

  datatype State = State(
    kernel: map<Page, Gen>, client: map<Page, Gen>, brk: Page,
    sizes: map<Page, nat>, segments: map<Gen, Range>, loose: set<Gen>,
    returned: set<Gen>, nextGen: Gen, calls: map<Thread, Call>)

  /** What a thread does next; `found`, `addr` and `ok` are the system's part. */
  datatype Action =
    | Enter(t: Thread, op: Op, found: nat)
    | Announce(t: Thread)
    | Perform(t: Thread, addr: Page, ok: bool)
    | Note(t: Thread, stored: bool)
    | Record(t: Thread)
    | Leave(t: Thread)

  predicate IsBreak(op: Op) { op.Sbrk? || op.Brk? }

  // ---- entering --------------------------------------------------------------------------------------------

  /** The size a detach announces: the noted one, or what the system's map shows. */
  function DetachSize(sizes: map<Page, nat>, op: Op, found: nat): nat {
    if op.Shmdt? && op.addr in sizes then sizes[op.addr] else found
  }

  /** The range announced as unmapped before the real call. */
  function Announces(brk: Page, op: Op, size: nat): Range {
    match op
    case Mmap(fixed, range) => if fixed then range else NOTHING
    case Munmap(range) => range
    case Mremap(range, _) => range
    case Shmat(remap, range) => if remap then range else NOTHING
    case Shmdt(addr) => Range(addr, size)
    case Sbrk(inc) => if inc < 0 then Range(brk + inc, -inc) else NOTHING
    case Brk(to) => if to < brk then Range(to, brk - to) else NOTHING
    case Madvise(range, release) => if release then range else NOTHING
  }

  /** The attachment that starts at `addr`, if one is still mapped there. */
  ghost predicate Attached(kernel: map<Page, Gen>, segments: map<Gen, Range>, addr: Page) {
    addr in kernel && kernel[addr] in segments && segments[kernel[addr]].lo == addr
  }

  ghost predicate CanEnter(s: State, t: Thread, op: Op, found: nat) {
    && t !in s.calls
    && (IsBreak(op) ==> forall u :: u in s.calls ==> !IsBreak(s.calls[u].op))
    && (op.Shmat? ==> op.range.n > 0)
    && (op.Shmdt? && op.addr !in s.sizes && Attached(s.kernel, s.segments, op.addr) ==>
          found >= s.segments[s.kernel[op.addr]].n)
  }

  function Forgotten(s: State, op: Op): map<Page, nat> {
    match op
    case Shmat(remap, range) => if remap then s.sizes - {range.lo} else s.sizes
    case Shmdt(addr) => s.sizes - {addr}
    case _ => s.sizes
  }

  function Entering(s: State, t: Thread, op: Op, found: nat): State {
    var c := Call(op, s.returned, Announces(s.brk, op, DetachSize(s.sizes, op, found)), s.brk, Entered, NO_GEN,
                  NOTHING);
    s.(sizes := Forgotten(s, op), calls := s.calls[t := c])
  }

  // ---- the real call ---------------------------------------------------------------------------------------

  /** The pages the real call takes away. */
  ghost function Taken(s: State, c: Call): set<Page> {
    match c.op
    case Mmap(fixed, range) => if fixed then Pages(range) else {}
    case Munmap(range) => Pages(range)
    case Mremap(range, _) => Pages(range)
    case Shmat(remap, range) => if remap then Pages(range) else {}
    case Shmdt(addr) =>
      if Attached(s.kernel, s.segments, addr) then
        var g := s.kernel[addr];
        set p | p in Pages(s.segments[g]) && p in s.kernel && s.kernel[p] == g
      else {}
    case Sbrk(inc) => if inc < 0 then Pages(Range(s.brk + inc, -inc)) else {}
    case Brk(to) => if to < s.brk then Pages(Range(to, s.brk - to)) else {}
    case Madvise(range, release) => if release then Pages(range) * s.kernel.Keys else {}
  }

  /** The range it maps, which the system chose when the caller did not. */
  function Given(s: State, c: Call, addr: Page): Range {
    match c.op
    case Mmap(fixed, range) => if fixed then range else Range(addr, range.n)
    case Mremap(_, size) => Range(addr, size)
    case Shmat(remap, range) => if remap then range else Range(addr, range.n)
    case Sbrk(inc) => if inc > 0 then Range(s.brk, inc) else NOTHING
    case Brk(to) => if to > s.brk then Range(s.brk, to - s.brk) else NOTHING
    case _ => NOTHING
  }

  /** The pages that get the new generation: what is mapped, and what an advice discards. */
  ghost function Renewed(s: State, c: Call, addr: Page): set<Page> {
    if c.op.Madvise? then Taken(s, c) else Pages(Given(s, c, addr))
  }

  ghost function Replaced(kernel: map<Page, Gen>, taken: set<Page>, renewed: set<Page>, gen: Gen): map<Page, Gen> {
    map p | p in kernel.Keys - taken + renewed :: if p in renewed then gen else kernel[p]
  }

  /**
   * The real call can succeed: what it maps is free or taken by it, and what it takes away was mapped by calls that
   * had returned before it was entered, so no one unmaps a range whose map call has not returned.
   */
  ghost predicate CanPerform(s: State, t: Thread, addr: Page, ok: bool) {
    && t in s.calls && s.calls[t].phase == Announced
    && (ok ==>
          var c := s.calls[t];
          && (forall p :: p in Taken(s, c) && p in s.kernel ==> s.kernel[p] in c.settled)
          && (forall p :: p in Renewed(s, c, addr) && p in s.kernel ==> p in Taken(s, c))
          && (c.op.Shmdt? ==> Attached(s.kernel, s.segments, c.op.addr)))
  }

  function BrokenTo(s: State, op: Op): Page {
    match op
    case Sbrk(inc) => s.brk + inc
    case Brk(to) => to
    case _ => s.brk
  }

  ghost function Performing(s: State, t: Thread, addr: Page, ok: bool): State
    requires t in s.calls
  {
    var c := s.calls[t];
    if !ok then s.(calls := s.calls[t := c.(phase := Done)])
    else
      var g, made := s.nextGen, Given(s, c, addr);
      s.(kernel := Replaced(s.kernel, Taken(s, c), Renewed(s, c, addr), g), brk := BrokenTo(s, c.op),
         segments := if c.op.Shmat? then s.segments[g := made] else s.segments,
         loose := if c.op.Shmat? then s.loose + {g} else s.loose,
         nextGen := g + 1, calls := s.calls[t := c.(phase := Made, gen := g, made := made)])
  }

  // ---- noting, recording, leaving ----------------------------------------------------------------------------

  /** The range announced as mapped: a break call computes it from the break it sees. */
  function Shown(s: State, c: Call): Range {
    match c.op
    case Mmap(_, _) => c.made
    case Mremap(_, _) => c.made
    case Shmat(_, _) => c.made
    case Sbrk(inc) => if inc > 0 then Range(s.brk - inc, inc) else NOTHING
    case Brk(to) => if to > c.base then Range(c.base, to - c.base) else NOTHING
    case _ => NOTHING
  }

  ghost predicate Enabled(s: State, a: Action) {
    match a
    case Enter(t, op, found) => CanEnter(s, t, op, found)
    case Announce(t) => t in s.calls && s.calls[t].phase == Entered
    case Perform(t, addr, ok) => CanPerform(s, t, addr, ok)
    case Note(t, stored) =>
      t in s.calls && s.calls[t].phase == Made && s.calls[t].op.Shmat? &&
      (stored || s.calls[t].made.lo !in s.sizes)
    case Record(t) => t in s.calls && s.calls[t].phase == if s.calls[t].op.Shmat? then Noted else Made
    case Leave(t) => t in s.calls && s.calls[t].phase == Done
  }

  ghost function Next(s: State, a: Action): State
    requires Enabled(s, a)
  {
    match a
    case Enter(t, op, found) => Entering(s, t, op, found)
    case Announce(t) =>
      var c := s.calls[t];
      s.(client := s.client - Pages(c.drop), calls := s.calls[t := c.(phase := Announced)])
    case Perform(t, addr, ok) => Performing(s, t, addr, ok)
    case Note(t, stored) =>
      var c := s.calls[t];
      s.(sizes := if stored then s.sizes[c.made.lo := c.made.n] else s.sizes, loose := s.loose - {c.gen},
         calls := s.calls[t := c.(phase := Noted)])
    case Record(t) =>
      var c := s.calls[t];
      s.(client := s.client + map p | p in Pages(Shown(s, c)) :: c.gen, calls := s.calls[t := c.(phase := Done)])
    case Leave(t) =>
      var c := s.calls[t];
      s.(returned := if c.gen == NO_GEN then s.returned else s.returned + {c.gen}, calls := s.calls - {t})
  }

  // ---- safety ----------------------------------------------------------------------------------------------

  /** Whatever page the client holds, the kernel maps, and to the mapping the client was told of. */
  ghost predicate Safe(client: map<Page, Gen>, kernel: map<Page, Gen>) {
    forall p :: p in client ==> p in kernel && kernel[p] == client[p]
  }

  /** A call's generation is its own until it returns, and it only trusts calls that returned. */
  ghost predicate AgeOk(returned: set<Gen>, nextGen: Gen, c: Call) {
    && c.settled <= returned
    && (c.gen != NO_GEN ==> 0 <= c.gen < nextGen && c.gen !in returned)
    && (c.phase in {Entered, Announced} ==> c.gen == NO_GEN)
    && (c.phase in {Made, Noted} ==> c.gen != NO_GEN)
  }

  /** What a call mapped is still its own. */
  ghost predicate MadeOk(kernel: map<Page, Gen>, c: Call) {
    c.phase in {Made, Noted} ==> forall p :: In(p, c.made) ==> p in kernel && kernel[p] == c.gen
  }

  /** The kernel has given a call that maps no page but those. */
  ghost predicate OwnOk(kernel: map<Page, Gen>, c: Call) {
    c.phase in {Made, Noted} && !c.op.Madvise? ==> forall p :: p in kernel && kernel[p] == c.gen ==> In(p, c.made)
  }

  /** Of the announced range the client holds nothing that had returned when the call was entered. */
  ghost predicate DropOk(client: map<Page, Gen>, c: Call) {
    c.phase == Announced ==> forall p :: p in client && In(p, c.drop) ==> client[p] !in c.settled
  }

  /** A break call in progress still sees the break it started from, and then the one it set. */
  ghost predicate BreakOk(brk: Page, c: Call) {
    IsBreak(c.op) ==>
      && (c.phase in {Entered, Announced} ==> c.base == brk)
      && (c.phase == Made && c.op.Sbrk? && c.op.increment > 0 ==>
            c.made == Range(brk - c.op.increment, c.op.increment))
      && (c.phase == Made && c.op.Brk? && c.op.to > c.base ==> c.made == Range(c.base, c.op.to - c.base))
  }

  /** A call announces what its arguments say, and one that unmaps or advises maps nothing. */
  ghost predicate RangeOk(c: Call) {
    && c.drop == Announces(c.base, c.op, c.drop.n)
    && (c.phase in {Made, Noted} && !Maps(c) ==> c.made == NOTHING)
  }

  predicate Maps(c: Call) {
    c.op.Mmap? || c.op.Mremap? || c.op.Shmat? || (c.op.Sbrk? && c.op.increment > 0) || (c.op.Brk? && c.op.to > c.base)
  }

  /** A detach announces at least the attachment it will take away, and an attach knows its segment. */
  ghost predicate SegmentOk(kernel: map<Page, Gen>, segments: map<Gen, Range>, loose: set<Gen>, c: Call) {
    && (c.op.Shmdt? && c.phase in {Entered, Announced} && Attached(kernel, segments, c.op.addr) ==>
          kernel[c.op.addr] in c.settled ==> segments[kernel[c.op.addr]].n <= c.drop.n)
    && (c.op.Shmat? ==> c.op.range.n > 0)
    && (c.op.Shmat? && c.phase in {Made, Noted} ==> c.gen in segments && segments[c.gen] == c.made && c.made.n > 0)
    && (c.gen in loose ==> c.phase == Made && c.op.Shmat?)
  }

  /** The noted sizes are those of the attachments, once these are noted. */
  ghost predicate SizesOk(sizes: map<Page, nat>, kernel: map<Page, Gen>, segments: map<Gen, Range>, loose: set<Gen>) {
    forall a :: a in sizes && Attached(kernel, segments, a) && kernel[a] !in loose ==>
      sizes[a] == segments[kernel[a]].n
  }

  ghost predicate GensOk(
    kernel: map<Page, Gen>, returned: set<Gen>, loose: set<Gen>, segments: map<Gen, Range>, nextGen: Gen
  ) {
    && nextGen >= 0
    && (forall p :: p in kernel ==> kernel[p] < nextGen)
    && (forall g :: g in returned || g in loose || g in segments ==> 0 <= g < nextGen)
    && (forall g :: g in loose ==> g !in returned)
  }

  ghost predicate CallOk(s: State, c: Call) {
    AgeOk(s.returned, s.nextGen, c) && MadeOk(s.kernel, c) && OwnOk(s.kernel, c) && DropOk(s.client, c) &&
    BreakOk(s.brk, c) && RangeOk(c) && SegmentOk(s.kernel, s.segments, s.loose, c)
  }

  /** Different calls have different generations, and at most one is a break call. */
  ghost predicate Apart(calls: map<Thread, Call>) {
    forall t, u :: t in calls && u in calls && t != u ==>
      (calls[t].gen != NO_GEN ==> calls[t].gen != calls[u].gen) && !(IsBreak(calls[t].op) && IsBreak(calls[u].op))
  }

  ghost predicate Inv(s: State) {
    Safe(s.client, s.kernel) && GensOk(s.kernel, s.returned, s.loose, s.segments, s.nextGen) &&
    SizesOk(s.sizes, s.kernel, s.segments, s.loose) && Apart(s.calls) &&
    forall t :: t in s.calls ==> CallOk(s, s.calls[t])
  }

  lemma EnterKeeps(s: State, t: Thread, op: Op, found: nat)
    requires Inv(s) && CanEnter(s, t, op, found)
    ensures Inv(Entering(s, t, op, found))
  {
    hide MadeOk, OwnOk, DropOk, Safe, Attached, Announces;
    var s1 := Entering(s, t, op, found);
    var c := s1.calls[t];
    Fresh(s, op, found);
    EnteredHolds(s1.kernel, s1.client, c);
    assert AgeOk(s1.returned, s1.nextGen, c) && BreakOk(s1.brk, c) && RangeOk(c);
    EnterSegment(s, op, found, c);
    forall u | u in s1.calls ensures CallOk(s1, s1.calls[u]) {
      if u != t { assert CallOk(s, s.calls[u]); }
    }
  }

  lemma EnterSegment(s: State, op: Op, found: nat, c: Call)
    requires GensOk(s.kernel, s.returned, s.loose, s.segments, s.nextGen)
    requires SizesOk(s.sizes, s.kernel, s.segments, s.loose)
    requires op.Shmat? ==> op.range.n > 0
    requires op.Shmdt? && op.addr !in s.sizes && Attached(s.kernel, s.segments, op.addr) ==>
      found >= s.segments[s.kernel[op.addr]].n
    requires c.op == op && c.phase == Entered && c.gen == NO_GEN && c.settled == s.returned
    requires op.Shmdt? ==> c.drop.n == DetachSize(s.sizes, op, found)
    ensures SegmentOk(s.kernel, s.segments, s.loose, c)
  {
    if op.Shmdt? && Attached(s.kernel, s.segments, op.addr) && op.addr in s.sizes {
      assert s.kernel[op.addr] in c.settled ==> s.kernel[op.addr] !in s.loose;
    }
  }

  lemma EnteredHolds(kernel: map<Page, Gen>, client: map<Page, Gen>, c: Call)
    requires c.phase == Entered
    ensures MadeOk(kernel, c) && OwnOk(kernel, c) && DropOk(client, c)
  {
  }

  /** What a call announces does not change between entering and the real call. */
  lemma Fresh(s: State, op: Op, found: nat)
    ensures var drop := Announces(s.brk, op, DetachSize(s.sizes, op, found)); drop == Announces(s.brk, op, drop.n)
    ensures op.Shmdt? ==> Announces(s.brk, op, DetachSize(s.sizes, op, found)).n == DetachSize(s.sizes, op, found)
  {
  }

  lemma AnnounceKeeps(s: State, t: Thread)
    requires Inv(s) && Enabled(s, Announce(t))
    ensures Inv(Next(s, Announce(t)))
  {
    hide Attached, Announces, GensOk, SizesOk;
    var s1 := Next(s, Announce(t));
    forall u | u in s1.calls ensures CallOk(s1, s1.calls[u]) { assert CallOk(s, s.calls[u]); }
  }

  lemma NoteKeeps(s: State, t: Thread, stored: bool)
    requires Inv(s) && Enabled(s, Note(t, stored))
    ensures Inv(Next(s, Note(t, stored)))
  {
    hide Announces, DropOk, Safe, BreakOk;
    var s1, c := Next(s, Note(t, stored)), s.calls[t];
    assert CallOk(s, c);
    forall u | u in s1.calls ensures CallOk(s1, s1.calls[u]) {
      assert CallOk(s, s.calls[u]);
      NotAnnounced(s1.client, s1.brk, s1.calls[t]);
    }
  }

  lemma NotAnnounced(client: map<Page, Gen>, brk: Page, c: Call)
    requires c.phase in {Noted, Done}
    ensures DropOk(client, c) && BreakOk(brk, c)
  {
  }

  lemma RecordKeeps(s: State, t: Thread)
    requires Inv(s) && Enabled(s, Record(t))
    ensures Inv(Next(s, Record(t)))
  {
    hide Safe, GensOk, SizesOk, Pages, AgeOk, MadeOk, OwnOk, DropOk, BreakOk, RangeOk, SegmentOk, Shown;
    var s1, c := Next(s, Record(t)), s.calls[t];
    assert CallOk(s, c);
    ShownIsMade(s, c);
    Recorded(s.client, s.kernel, Shown(s, c), c.gen);
    forall u | u in s1.calls ensures CallOk(s1, s1.calls[u]) {
      assert CallOk(s, s.calls[u]);
      if u == t {
        RecordedCall(s, c, s1.client);
      } else {
        OtherRecorded(s.client, Shown(s, c), c, s.calls[u], s.returned, s.nextGen);
      }
    }
  }

  /** The pages announced as mapped are the ones the call mapped. */
  lemma ShownIsMade(s: State, c: Call)
    requires MadeOk(s.kernel, c) && BreakOk(s.brk, c) && c.phase == if c.op.Shmat? then Noted else Made
    ensures forall p :: p in Pages(Shown(s, c)) ==> p in s.kernel && s.kernel[p] == c.gen
  {
  }

  lemma Recorded(client: map<Page, Gen>, kernel: map<Page, Gen>, r: Range, gen: Gen)
    requires Safe(client, kernel) && forall p :: p in Pages(r) ==> p in kernel && kernel[p] == gen
    ensures Safe(client + map p | p in Pages(r) :: gen, kernel)
  {
  }

  lemma RecordedCall(s: State, c: Call, client: map<Page, Gen>)
    requires CallOk(s, c) && c.phase == if c.op.Shmat? then Noted else Made
    ensures var d := c.(phase := Done);
      && AgeOk(s.returned, s.nextGen, d) && MadeOk(s.kernel, d) && OwnOk(s.kernel, d) && DropOk(client, d)
      && BreakOk(s.brk, d) && RangeOk(d) && SegmentOk(s.kernel, s.segments, s.loose, d)
  {
  }

  /** What is recorded had not returned when another call was entered. */
  lemma OtherRecorded(client: map<Page, Gen>, r: Range, c: Call, d: Call, returned: set<Gen>, nextGen: Gen)
    requires DropOk(client, d) && AgeOk(returned, nextGen, c) && AgeOk(returned, nextGen, d)
    requires c.phase in {Made, Noted}
    ensures DropOk(client + map p | p in Pages(r) :: c.gen, d)
  {
    hide Pages;
  }

  lemma LeaveKeeps(s: State, t: Thread)
    requires Inv(s) && Enabled(s, Leave(t))
    ensures Inv(Next(s, Leave(t)))
  {
    hide Announces, DropOk, MadeOk, OwnOk, BreakOk, Attached, Safe, SizesOk;
    var s1 := Next(s, Leave(t));
    assert CallOk(s, s.calls[t]);
    forall u | u in s1.calls ensures CallOk(s1, s1.calls[u]) { assert CallOk(s, s.calls[u]); }
  }

  // ---- the real call keeps safety ----------------------------------------------------------------------------

  /** What the real call takes away lies in the range that was announced. */
  lemma TakenAnnounced(s: State, c: Call)
    requires CallOk(s, c) && c.phase == Announced
    requires forall p :: p in Taken(s, c) && p in s.kernel ==> s.kernel[p] in c.settled
    ensures forall p :: p in Taken(s, c) ==> In(p, c.drop)
  {
    if c.op.Shmdt? && Attached(s.kernel, s.segments, c.op.addr) {
      var g := s.kernel[c.op.addr];
      forall p | p in Taken(s, c) ensures In(p, c.drop) { assert s.kernel[p] == g; }
    }
  }

  /** So the client holds none of it. */
  lemma TakenUnheld(s: State, c: Call)
    requires CallOk(s, c) && c.phase == Announced && Safe(s.client, s.kernel)
    requires forall p :: p in Taken(s, c) && p in s.kernel ==> s.kernel[p] in c.settled
    ensures forall p :: p in Taken(s, c) ==> p !in s.client
  {
    hide Taken, AgeOk, MadeOk, BreakOk, RangeOk, SegmentOk;
    TakenAnnounced(s, c);
  }

  lemma ReplacedAt(kernel: map<Page, Gen>, taken: set<Page>, renewed: set<Page>, gen: Gen, p: Page)
    ensures p in Replaced(kernel, taken, renewed, gen) <==> p in renewed || (p in kernel && p !in taken)
    ensures p in renewed ==> Replaced(kernel, taken, renewed, gen)[p] == gen
    ensures p in kernel && p !in taken && p !in renewed ==> Replaced(kernel, taken, renewed, gen)[p] == kernel[p]
  {
  }

  /** Every page whose mapping is not settled for the call keeps it. */
  ghost predicate KeepsUnsettled(kernel: map<Page, Gen>, after: map<Page, Gen>, settled: set<Gen>) {
    forall p :: p in kernel && kernel[p] !in settled ==> p in after && after[p] == kernel[p]
  }

  /** Every page has its old mapping or the new generation. */
  ghost predicate OldOrNew(kernel: map<Page, Gen>, after: map<Page, Gen>, gen: Gen) {
    forall p :: p in after ==> after[p] == gen || (p in kernel && after[p] == kernel[p])
  }

  lemma ReplacedKeeps(
    kernel: map<Page, Gen>, client: map<Page, Gen>, taken: set<Page>, renewed: set<Page>, gen: Gen, settled: set<Gen>
  )
    requires Safe(client, kernel) && forall p :: p in taken ==> p !in client
    requires forall p :: p in taken && p in kernel ==> kernel[p] in settled
    requires forall p :: p in renewed && p in kernel ==> p in taken
    ensures var after := Replaced(kernel, taken, renewed, gen);
      && Safe(client, after) && KeepsUnsettled(kernel, after, settled) && OldOrNew(kernel, after, gen)
      && (forall p :: p in renewed ==> p in after && after[p] == gen)
      && (forall p :: p in after && after[p] == gen ==> p in renewed || (p in kernel && kernel[p] == gen))
  {
    hide Replaced;
    var after := Replaced(kernel, taken, renewed, gen);
    forall p ensures p in client ==> p in after && after[p] == client[p] { ReplacedAt(kernel, taken, renewed, gen, p); }
    forall p ensures p in kernel && kernel[p] !in settled ==> p in after && after[p] == kernel[p] {
      ReplacedAt(kernel, taken, renewed, gen, p);
    }
    forall p ensures p in after ==> after[p] == gen || (p in kernel && after[p] == kernel[p]) {
      ReplacedAt(kernel, taken, renewed, gen, p);
    }
    forall p ensures p in renewed ==> p in after && after[p] == gen { ReplacedAt(kernel, taken, renewed, gen, p); }
    forall p ensures p in after && after[p] == gen ==> p in renewed || (p in kernel && kernel[p] == gen) {
      ReplacedAt(kernel, taken, renewed, gen, p);
    }
  }

  /** Another call's mapping and attachment survive: its generation had not returned. */
  lemma OtherCall(s: State, c: Call, d: Call, after: map<Page, Gen>, g: Gen, made: Range)
    requires CallOk(s, d) && c.settled <= s.returned && g == s.nextGen
    requires GensOk(s.kernel, s.returned, s.loose, s.segments, s.nextGen)
    requires KeepsUnsettled(s.kernel, after, c.settled) && OldOrNew(s.kernel, after, g)
    ensures AgeOk(s.returned, g + 1, d) && MadeOk(after, d) && OwnOk(after, d)
    ensures SegmentOk(after, s.segments, s.loose, d) && SegmentOk(after, s.segments[g := made], s.loose + {g}, d)
  {
    assert forall h :: h in d.settled ==> h < g;
  }

  lemma SizesKept(s: State, after: map<Page, Gen>, g: Gen, made: Range)
    requires GensOk(s.kernel, s.returned, s.loose, s.segments, s.nextGen) && g == s.nextGen
    requires SizesOk(s.sizes, s.kernel, s.segments, s.loose) && OldOrNew(s.kernel, after, g)
    ensures SizesOk(s.sizes, after, s.segments, s.loose)
    ensures SizesOk(s.sizes, after, s.segments[g := made], s.loose + {g})
    ensures GensOk(after, s.returned, s.loose, s.segments, g + 1)
    ensures GensOk(after, s.returned, s.loose + {g}, s.segments[g := made], g + 1)
  {
  }

  lemma OwnCall(s: State, c: Call, addr: Page, after: map<Page, Gen>)
    requires CallOk(s, c) && c.phase == Announced
    requires GensOk(s.kernel, s.returned, s.loose, s.segments, s.nextGen)
    requires forall p :: p in Renewed(s, c, addr) ==> p in after && after[p] == s.nextGen
    requires forall p :: p in after && after[p] == s.nextGen ==> p in Renewed(s, c, addr)
    ensures var d := c.(phase := Made, gen := s.nextGen, made := Given(s, c, addr));
      var segments := if c.op.Shmat? then s.segments[s.nextGen := d.made] else s.segments;
      var loose := if c.op.Shmat? then s.loose + {s.nextGen} else s.loose;
      && AgeOk(s.returned, s.nextGen + 1, d) && MadeOk(after, d) && OwnOk(after, d) && DropOk(s.client, d)
      && BreakOk(BrokenTo(s, c.op), d) && RangeOk(d) && SegmentOk(after, segments, loose, d)
  {
    hide Taken;
  }

  lemma PerformKeeps(s: State, t: Thread, addr: Page, ok: bool)
    requires Inv(s) && CanPerform(s, t, addr, ok)
    ensures Inv(Performing(s, t, addr, ok))
  {
    hide Taken, Renewed, Replaced, Safe, GensOk, SizesOk, AgeOk, MadeOk, OwnOk, DropOk, BreakOk, RangeOk, SegmentOk,
         Given;
    var s1, c := Performing(s, t, addr, ok), s.calls[t];
    assert CallOk(s, c);
    if ok {
      var g, made := s.nextGen, Given(s, c, addr);
      TakenUnheld(s, c);
      ReplacedKeeps(s.kernel, s.client, Taken(s, c), Renewed(s, c, addr), g, c.settled);
      SizesKept(s, s1.kernel, g, made);
      NotNext(s);
      OwnCall(s, c, addr, s1.kernel);
      ApartKept(s, t, s1.calls[t]);
      forall u | u in s1.calls ensures CallOk(s1, s1.calls[u]) {
        if u != t {
          assert CallOk(s, s.calls[u]);
          SettledReturned(s, c);
          OtherCall(s, c, s.calls[u], s1.kernel, g, made);
          OtherBreak(s, t, u);
        }
      }
    } else {
      RefusedCall(s, c);
      forall u | u in s1.calls ensures CallOk(s1, s1.calls[u]) {
        if u != t { assert CallOk(s, s.calls[u]); }
      }
    }
  }

  lemma NotNext(s: State)
    requires GensOk(s.kernel, s.returned, s.loose, s.segments, s.nextGen)
    ensures forall p :: p in s.kernel ==> s.kernel[p] != s.nextGen
  {
  }

  lemma ApartKept(s: State, t: Thread, d: Call)
    requires Inv(s) && t in s.calls && d.gen == s.nextGen && d.op == s.calls[t].op
    ensures Apart(s.calls[t := d])
  {
    forall u | u in s.calls ensures s.calls[u].gen != s.nextGen { assert CallOk(s, s.calls[u]); }
  }

  lemma SettledReturned(s: State, c: Call)
    requires AgeOk(s.returned, s.nextGen, c)
    ensures c.settled <= s.returned
  {
  }

  lemma OtherBreak(s: State, t: Thread, u: Thread)
    requires Apart(s.calls) && t in s.calls && u in s.calls && t != u && BreakOk(s.brk, s.calls[u])
    ensures BreakOk(BrokenTo(s, s.calls[t].op), s.calls[u])
  {
  }

  lemma RefusedCall(s: State, c: Call)
    requires CallOk(s, c) && c.phase == Announced
    ensures CallOk(s, c.(phase := Done))
  {
  }

  // ---- runs --------------------------------------------------------------------------------------------------

  /** No call is in progress, the client holds nothing, and what is mapped was mapped before. */
  ghost predicate Start(s: State) {
    && s.client == map[] && s.sizes == map[] && s.segments == map[] && s.loose == {} && s.calls == map[]
    && s.nextGen >= 0 && (forall p :: p in s.kernel ==> s.kernel[p] in s.returned)
    && (forall g :: g in s.returned ==> 0 <= g < s.nextGen)
  }

  lemma StartHolds(s: State)
    requires Start(s)
    ensures Inv(s)
  {
  }

  lemma NextKeeps(s: State, a: Action)
    requires Inv(s) && Enabled(s, a)
    ensures Inv(Next(s, a))
  {
    hide Inv;
    match a
    case Enter(t, op, found) => EnterKeeps(s, t, op, found);
    case Announce(t) => AnnounceKeeps(s, t);
    case Perform(t, addr, ok) => PerformKeeps(s, t, addr, ok);
    case Note(t, stored) => NoteKeeps(s, t, stored);
    case Record(t) => RecordKeeps(s, t);
    case Leave(t) => LeaveKeeps(s, t);
  }

  ghost predicate IsRun(s: State, acts: seq<Action>)
    decreases |acts|
  {
    acts == [] || (Enabled(s, acts[0]) && IsRun(Next(s, acts[0]), acts[1..]))
  }

  ghost function After(s: State, acts: seq<Action>): State
    requires IsRun(s, acts)
    decreases |acts|
  {
    if acts == [] then s else After(Next(s, acts[0]), acts[1..])
  }

  /** In every state that any interleaving reaches, the client's pages are a sub-map of the kernel's. */
  lemma ClientIsSubMap(s: State, acts: seq<Action>)
    requires Start(s) && IsRun(s, acts)
    ensures Safe(After(s, acts).client, After(s, acts).kernel)
  {
    StartHolds(s);
    RunKeeps(s, acts);
  }

  lemma {:induction false} RunKeeps(s: State, acts: seq<Action>)
    requires Inv(s) && IsRun(s, acts)
    ensures Inv(After(s, acts))
    decreases |acts|
  {
    hide Inv, Enabled, Next;
    if acts != [] {
      NextKeeps(s, acts[0]);
      RunKeeps(Next(s, acts[0]), acts[1..]);
    }
  }

  // ---- every mapping is announced ----------------------------------------------------------------------------

  /**
   * Recording a call that maps tells the client of exactly the pages that the kernel has given the call, and changes
   * nothing else; an advice tells it nothing.
   */
  lemma RecordTells(s: State, t: Thread, p: Page)
    requires Inv(s) && Enabled(s, Record(t))
    ensures var s1, c := Next(s, Record(t)), s.calls[t];
      var told := !c.op.Madvise? && p in s.kernel && s.kernel[p] == c.gen;
      (p in s1.client <==> told || p in s.client) &&
      (p in s1.client ==> s1.client[p] == if told then c.gen else s.client[p])
  {
    var c := s.calls[t];
    assert CallOk(s, c);
    hide Safe, GensOk, SizesOk, DropOk, RangeOk, AgeOk, Apart;
    ShownExactly(s, c, p);
  }

  lemma ShownExactly(s: State, c: Call, p: Page)
    requires MadeOk(s.kernel, c) && OwnOk(s.kernel, c) && BreakOk(s.brk, c) && RangeOk(c)
    requires c.phase == if c.op.Shmat? then Noted else Made
    ensures p in Pages(Shown(s, c)) <==> !c.op.Madvise? && p in s.kernel && s.kernel[p] == c.gen
  {
    hide Pages;
  }

  /** The call that was given generation `g` has yet to tell the client. */
  ghost predicate ToldSoon(s: State, g: Gen) {
    exists t :: t in s.calls && s.calls[t].gen == g && s.calls[t].phase in {Made, Noted} && !s.calls[t].op.Madvise?
  }

  ghost predicate Told(s: State, p: Page, g: Gen) { p in s.client && s.client[p] == g }

  /** Every call that has announced page `p` as unmapped was entered before generation `g` returned. */
  ghost predicate NoneTakes(s: State, p: Page, g: Gen) {
    forall u :: u in s.calls && s.calls[u].phase == Announced && In(p, s.calls[u].drop) ==> g !in s.calls[u].settled
  }

  /** Page `p` is mapped to generation `g`; the client knows or will be told. */
  ghost predicate Owed(s: State, p: Page, g: Gen) {
    p in s.kernel && s.kernel[p] == g && NoneTakes(s, p, g) && (Told(s, p, g) || ToldSoon(s, g))
  }

  /** The action does not announce a range that covers page `p`. */
  ghost predicate Spares(s: State, a: Action, p: Page)
    requires Enabled(s, a)
  {
    a.Announce? ==> !In(p, s.calls[a.t].drop)
  }

  /** No range that is announced in the run covers page `p`. */
  ghost predicate SparesAll(s: State, acts: seq<Action>, p: Page)
    requires IsRun(s, acts)
    decreases |acts|
  {
    acts == [] || (Spares(s, acts[0], p) && SparesAll(Next(s, acts[0]), acts[1..], p))
  }

  /** A real call that succeeds takes no page away whose generation had not returned when the call was entered. */
  lemma PerformSpares(s: State, t: Thread, addr: Page, p: Page, g: Gen)
    requires Inv(s) && CanPerform(s, t, addr, true) && p in s.kernel && s.kernel[p] == g && NoneTakes(s, p, g)
    ensures var s1 := Performing(s, t, addr, true); p in s1.kernel && s1.kernel[p] == g
  {
    var c := s.calls[t];
    assert CallOk(s, c);
    hide Inv, CallOk, Taken, Renewed, Given, Replaced;
    if p in Taken(s, c) { TakenAnnounced(s, c); }
    ReplacedAt(s.kernel, Taken(s, c), Renewed(s, c, addr), s.nextGen, p);
  }

  lemma EnterOwes(s: State, t: Thread, op: Op, found: nat, p: Page, g: Gen)
    requires CanEnter(s, t, op, found) && Owed(s, p, g)
    ensures Owed(Entering(s, t, op, found), p, g)
  {
    hide Announces, Forgotten, DetachSize;
    var s1 := Entering(s, t, op, found);
    if !Told(s, p, g) {
      var u :| u in s.calls && s.calls[u].gen == g && s.calls[u].phase in {Made, Noted} && !s.calls[u].op.Madvise?;
      assert u in s1.calls && s1.calls[u] == s.calls[u];
    }
  }

  lemma PerformOwes(s: State, t: Thread, addr: Page, ok: bool, p: Page, g: Gen)
    requires Inv(s) && CanPerform(s, t, addr, ok) && Owed(s, p, g)
    ensures Owed(Performing(s, t, addr, ok), p, g)
  {
    hide Inv, Taken, Renewed, Given, Replaced;
    var s1 := Performing(s, t, addr, ok);
    if ok { PerformSpares(s, t, addr, p, g); }
    if !Told(s, p, g) {
      var u :| u in s.calls && s.calls[u].gen == g && s.calls[u].phase in {Made, Noted} && !s.calls[u].op.Madvise?;
      assert u in s1.calls && s1.calls[u] == s.calls[u];
    }
  }

  lemma RecordOwes(s: State, t: Thread, p: Page, g: Gen)
    requires Inv(s) && Enabled(s, Record(t)) && Owed(s, p, g)
    ensures Owed(Next(s, Record(t)), p, g)
  {
    RecordTells(s, t, p);
    hide Inv, Shown, Pages;
    var s1 := Next(s, Record(t));
    if !Told(s, p, g) {
      var u :| u in s.calls && s.calls[u].gen == g && s.calls[u].phase in {Made, Noted} && !s.calls[u].op.Madvise?;
      if u != t { assert u in s1.calls && s1.calls[u] == s.calls[u]; }
    }
  }

  lemma OtherOwes(s: State, a: Action, p: Page, g: Gen)
    requires Enabled(s, a) && Spares(s, a, p) && Owed(s, p, g) && (a.Announce? || a.Note? || a.Leave?)
    ensures Owed(Next(s, a), p, g)
  {
    var s1 := Next(s, a);
    if !Told(s, p, g) {
      var u :| u in s.calls && s.calls[u].gen == g && s.calls[u].phase in {Made, Noted} && !s.calls[u].op.Madvise?;
      assert u in s1.calls && s1.calls[u].gen == g && s1.calls[u].phase in {Made, Noted};
      assert s1.calls[u].op == s.calls[u].op;
    }
  }

  lemma NextOwes(s: State, a: Action, p: Page, g: Gen)
    requires Inv(s) && Enabled(s, a) && Spares(s, a, p) && Owed(s, p, g)
    ensures Owed(Next(s, a), p, g)
  {
    hide Inv, Owed;
    match a
    case Enter(t, op, found) => EnterOwes(s, t, op, found, p, g);
    case Perform(t, addr, ok) => PerformOwes(s, t, addr, ok, p, g);
    case Record(t) => RecordOwes(s, t, p, g);
    case _ => OtherOwes(s, a, p, g);
  }

  lemma {:induction false} RunOwes(s: State, acts: seq<Action>, p: Page, g: Gen)
    requires Inv(s) && IsRun(s, acts) && SparesAll(s, acts, p) && Owed(s, p, g)
    ensures Owed(After(s, acts), p, g)
    decreases |acts|
  {
    hide Inv, Enabled, Next, Owed, Spares;
    if acts != [] {
      NextKeeps(s, acts[0]);
      NextOwes(s, acts[0], p, g);
      RunOwes(Next(s, acts[0]), acts[1..], p, g);
    }
  }

  /** A real call that maps page `p` owes it to the client. */
  lemma MappedIsOwed(s: State, t: Thread, addr: Page, p: Page)
    requires Inv(s) && CanPerform(s, t, addr, true) && !s.calls[t].op.Madvise?
    requires var s1 := Performing(s, t, addr, true); p in s1.kernel && s1.kernel[p] == s.nextGen
    ensures Owed(Performing(s, t, addr, true), p, s.nextGen)
  {
    var s1 := Performing(s, t, addr, true);
    assert t in s1.calls && s1.calls[t].gen == s.nextGen && s1.calls[t].phase == Made;
    forall u | u in s1.calls && s1.calls[u].phase == Announced ensures s.nextGen !in s1.calls[u].settled {
      assert u in s.calls && s1.calls[u] == s.calls[u] && CallOk(s, s.calls[u]);
    }
  }

  /**
   * In every run that ends with no call in progress, the client holds every page that a real call mapped, unless a
   * range announced later covers the page: it knows it by the generation that the kernel gave it.
   */
  lemma EveryMappingIsTold(
    start: State, before: seq<Action>, t: Thread, addr: Page, after: seq<Action>, p: Page
  )
    requires Start(start) && IsRun(start, before)
    requires var s := After(start, before); CanPerform(s, t, addr, true) && !s.calls[t].op.Madvise?
    requires var s := After(start, before); var s1 := Performing(s, t, addr, true);
      p in s1.kernel && s1.kernel[p] == s.nextGen && IsRun(s1, after) && SparesAll(s1, after, p) &&
      After(s1, after).calls == map[]
    ensures var s := After(start, before); var end := After(Performing(s, t, addr, true), after);
      p in end.kernel && end.kernel[p] == s.nextGen && p in end.client && end.client[p] == s.nextGen
  {
    hide Inv, Taken, Renewed, Given, Replaced, IsRun, After, SparesAll, Start, Performing;
    StartHolds(start);
    RunKeeps(start, before);
    var s := After(start, before);
    PerformKeeps(s, t, addr, true);
    MappedIsOwed(s, t, addr, p);
    RunOwes(Performing(s, t, addr, true), after, p, s.nextGen);
  }

  // ---- only what will be taken away is announced ---------------------------------------------------------------

  /** Of the mapped pages, a call announces exactly those it will take away; a detach at least those. */
  lemma AnnouncesTaken(s: State, c: Call, p: Page)
    requires CallOk(s, c) && c.phase == Announced && p in s.kernel && !c.op.Shmdt?
    ensures In(p, c.drop) <==> p in Taken(s, c)
  {
    hide MadeOk, OwnOk, AgeOk, DropOk, SegmentOk, Pages;
  }

  /** The action neither detaches nor replaces the attachment at `addr`, nor notes another there. */
  ghost predicate LeavesSize(s: State, a: Action, addr: Page)
    requires Enabled(s, a)
  {
    match a
    case Enter(_, op, _) => op != Shmdt(addr) && !(op.Shmat? && op.remap && op.range.lo == addr)
    case Note(t, _) => s.calls[t].made.lo != addr
    case _ => true
  }

  ghost predicate LeaveSize(s: State, acts: seq<Action>, addr: Page)
    requires IsRun(s, acts)
    decreases |acts|
  {
    acts == [] || (LeavesSize(s, acts[0], addr) && LeaveSize(Next(s, acts[0]), acts[1..], addr))
  }

  /** A noted size stays until the address is detached, replaced or noted again. */
  lemma {:induction false} SizeStays(s: State, acts: seq<Action>, addr: Page)
    requires IsRun(s, acts) && LeaveSize(s, acts, addr) && addr in s.sizes
    ensures addr in After(s, acts).sizes && After(s, acts).sizes[addr] == s.sizes[addr]
    decreases |acts|
  {
    if acts != [] {
      OneLeavesSize(s, acts[0], addr);
      hide Next, Enabled, LeavesSize;
      SizeStays(Next(s, acts[0]), acts[1..], addr);
    }
  }

  lemma OneLeavesSize(s: State, a: Action, addr: Page)
    requires Enabled(s, a) && LeavesSize(s, a, addr) && addr in s.sizes
    ensures addr in Next(s, a).sizes && Next(s, a).sizes[addr] == s.sizes[addr]
  {
    hide Announces, Taken, Renewed, Replaced, Shown, Pages;
  }

  /** A detach of an attachment whose size was noted announces exactly that attachment. */
  lemma DetachAnnounces(s: State, t: Thread, addr: Page, found: nat)
    requires Inv(s) && CanEnter(s, t, Shmdt(addr), found) && addr in s.sizes
    requires Attached(s.kernel, s.segments, addr) && s.kernel[addr] in s.returned
    ensures Entering(s, t, Shmdt(addr), found).calls[t].drop == s.segments[s.kernel[addr]]
  {
    hide Safe, CallOk, Apart;
  }

  // ---- why the caller must not unmap what was not yet returned to it -----------------------------------------

  const R5 := Range(5, 1)
  const UNMAP5 := Call(Munmap(R5), {}, R5, 0, Announced, NO_GEN, NOTHING)
  const MAP1 := Call(Mmap(false, Range(0, 1)), {}, NOTHING, 0, Entered, NO_GEN, NOTHING)

  /** An unmapping of free page 5 is announced; meanwhile another thread is given page 5 and records it. */
  const RACE: seq<Action> := [
    Enter(0, Munmap(R5), 0), Announce(0),
    Enter(1, Mmap(false, Range(0, 1)), 0), Announce(1), Perform(1, 5, true), Record(1), Leave(1)]

  ghost function Idle(calls: map<Thread, Call>): State { State(map[], map[], 0, map[], map[], {}, {}, 0, calls) }

  ghost function Mapped5(client: map<Page, Gen>, returned: set<Gen>, calls: map<Thread, Call>): State {
    State(map[5 := 0], client, 0, map[], map[], {}, returned, 1, calls)
  }

  ghost function Racing(): State { Mapped5(map[5 := 0], {0}, map[0 := UNMAP5]) }

  lemma SinglePage()
    ensures Pages(R5) == {5} && Pages(NOTHING) == {}
  {
  }

  lemma RaceAnnounced()
    ensures IsRun(Idle(map[]), RACE[..2]) && After(Idle(map[]), RACE[..2]) == Idle(map[0 := UNMAP5])
  {
    hide IsRun, After;
    SinglePage();
    var s1, s2 := Idle(map[0 := UNMAP5.(phase := Entered)]), Idle(map[0 := UNMAP5]);
    EndOfRun(s2, RACE[..2][2..]);
    OneAct(s1, RACE[..2][1..], s2);
    OneAct(Idle(map[]), RACE[..2], s1);
  }

  lemma RaceGiven()
    ensures var s := Idle(map[0 := UNMAP5, 1 := MAP1.(phase := Announced)]);
      Enabled(s, Perform(1, 5, true)) &&
      Next(s, Perform(1, 5, true)) ==
        Mapped5(map[], {}, map[0 := UNMAP5, 1 := MAP1.(phase := Made, gen := 0, made := R5)])
  {
    SinglePage();
    var s := Idle(map[0 := UNMAP5, 1 := MAP1.(phase := Announced)]);
    assert Given(s, s.calls[1], 5) == R5;
    assert Replaced(map[], {}, {5}, 0) == map[5 := 0];
  }

  lemma RaceMapped()
    ensures var s := Idle(map[0 := UNMAP5]); var rest := RACE[2..];
      IsRun(s, rest) && After(s, rest) == Racing()
  {
    hide IsRun, After, Enabled, Next;
    var rest := RACE[2..];
    var s2 := Idle(map[0 := UNMAP5]);
    var s3 := Idle(map[0 := UNMAP5, 1 := MAP1]);
    var s4 := Idle(map[0 := UNMAP5, 1 := MAP1.(phase := Announced)]);
    var made := MAP1.(phase := Made, gen := 0, made := R5);
    var s5 := Mapped5(map[], {}, map[0 := UNMAP5, 1 := made]);
    var s6 := Mapped5(map[5 := 0], {}, map[0 := UNMAP5, 1 := made.(phase := Done)]);
    EndOfRun(Racing(), rest[5..]);
    RaceLeft(made);
    OneAct(s6, rest[4..], Racing());
    RaceRecorded(made);
    OneAct(s5, rest[3..], s6);
    RaceGiven();
    OneAct(s4, rest[2..], s5);
    RaceEntered();
    OneAct(s3, rest[1..], s4);
    OneAct(s2, rest, s3);
  }

  lemma RaceLeft(made: Call)
    requires made == MAP1.(phase := Made, gen := 0, made := R5)
    ensures var s := Mapped5(map[5 := 0], {}, map[0 := UNMAP5, 1 := made.(phase := Done)]);
      Enabled(s, Leave(1)) && Next(s, Leave(1)) == Racing()
  {
    var s := Mapped5(map[5 := 0], {}, map[0 := UNMAP5, 1 := made.(phase := Done)]);
    assert s.calls - {1} == map[0 := UNMAP5];
  }

  lemma RaceEntered()
    ensures var s := Idle(map[0 := UNMAP5]); var op := Mmap(false, Range(0, 1));
      Enabled(s, Enter(1, op, 0)) && Next(s, Enter(1, op, 0)) == Idle(map[0 := UNMAP5, 1 := MAP1])
    ensures var s := Idle(map[0 := UNMAP5, 1 := MAP1]);
      Enabled(s, Announce(1)) && Next(s, Announce(1)) == Idle(map[0 := UNMAP5, 1 := MAP1.(phase := Announced)])
  {
    SinglePage();
  }

  lemma RaceRecorded(made: Call)
    requires made == MAP1.(phase := Made, gen := 0, made := R5)
    ensures var s := Mapped5(map[], {}, map[0 := UNMAP5, 1 := made]);
      Enabled(s, Record(1)) &&
      Next(s, Record(1)) == Mapped5(map[5 := 0], {}, map[0 := UNMAP5, 1 := made.(phase := Done)])
  {
    SinglePage();
  }

  /** That is an interleaving of permitted steps. */
  lemma RaceIsRun()
    ensures Start(Idle(map[])) && IsRun(Idle(map[]), RACE[..2]) &&
      var s := After(Idle(map[]), RACE[..2]); IsRun(s, RACE[2..]) && After(s, RACE[2..]) == Racing()
  {
    hide IsRun, After;
    RaceAnnounced();
    RaceMapped();
  }

  lemma OneAct(s: State, acts: seq<Action>, next: State)
    requires acts != [] && Enabled(s, acts[0]) && Next(s, acts[0]) == next
    ensures IsRun(next, acts[1..]) ==> IsRun(s, acts) && After(s, acts) == After(next, acts[1..])
  {
    hide Enabled, Next;
  }

  lemma EndOfRun(s: State, none: seq<Action>)
    requires none == []
    ensures IsRun(s, none) && After(s, none) == s
  {
  }

  /** If the first thread's real call now went through, the client would hold a page that is gone. */
  lemma RaceIsUnsafe()
    ensures var s := Performing(Racing(), 0, 0, true); !Safe(s.client, s.kernel)
  {
    var s := Performing(Racing(), 0, 0, true);
    assert Pages(R5) == {5};
    assert 5 in s.client && 5 !in s.kernel;
  }

  // ---- when a real call is safe --------------------------------------------------------------------------------

  /** The real call can succeed, whoever mapped what it takes away. */
  ghost predicate MayPerform(s: State, t: Thread, addr: Page) {
    && t in s.calls && s.calls[t].phase == Announced
    && var c := s.calls[t];
       && (forall p :: p in Renewed(s, c, addr) && p in s.kernel ==> p in Taken(s, c))
       && (c.op.Shmdt? ==> Attached(s.kernel, s.segments, c.op.addr))
  }

  /** The client is safe after a real call exactly when it holds none of the pages that the call takes away. */
  lemma SafeExactly(s: State, t: Thread, addr: Page)
    requires Inv(s) && MayPerform(s, t, addr)
    ensures var s1 := Performing(s, t, addr, true);
      Safe(s1.client, s1.kernel) <==> forall p :: p in Taken(s, s.calls[t]) ==> p !in s.client
  {
    hide Taken, Renewed, Replaced, Given;
    var s1, c := Performing(s, t, addr, true), s.calls[t];
    forall p | p in s.client
      ensures p in s1.kernel && s1.kernel[p] == s.client[p] <==> p !in Taken(s, c)
    {
      ReplacedAt(s.kernel, Taken(s, c), Renewed(s, c, addr), s.nextGen, p);
    }
  }

  /** A held page that a call takes away was mapped by a call that had not returned when this one was entered. */
  lemma OnlyRacesHurt(s: State, t: Thread, p: Page)
    requires Inv(s) && t in s.calls && s.calls[t].phase == Announced
    requires p in Taken(s, s.calls[t]) && p in s.client
    ensures p in s.kernel && s.kernel[p] !in s.calls[t].settled
  {
    var c := s.calls[t];
    assert CallOk(s, c);
    hide MadeOk, OwnOk, AgeOk, GensOk, SizesOk, Apart;
    if s.kernel[p] in c.settled {
      TakenInDrop(s, c, p);
    }
  }

  lemma TakenInDrop(s: State, c: Call, p: Page)
    requires CallOk(s, c) && c.phase == Announced && p in Taken(s, c) && p in s.kernel && s.kernel[p] in c.settled
    ensures In(p, c.drop)
  {
    hide MadeOk, OwnOk, AgeOk, DropOk;
  }
}
