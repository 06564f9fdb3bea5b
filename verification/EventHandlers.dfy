/** The memory-event handler list: priority order, dispatch, and the one real call per native event. */
module EventHandlers {

  datatype Event = Mmap | Munmap | Mremap | Shmat | Shmdt | Sbrk | Brk | Madvise
                 | VmMapped | VmUnmapped | MemTypeAlloc | MemTypeFree

  /** Callbacks are told apart by identity; `CallOrig` is the library's own, which users cannot name. */
  datatype Callback = CallOrig | User(id: nat)

  /** A subscription; `stamp` is when it was added and tells entries apart. */
  datatype Handler = Handler(events: set<Event>, priority: int, cb: Callback, arg: nat, stamp: nat)

  const NATIVE: set<Event> := {Mmap, Munmap, Mremap, Shmat, Shmdt, Sbrk, Brk, Madvise}

  /** The handler that performs the real call; it sits between negative and other priorities. */
  const ORIG: Handler := Handler(NATIVE, 0, CallOrig, 0, 0)

  /** The event record: parameters, which callbacks may rewrite, and a result that starts out invalid. */
  datatype Outcome = Invalid | Valid(value: int)
  datatype Record = Record(params: seq<int>, result: Outcome)

  /** What a user callback makes of the record, and what the system replies. */
  type Behaviour = (nat, nat, Event, Record) -> Record
  type System = (Event, seq<int>) -> Outcome

  datatype Call = Ran(h: Handler) | Real(params: seq<int>)

  // ---- order -----------------------------------------------------------------------------------------------

  /** `g` goes before `h`: by priority, and by age among equals. */
  predicate Before(g: Handler, h: Handler) {
    g.priority < h.priority || (g.priority == h.priority && g.stamp < h.stamp)
  }

  ghost predicate Sorted(list: seq<Handler>) {
    forall i, j :: 0 <= i < j < |list| ==> Before(list[i], list[j])
  }

  ghost predicate Distinct(list: seq<Handler>) {
    forall i, j :: 0 <= i < j < |list| ==> list[i].stamp != list[j].stamp
  }

  /** Two lists in order with the same handlers are the same list. */
  lemma {:induction false} SortedUnique(xs: seq<Handler>, ys: seq<Handler>)
    requires Sorted(xs) && Sorted(ys) && forall h :: h in xs <==> h in ys
    ensures xs == ys
    decreases |xs|
  {
    BothEmpty(xs, ys);
    if xs != [] {
      assert xs[0] in xs && ys[0] in ys;
      FirstIsLeast(xs, ys[0]);
      FirstIsLeast(ys, xs[0]);
      TailMembers(xs);
      TailMembers(ys);
      SortedUnique(xs[1..], ys[1..]);
    }
  }

  lemma FirstIsLeast(xs: seq<Handler>, h: Handler)
    requires Sorted(xs) && h in xs
    ensures h == xs[0] || Before(xs[0], h)
  {
    var i :| 0 <= i < |xs| && xs[i] == h;
    assert i > 0 ==> Before(xs[0], xs[i]);
  }

  lemma BothEmpty(xs: seq<Handler>, ys: seq<Handler>)
    requires forall h :: h in xs <==> h in ys
    ensures xs == [] <==> ys == []
  {
    if xs != [] { assert xs[0] in xs; }
    if ys != [] { assert ys[0] in ys; }
  }

  lemma TailMembers(xs: seq<Handler>)
    requires Sorted(xs) && xs != []
    ensures Sorted(xs[1..]) && forall h :: h in xs[1..] <==> h in xs && h != xs[0]
  {
    forall h | h in xs[1..] ensures h in xs && h != xs[0] {
      var i :| 0 <= i < |xs[1..]| && xs[1..][i] == h;
      assert Before(xs[0], xs[i + 1]);
    }
    forall h | h in xs && h != xs[0] ensures h in xs[1..] {
      var i :| 0 <= i < |xs| && xs[i] == h;
      assert xs[1..][i - 1] == h;
    }
  }

  // ---- dispatch --------------------------------------------------------------------------------------------

  /** One handler's turn. */
  function Turn(h: Handler, t: Event, r: Record, user: Behaviour, system: System): (Record, seq<Call>) {
    match h.cb
    case User(id) => (user(id, h.arg, t, r), [Ran(h)])
    case CallOrig =>
      if t in NATIVE && r.result.Invalid? then (r.(result := system(t, r.params)), [Ran(h), Real(r.params)])
      else (r, [Ran(h)])
  }

  /** The handlers of an event take their turns in list order. */
  function Dispatched(list: seq<Handler>, t: Event, r: Record, user: Behaviour, system: System): (Record, seq<Call>)
    decreases |list|
  {
    if list == [] then (r, [])
    else if t !in list[0].events then Dispatched(list[1..], t, r, user, system)
    else
      var first := Turn(list[0], t, r, user, system);
      var rest := Dispatched(list[1..], t, first.0, user, system);
      (rest.0, first.1 + rest.1)
  }

  function Subscribed(list: seq<Handler>, t: Event): seq<Handler> {
    if list == [] then []
    else (if t in list[0].events then [list[0]] else []) + Subscribed(list[1..], t)
  }

  /** The handlers that ran, in order. */
  function Runs(trace: seq<Call>): seq<Handler> {
    if trace == [] then []
    else (match trace[0] case Ran(h) => [h] case Real(_) => []) + Runs(trace[1..])
  }

  /** The real calls, in order. */
  function Reals(trace: seq<Call>): seq<seq<int>> {
    if trace == [] then []
    else (match trace[0] case Ran(_) => [] case Real(p) => [p]) + Reals(trace[1..])
  }

  lemma TraceAppend(a: seq<Call>, b: seq<Call>)
    ensures Runs(a + b) == Runs(a) + Runs(b) && Reals(a + b) == Reals(a) + Reals(b)
  {
    RunsAppend(a, b);
    RealsAppend(a, b);
  }

  lemma {:induction false} RunsAppend(a: seq<Call>, b: seq<Call>)
    ensures Runs(a + b) == Runs(a) + Runs(b)
  {
    if a == [] {
      assert a + b == b;
    } else {
      var c := a + b;
      assert c[0] == a[0] && c[1..] == a[1..] + b;
      RunsAppend(a[1..], b);
    }
  }

  lemma {:induction false} RealsAppend(a: seq<Call>, b: seq<Call>)
    ensures Reals(a + b) == Reals(a) + Reals(b)
  {
    if a == [] {
      assert a + b == b;
    } else {
      var c := a + b;
      assert c[0] == a[0] && c[1..] == a[1..] + b;
      RealsAppend(a[1..], b);
    }
  }

  lemma {:induction false} DispatchAppend(
    xs: seq<Handler>, ys: seq<Handler>, t: Event, r: Record, user: Behaviour, system: System
  )
    ensures var x := Dispatched(xs, t, r, user, system);
      var y := Dispatched(ys, t, x.0, user, system);
      Dispatched(xs + ys, t, r, user, system) == (y.0, x.1 + y.1)
    decreases |xs|
  {
    hide Turn;
    if xs == [] {
      assert xs + ys == ys;
      var y := Dispatched(ys, t, r, user, system);
      assert [] + y.1 == y.1;
    } else {
      assert (xs + ys)[1..] == xs[1..] + ys;
      if t !in xs[0].events {
        DispatchAppend(xs[1..], ys, t, r, user, system);
      } else {
        var first := Turn(xs[0], t, r, user, system);
        DispatchAppend(xs[1..], ys, t, first.0, user, system);
        var rest := Dispatched(xs[1..], t, first.0, user, system);
        var y := Dispatched(ys, t, rest.0, user, system);
        assert first.1 + (rest.1 + y.1) == first.1 + rest.1 + y.1;
      }
    }
  }

  /** Every subscribed handler runs exactly once, in list order, and nothing else runs. */
  lemma {:induction false} RunsSubscribed(list: seq<Handler>, t: Event, r: Record, user: Behaviour, system: System)
    ensures Runs(Dispatched(list, t, r, user, system).1) == Subscribed(list, t)
    decreases |list|
  {
    if list != [] {
      if t !in list[0].events {
        RunsSubscribed(list[1..], t, r, user, system);
      } else {
        var first := Turn(list[0], t, r, user, system);
        RunsSubscribed(list[1..], t, first.0, user, system);
        TraceAppend(first.1, Dispatched(list[1..], t, first.0, user, system).1);
        assert Runs(first.1) == [list[0]] by { OneTurn(list[0], t, r, user, system); }
      }
    }
  }

  lemma OneTurn(h: Handler, t: Event, r: Record, user: Behaviour, system: System)
    ensures Runs(Turn(h, t, r, user, system).1) == [h]
    ensures h.cb.User? ==> Reals(Turn(h, t, r, user, system).1) == []
  {
    var trace := Turn(h, t, r, user, system).1;
    assert Runs(trace[1..]) == [];
    assert |trace| == 2 ==> Runs(trace[1..][1..]) == [];
  }

  /** User callbacks make no real call. */
  lemma {:induction false} UsersMakeNoCall(list: seq<Handler>, t: Event, r: Record, user: Behaviour, system: System)
    requires forall i :: 0 <= i < |list| ==> list[i].cb.User?
    ensures Reals(Dispatched(list, t, r, user, system).1) == []
    decreases |list|
  {
    hide Turn;
    if list != [] {
      assert forall i :: 0 <= i < |list[1..]| ==> list[1..][i] == list[i + 1];
      if t !in list[0].events {
        UsersMakeNoCall(list[1..], t, r, user, system);
      } else {
        var first := Turn(list[0], t, r, user, system);
        OneTurn(list[0], t, r, user, system);
        UsersMakeNoCall(list[1..], t, first.0, user, system);
        TraceAppend(first.1, Dispatched(list[1..], t, first.0, user, system).1);
      }
    }
  }

  /** A list as users can make it: in order, with the original handler and user handlers only. */
  ghost predicate WellFormed(list: seq<Handler>, k: nat) {
    k < |list| && list[k] == ORIG && Sorted(list) && Distinct(list) &&
    forall i :: 0 <= i < |list| && i != k ==> list[i].cb.User?
  }

  /** Negative priorities come before the original handler and all others after it. */
  lemma OrigDivides(list: seq<Handler>, k: nat)
    requires WellFormed(list, k)
    ensures forall i :: 0 <= i < k ==> list[i].priority < 0
    ensures forall i :: k < i < |list| ==> list[i].priority >= 0
  {
    forall i | 0 <= i < k ensures list[i].priority < 0 { assert Before(list[i], list[k]); }
    forall i | k < i < |list| ensures list[i].priority >= 0 { assert Before(list[k], list[i]); }
  }

  /**
   * A native event: the negative subscribers run, then the real call is made with the parameters they left, exactly
   * once and only if they left the result invalid, then the other subscribers run. No one else makes a real call.
   */
  lemma NativeDispatch(list: seq<Handler>, k: nat, t: Event, r: Record, user: Behaviour, system: System)
    requires WellFormed(list, k) && t in NATIVE
    ensures var early := Dispatched(list[..k], t, r, user, system);
      var mid := if early.0.result.Invalid? then early.0.(result := system(t, early.0.params)) else early.0;
      var late := Dispatched(list[k + 1..], t, mid, user, system);
      var made := if early.0.result.Invalid? then [Real(early.0.params)] else [];
      && Dispatched(list, t, r, user, system) == (late.0, early.1 + ([Ran(ORIG)] + made) + late.1)
      && Runs(early.1) == Subscribed(list[..k], t) && Runs(late.1) == Subscribed(list[k + 1..], t)
      && Reals(early.1) == [] && Reals(late.1) == []
  {
    hide Turn, Dispatched, Sorted, Distinct, Subscribed, Runs, Reals;
    var xs, ys := list[..k], list[k + 1..];
    assert list == xs + ([ORIG] + ys);
    DispatchAppend(xs, [ORIG] + ys, t, r, user, system);
    var early := Dispatched(xs, t, r, user, system);
    OrigFirst(ys, t, early.0, user, system);
    var turn := Turn(ORIG, t, early.0, user, system);
    OrigTurn(t, early.0, user, system);
    RunsSubscribed(xs, t, r, user, system);
    RunsSubscribed(ys, t, turn.0, user, system);
    assert forall i :: 0 <= i < |ys| ==> ys[i] == list[k + 1 + i];
    UsersMakeNoCall(xs, t, r, user, system);
    UsersMakeNoCall(ys, t, turn.0, user, system);
    var late := Dispatched(ys, t, turn.0, user, system);
    assert early.1 + (turn.1 + late.1) == early.1 + turn.1 + late.1;
  }

  /** The original handler runs last, as documented, exactly when no other subscriber comes after it. */
  lemma OrigLast(list: seq<Handler>, k: nat, t: Event, r: Record, user: Behaviour, system: System)
    requires WellFormed(list, k) && t in NATIVE
    ensures var ran := Runs(Dispatched(list, t, r, user, system).1);
      ran != [] && (ran[|ran| - 1] == ORIG <==> Subscribed(list[k + 1..], t) == [])
  {
    hide Dispatched, Runs;
    RunsSubscribed(list, t, r, user, system);
    var xs, ys := list[..k], list[k + 1..];
    assert list == xs + ([ORIG] + ys);
    SubscribedAppend(xs, [ORIG] + ys, t);
    SubscribedAppend([ORIG], ys, t);
    assert Subscribed([ORIG], t) == [ORIG] + Subscribed([ORIG][1..], t);
    var late := Subscribed(ys, t);
    if late != [] {
      var j := SubscribedFrom(ys, t, late[|late| - 1]);
      assert list[k + 1 + j].cb.User?;
    }
  }

  lemma {:induction false} SubscribedAppend(xs: seq<Handler>, ys: seq<Handler>, t: Event)
    ensures Subscribed(xs + ys, t) == Subscribed(xs, t) + Subscribed(ys, t)
  {
    if xs == [] {
      assert xs + ys == ys;
    } else {
      assert (xs + ys)[1..] == xs[1..] + ys;
      SubscribedAppend(xs[1..], ys, t);
    }
  }

  lemma {:induction false} SubscribedFrom(list: seq<Handler>, t: Event, h: Handler) returns (j: nat)
    requires h in Subscribed(list, t)
    ensures j < |list| && list[j] == h
  {
    if h == list[0] {
      j := 0;
    } else {
      j := SubscribedFrom(list[1..], t, h);
      j := j + 1;
    }
  }

  /** The order that the documentation describes: all callbacks, and then the original handler. */
  function Documented(list: seq<Handler>, k: nat): seq<Handler>
    requires k < |list|
  {
    list[..k] + list[k + 1..] + [list[k]]
  }

  /** Dispatching does what is documented exactly when no other subscriber comes after the original handler. */
  lemma AsDocumented(list: seq<Handler>, k: nat, t: Event, r: Record, user: Behaviour, system: System)
    requires WellFormed(list, k) && t in NATIVE
    ensures Dispatched(list, t, r, user, system) == Dispatched(Documented(list, k), t, r, user, system) <==>
      Subscribed(list[k + 1..], t) == []
  {
    hide Turn, Sorted, Distinct, Runs;
    var xs, ys, doc := list[..k], list[k + 1..], Documented(list, k);
    OrigLast(list, k, t, r, user, system);
    RunsSubscribed(doc, t, r, user, system);
    SubscribedAppend(xs + ys, [ORIG], t);
    assert Subscribed([ORIG], t) == [ORIG] + Subscribed([ORIG][1..], t);
    if Subscribed(ys, t) == [] {
      hide Dispatched, Subscribed;
      assert list == xs + ([ORIG] + ys) && doc == xs + (ys + [ORIG]);
      DispatchAppend(xs, [ORIG] + ys, t, r, user, system);
      DispatchAppend(xs, ys + [ORIG], t, r, user, system);
      var mid := Dispatched(xs, t, r, user, system).0;
      DispatchAppend([ORIG], ys, t, mid, user, system);
      DispatchAppend(ys, [ORIG], t, mid, user, system);
      NoneSubscribed(ys, t, mid, user, system);
      var orig := Dispatched([ORIG], t, mid, user, system);
      NoneSubscribed(ys, t, orig.0, user, system);
      assert orig.1 + [] == orig.1 && [] + orig.1 == orig.1;
    }
  }

  lemma {:induction false} NoneSubscribed(list: seq<Handler>, t: Event, r: Record, user: Behaviour, system: System)
    requires Subscribed(list, t) == []
    ensures Dispatched(list, t, r, user, system) == (r, [])
    decreases |list|
  {
    if list != [] { NoneSubscribed(list[1..], t, r, user, system); }
  }

  /** A subscriber of priority 0. */
  const LATE := Handler({Munmap}, 0, User(1), 0, 1)

  function Rewriting(params: seq<int>): Behaviour {
    (_: nat, _: nat, _: Event, r: Record) => Record(params, r.result)
  }

  const GRANTING: System := (_: Event, _: seq<int>) => Valid(0)

  /** If it rewrites the parameters, the real call was made with the old ones; as documented, it gets the new ones. */
  lemma LateIsIgnored(params: seq<int>, other: seq<int>)
    requires params != other
    ensures var start, user := Record(params, Invalid), Rewriting(other);
      && WellFormed([ORIG, LATE], 0)
      && Reals(Dispatched([ORIG, LATE], Munmap, start, user, GRANTING).1) == [params]
      && Reals(Dispatched(Documented([ORIG, LATE], 0), Munmap, start, user, GRANTING).1) == [other]
  {
    var user := Rewriting(other);
    var start := Record(params, Invalid);
    var doc := Documented([ORIG, LATE], 0);
    assert doc == [LATE, ORIG];
    TwoTurns(ORIG, LATE, Munmap, start, user, GRANTING);
    TwoTurns(LATE, ORIG, Munmap, start, user, GRANTING);
    OrigReals(Munmap, start, user, GRANTING);
    OrigReals(Munmap, Record(other, Invalid), user, GRANTING);
    OneTurn(LATE, Munmap, start, user, GRANTING);
    OneTurn(LATE, Munmap, Record(params, Valid(0)), user, GRANTING);
  }

  lemma OrigReals(t: Event, r: Record, user: Behaviour, system: System)
    requires t in NATIVE && r.result.Invalid?
    ensures Reals(Turn(ORIG, t, r, user, system).1) == [r.params]
  {
    var made := [Real(r.params)];
    assert [Ran(ORIG), Real(r.params)][1..] == made && made[1..] == [];
    assert Reals(made) == [r.params] + Reals([]);
  }

  lemma TwoTurns(g: Handler, h: Handler, t: Event, r: Record, user: Behaviour, system: System)
    requires t in g.events && t in h.events
    ensures var first := Turn(g, t, r, user, system);
      var second := Turn(h, t, first.0, user, system);
      Dispatched([g, h], t, r, user, system) == (second.0, first.1 + second.1)
    ensures var first := Turn(g, t, r, user, system);
      var second := Turn(h, t, first.0, user, system);
      Reals(first.1 + second.1) == Reals(first.1) + Reals(second.1)
  {
    hide Turn, Reals;
    assert [g, h][1..] == [h] && [h][1..] == [];
    var first := Turn(g, t, r, user, system);
    var second := Turn(h, t, first.0, user, system);
    assert second.1 + [] == second.1;
    assert Dispatched([], t, second.0, user, system) == (second.0, []);
    assert Dispatched([h], t, first.0, user, system) == (second.0, second.1);
    TraceAppend(first.1, second.1);
  }

  lemma OrigFirst(ys: seq<Handler>, t: Event, r: Record, user: Behaviour, system: System)
    ensures var turn := Turn(ORIG, t, r, user, system);
      var late := Dispatched(ys, t, turn.0, user, system);
      t in NATIVE ==> Dispatched([ORIG] + ys, t, r, user, system) == (late.0, turn.1 + late.1)
    ensures t !in NATIVE ==> Dispatched([ORIG] + ys, t, r, user, system) == Dispatched(ys, t, r, user, system)
  {
    hide Turn;
    assert ([ORIG] + ys)[0] == ORIG && ([ORIG] + ys)[1..] == ys;
  }

  lemma OrigTurn(t: Event, r: Record, user: Behaviour, system: System)
    requires t in NATIVE
    ensures Turn(ORIG, t, r, user, system) ==
      if r.result.Invalid? then (r.(result := system(t, r.params)), [Ran(ORIG)] + [Real(r.params)])
      else (r, [Ran(ORIG)] + [])
  {
    assert [Ran(ORIG)] + [Real(r.params)] == [Ran(ORIG), Real(r.params)];
    assert [Ran(ORIG)] + [] == [Ran(ORIG)];
  }

  /** An event that is not native makes no real call. */
  lemma OtherDispatch(list: seq<Handler>, k: nat, t: Event, r: Record, user: Behaviour, system: System)
    requires WellFormed(list, k) && t !in NATIVE
    ensures Reals(Dispatched(list, t, r, user, system).1) == []
  {
    hide Turn, Dispatched, Sorted, Distinct, Runs, Reals;
    var xs, ys := list[..k], list[k + 1..];
    assert list == xs + ([ORIG] + ys);
    DispatchAppend(xs, [ORIG] + ys, t, r, user, system);
    var early := Dispatched(xs, t, r, user, system);
    OrigFirst(ys, t, early.0, user, system);
    assert forall i :: 0 <= i < |ys| ==> ys[i] == list[k + 1 + i];
    UsersMakeNoCall(xs, t, r, user, system);
    UsersMakeNoCall(ys, t, early.0, user, system);
    TraceAppend(early.1, Dispatched(ys, t, early.0, user, system).1);
  }

  /** Callbacks that keep the rule: a valid result is left alone. */
  ghost predicate KeepsValid(user: Behaviour) {
    forall id: nat, arg: nat, t: Event, r: Record {:trigger user(id, arg, t, r)} :: r.result.Valid? ==>
      user(id, arg, t, r).result == r.result
  }

  /** With callbacks that keep the rule, the result reaches the original handler invalid iff no callback set it. */
  lemma {:induction false} InvalidIffUnset(list: seq<Handler>, t: Event, r: Record, user: Behaviour, system: System)
    requires KeepsValid(user) && forall i :: 0 <= i < |list| ==> list[i].cb.User?
    ensures Dispatched(list, t, r, user, system).0.result.Invalid? <==>
      forall i :: 0 <= i <= |list| ==> Dispatched(list[..i], t, r, user, system).0.result.Invalid?
    decreases |list|
  {
    var n := |list|;
    assert list[..n] == list;
    if n > 0 {
      hide Dispatched, Turn;
      var init := list[..n - 1];
      assert forall i :: 0 <= i < |init| ==> init[i] == list[i];
      InvalidIffUnset(init, t, r, user, system);
      assert list == init + [list[n - 1]];
      DispatchAppend(init, [list[n - 1]], t, r, user, system);
      assert forall i :: 0 <= i <= n - 1 ==> init[..i] == list[..i];
      LastTurn(list[n - 1], t, Dispatched(init, t, r, user, system).0, user, system);
    }
  }

  lemma LastTurn(h: Handler, t: Event, r: Record, user: Behaviour, system: System)
    requires KeepsValid(user) && h.cb.User?
    ensures Dispatched([h], t, r, user, system).0.result.Invalid? ==> r.result.Invalid?
  {
    var first := Turn(h, t, r, user, system);
    assert [h][1..] == [];
    assert Dispatched([h][1..], t, first.0, user, system) == (first.0, []);
    assert Dispatched([h][1..], t, r, user, system) == (r, []);
  }

  // ---- the list as it is changed in place ------------------------------------------------------------------

  /** What users can ask for. */
  datatype Op =
    | Add(events: set<Event>, priority: int, id: nat, arg: nat)
    | Remove(stamp: nat)
    | Unset(events: set<Event>, id: nat, arg: nat)

  predicate Matches(h: Handler, id: nat, arg: nat) { h.cb == User(id) && h.arg == arg }

  /** A handler after the events are taken from the matching subscriptions. */
  function Trimmed(h: Handler, events: set<Event>, id: nat, arg: nat): Handler {
    if Matches(h, id, arg) then h.(events := h.events - events) else h
  }

  predicate Survives(h: Handler, events: set<Event>, id: nat, arg: nat) {
    Matches(h, id, arg) ==> h.events - events != {}
  }

  /** The subscriptions after an operation, as a set; `next` is the age of the next one. */
  function Applied(subs: set<Handler>, next: nat, op: Op): set<Handler> {
    match op
    case Add(events, priority, id, arg) => subs + {Handler(events, priority, User(id), arg, next)}
    case Remove(stamp) => set h | h in subs && !(h.stamp == stamp && h.cb.User?)
    case Unset(events, id, arg) =>
      set h | h in subs && Survives(h, events, id, arg) :: Trimmed(h, events, id, arg)
  }

  function AppliedAll(subs: set<Handler>, next: nat, ops: seq<Op>): set<Handler>
    decreases |ops|
  {
    if ops == [] then subs
    else AppliedAll(Applied(subs, next, ops[0]), next + (if ops[0].Add? then 1 else 0), ops[1..])
  }

  function Members(list: seq<Handler>): set<Handler> { set h | h in list }

  lemma SplitMembers(a: seq<Handler>, b: seq<Handler>)
    ensures Members(a + b) == Members(a) + Members(b)
  {
  }

  lemma Inserted(list: seq<Handler>, k: nat, i: nat, h: Handler)
    requires WellFormed(list, k) && i <= |list| && h.cb.User?
    requires forall j :: 0 <= j < |list| ==> list[j].stamp < h.stamp
    requires forall j :: 0 <= j < i ==> list[j].priority <= h.priority
    requires forall j :: i <= j < |list| ==> list[j].priority > h.priority
    ensures var made := list[..i] + [h] + list[i..];
      WellFormed(made, if k < i then k else k + 1) && Members(made) == Members(list) + {h}
  {
    hide Members;
    var made := list[..i] + [h] + list[i..];
    forall a, b | 0 <= a < b < |made| ensures Before(made[a], made[b]) && made[a].stamp != made[b].stamp {
      InsertedPair(list, i, h, a, b);
    }
    InsertedMembers(list, i, h);
  }

  lemma InsertedPair(list: seq<Handler>, i: nat, h: Handler, a: int, b: int)
    requires Sorted(list) && Distinct(list) && i <= |list| && 0 <= a < b <= |list|
    requires forall j :: 0 <= j < |list| ==> list[j].stamp < h.stamp
    requires forall j :: 0 <= j < i ==> list[j].priority <= h.priority
    requires forall j :: i <= j < |list| ==> list[j].priority > h.priority
    ensures var made := list[..i] + [h] + list[i..];
      Before(made[a], made[b]) && made[a].stamp != made[b].stamp
  {
    if a != i && b != i {
      assert Before(list[if a < i then a else a - 1], list[if b < i then b else b - 1]);
    }
  }

  lemma InsertedMembers(list: seq<Handler>, i: nat, h: Handler)
    requires i <= |list|
    ensures Members(list[..i] + [h] + list[i..]) == Members(list) + {h}
  {
    assert list == list[..i] + list[i..];
    SplitMembers(list[..i], list[i..]);
    SplitMembers(list[..i] + [h], list[i..]);
    SplitMembers(list[..i], [h]);
    assert Members([h]) == {h};
  }

  /** Before the first handler of a higher priority is the place for a new one. */
  lemma Placed(list: seq<Handler>, k: nat, i: nat, h: Handler, next: nat)
    requires WellFormed(list, k) && i <= |list| && h.cb.User? && h.stamp == next
    requires forall x :: x in list ==> x.stamp < next
    requires forall j :: 0 <= j < i ==> list[j].priority <= h.priority
    requires i < |list| ==> h.priority < list[i].priority
    ensures var made := list[..i] + [h] + list[i..];
      && WellFormed(made, if k < i then k else k + 1) && Members(made) == Members(list) + {h}
      && forall x :: x in made ==> x.stamp < next + 1
  {
    assert forall j :: 0 <= j < |list| ==> list[j] in list;
    if i < |list| { assert forall j :: i < j < |list| ==> Before(list[i], list[j]); }
    hide WellFormed, Members;
    Inserted(list, k, i, h);
  }

  /** The list without the handler at `i`. */
  lemma Removed(list: seq<Handler>, k: nat, i: nat)
    requires WellFormed(list, k) && i < |list| && i != k
    ensures var made := list[..i] + list[i + 1..];
      WellFormed(made, if k < i then k else k - 1) && Members(made) == Members(list) - {list[i]}
  {
    RemovedOrder(list, i);
    RemovedMembers(list, i);
    hide Members, Sorted, Distinct;
    var made := list[..i] + list[i + 1..];
    assert forall a :: 0 <= a < |made| ==> made[a] == list[if a < i then a else a + 1];
  }

  lemma RemovedOrder(list: seq<Handler>, i: nat)
    requires Sorted(list) && Distinct(list) && i < |list|
    ensures var made := list[..i] + list[i + 1..]; Sorted(made) && Distinct(made)
  {
    var made := list[..i] + list[i + 1..];
    forall a, b | 0 <= a < b < |made| ensures Before(made[a], made[b]) && made[a].stamp != made[b].stamp {
      assert Before(list[if a < i then a else a + 1], list[if b < i then b else b + 1]);
    }
  }

  lemma RemovedMembers(list: seq<Handler>, i: nat)
    requires Distinct(list) && i < |list|
    ensures Members(list[..i] + list[i + 1..]) == Members(list) - {list[i]}
  {
    hide Distinct;
    var a, b := list[..i], list[i + 1..];
    SplitMembers(a, b);
    SplitMembers(a, [list[i]] + b);
    SplitMembers([list[i]], b);
    assert Members([list[i]]) == {list[i]};
    assert list == a + ([list[i]] + b);
    NotElsewhere(list, i);
  }

  lemma NotElsewhere(list: seq<Handler>, i: nat)
    requires Distinct(list) && i < |list|
    ensures list[i] !in Members(list[..i]) + Members(list[i + 1..])
  {
    forall j | 0 <= j < |list| && j != i ensures list[j] != list[i] {
      assert list[if j < i then j else i].stamp != list[if j < i then i else j].stamp;
    }
  }

  /** The list after the events are taken from the matching subscriptions. */
  function Remains(list: seq<Handler>, events: set<Event>, id: nat, arg: nat): seq<Handler> {
    if list == [] then [] else RemainsPart(list[0], events, id, arg) + Remains(list[1..], events, id, arg)
  }

  function RemainsPart(h: Handler, events: set<Event>, id: nat, arg: nat): seq<Handler> {
    if Survives(h, events, id, arg) then [Trimmed(h, events, id, arg)] else []
  }

  lemma {:induction false} RemainsAppend(list: seq<Handler>, h: Handler, events: set<Event>, id: nat, arg: nat)
    ensures Remains(list + [h], events, id, arg) == Remains(list, events, id, arg) + RemainsPart(h, events, id, arg)
    decreases |list|
  {
    hide RemainsPart;
    var all := list + [h];
    if list == [] {
      assert all[1..] == [];
    } else {
      assert all[0] == list[0] && all[1..] == list[1..] + [h];
      RemainsAppend(list[1..], h, events, id, arg);
      Regroup(RemainsPart(list[0], events, id, arg), Remains(list[1..], events, id, arg),
              RemainsPart(h, events, id, arg));
    }
  }

  lemma Regroup(a: seq<Handler>, b: seq<Handler>, c: seq<Handler>)
    ensures a + (b + c) == (a + b) + c
  {
  }

  lemma {:induction false} RemainsMembers(list: seq<Handler>, events: set<Event>, id: nat, arg: nat)
    ensures Members(Remains(list, events, id, arg)) ==
      set h | h in list && Survives(h, events, id, arg) :: Trimmed(h, events, id, arg)
    decreases |list|
  {
    if list != [] {
      RemainsMembers(list[1..], events, id, arg);
      SplitMembers(RemainsPart(list[0], events, id, arg), Remains(list[1..], events, id, arg));
      assert list == [list[0]] + list[1..];
    }
  }

  /** Trimming keeps order, ages and the original handler. */
  lemma {:induction false} RemainsOrder(list: seq<Handler>, events: set<Event>, id: nat, arg: nat)
    requires Sorted(list) && Distinct(list)
    ensures Sorted(Remains(list, events, id, arg)) && Distinct(Remains(list, events, id, arg))
    decreases |list|
  {
    if list != [] {
      var rest, kept := list[1..], Remains(list[1..], events, id, arg);
      assert forall i :: 0 <= i < |rest| ==> rest[i] == list[i + 1];
      RemainsOrder(rest, events, id, arg);
      var first := Trimmed(list[0], events, id, arg);
      forall i | 0 <= i < |kept| ensures Before(first, kept[i]) && first.stamp != kept[i].stamp {
        var j := RemainsFrom(rest, events, id, arg, kept[i]);
        assert Before(list[0], list[j + 1]);
      }
      var all := [first] + kept;
      forall i, j | 0 <= i < j < |all| ensures Before(all[i], all[j]) && all[i].stamp != all[j].stamp {
        if i > 0 { assert Before(kept[i - 1], kept[j - 1]); }
      }
    }
  }

  lemma RemainsFrom(list: seq<Handler>, events: set<Event>, id: nat, arg: nat, h: Handler) returns (j: nat)
    requires h in Remains(list, events, id, arg)
    ensures j < |list| && Survives(list[j], events, id, arg) && h == Trimmed(list[j], events, id, arg)
  {
    RemainsMembers(list, events, id, arg);
    assert h in Members(Remains(list, events, id, arg));
    var y :| y in list && Survives(y, events, id, arg) && h == Trimmed(y, events, id, arg);
    j :| 0 <= j < |list| && list[j] == y;
  }

  lemma RemainsWellFormed(list: seq<Handler>, k: nat, events: set<Event>, id: nat, arg: nat) returns (m: nat)
    requires WellFormed(list, k)
    ensures WellFormed(Remains(list, events, id, arg), m)
  {
    hide Sorted, Remains;
    var kept := Remains(list, events, id, arg);
    RemainsOrder(list, events, id, arg);
    RemainsMembers(list, events, id, arg);
    assert Trimmed(list[k], events, id, arg) == ORIG && Survives(list[k], events, id, arg);
    assert ORIG in Members(kept);
    m :| 0 <= m < |kept| && kept[m] == ORIG;
    forall i | 0 <= i < |kept| && i != m ensures kept[i].cb.User? {
      var j := RemainsFrom(list, events, id, arg, kept[i]);
      assert kept[i].stamp != kept[m].stamp;
    }
  }

  lemma OnlyOrig()
    ensures WellFormed([ORIG], 0) && Members([ORIG]) == {ORIG} && forall h :: h in [ORIG] ==> h.stamp < 1
  {
  }

  /** Replacing or deleting the element after `a`. */
  lemma AfterPart(a: seq<Handler>, was: seq<Handler>, n: nat, x: Handler)
    requires n < |was|
    ensures var all := a + was[n..];
      && |a| < |all| && all[|a|] == was[n] && all == a + [was[n]] + was[n + 1..]
      && all[|a| := x] == a + [x] + was[n + 1..]
      && all[|a| := x][..|a|] + all[|a| := x][|a| + 1..] == a + was[n + 1..]
  {
  }

  lemma RemainsNone(was: seq<Handler>, events: set<Event>, id: nat, arg: nat)
    ensures Remains(was[..0], events, id, arg) == [] && was == Remains(was[..0], events, id, arg) + was[0..]
  {
  }

  lemma UnsetStep(was: seq<Handler>, n: nat, events: set<Event>, id: nat, arg: nat)
    requires n < |was|
    ensures var a, h := Remains(was[..n], events, id, arg), was[n];
      Remains(was[..n + 1], events, id, arg) ==
        if !(h.cb == User(id) && h.arg == arg) then a + [h]
        else if h.events - events == {} then a else a + [h.(events := h.events - events)]
  {
    hide Remains;
    assert was[..n + 1] == was[..n] + [was[n]];
    RemainsAppend(was[..n], was[n], events, id, arg);
    assert Remains(was[..n], events, id, arg) + [] == Remains(was[..n], events, id, arg);
  }

  lemma UnsetDone(was: seq<Handler>, k: nat, events: set<Event>, id: nat, arg: nat, next: nat)
    requires WellFormed(was, k) && forall h :: h in was ==> h.stamp < next
    ensures var made := Remains(was, events, id, arg);
      && (exists m :: WellFormed(made, m)) && (forall h :: h in made ==> h.stamp < next)
      && Members(made) == Applied(Members(was), next, Op.Unset(events, id, arg))
  {
    hide Remains, WellFormed;
    var made := Remains(was, events, id, arg);
    RemainsMembers(was, events, id, arg);
    var m := RemainsWellFormed(was, k, events, id, arg);
    forall h | h in made ensures h.stamp < next {
      var j := RemainsFrom(was, events, id, arg, h);
      assert was[j] in was;
    }
  }

  class HandlerList {
    var list: seq<Handler>
    var next: nat

    ghost predicate Valid()
      reads this
    {
      (exists k :: WellFormed(list, k)) && forall h :: h in list ==> h.stamp < next
    }

    constructor ()
      ensures Valid() && Members(list) == {ORIG} && next == 1
    {
      list, next := [ORIG], 1;
      OnlyOrig();
    }

    /** Inserts before the first handler of a higher priority. */
    method HandlerAdd(events: set<Event>, priority: int, id: nat, arg: nat)
      requires Valid()
      modifies this
      ensures Valid() && next == old(next) + 1
      ensures Members(list) == Applied(Members(old(list)), old(next), Op.Add(events, priority, id, arg))
    {
      hide WellFormed, Members;
      ghost var k: nat :| WellFormed(list, k);
      var h := Handler(events, priority, User(id), arg, next);
      var i := 0;
      while i < |list| && !(h.priority < list[i].priority)
        invariant 0 <= i <= |list|
        invariant forall j :: 0 <= j < i ==> list[j].priority <= h.priority
      {
        i := i + 1;
      }
      Placed(list, k, i, h, next);
      list := list[..i] + [h] + list[i..];
      next := next + 1;
      assert WellFormed(list, if k < i then k else k + 1);
    }

    /** Unlinks a handler, which its user owns; an entry that is not listed is left alone. */
    method HandlerRemove(stamp: nat)
      requires Valid()
      modifies this`list
      ensures Valid() && Members(list) == Applied(Members(old(list)), next, Op.Remove(stamp))
    {
      ghost var k: nat :| WellFormed(list, k);
      var i := 0;
      while i < |list| && !(list[i].stamp == stamp && list[i].cb.User?)
        invariant 0 <= i <= |list|
        invariant forall j :: 0 <= j < i ==> !(list[j].stamp == stamp && list[j].cb.User?)
      {
        i := i + 1;
      }
      if i < |list| {
        Removed(list, k, i);
        assert forall h :: h in list && h.stamp == stamp && h.cb.User? ==> h == list[i];
        list := list[..i] + list[i + 1..];
      }
    }

    /** Takes `events` from every subscription of the callback with that argument, and drops the emptied ones. */
    method UnsetEventHandler(events: set<Event>, id: nat, arg: nat)
      requires Valid()
      modifies this`list
      ensures Valid() && Members(list) == Applied(Members(old(list)), next, Op.Unset(events, id, arg))
    {
      hide Remains, WellFormed, Members, Survives, Trimmed;
      ghost var k: nat :| WellFormed(list, k);
      ghost var was := list;
      ghost var n := 0;
      RemainsNone(was, events, id, arg);
      var i := 0;
      while i < |list|
        invariant n <= |was| && i == |Remains(was[..n], events, id, arg)|
        invariant list == Remains(was[..n], events, id, arg) + was[n..]
        decreases |was| - n
      {
        UnsetStep(was, n, events, id, arg);
        AfterPart(Remains(was[..n], events, id, arg), was, n, was[n].(events := was[n].events - events));
        if list[i].cb == User(id) && list[i].arg == arg {
          list := list[i := list[i].(events := list[i].events - events)];
          if list[i].events == {} {
            list := list[..i] + list[i + 1..];
          } else {
            i := i + 1;
          }
        } else {
          i := i + 1;
        }
        n := n + 1;
      }
      assert was[..n] == was && was[n..] == [] && list == Remains(was, events, id, arg);
      UnsetDone(was, k, events, id, arg, next);
    }

    /**
     * Any sequence of operations by users: the list holds exactly the subscriptions they leave, in order of
     * priority and age, with the original handler among them. That determines the list.
     */
    method Run(ops: seq<Op>)
      requires Valid()
      modifies this
      ensures Valid() && Members(list) == AppliedAll(Members(old(list)), old(next), ops)
      decreases |ops|
    {
      if ops != [] {
        match ops[0] {
          case Add(events, priority, id, arg) => HandlerAdd(events, priority, id, arg);
          case Remove(stamp) => HandlerRemove(stamp);
          case Unset(events, id, arg) => UnsetEventHandler(events, id, arg);
        }
        assert Members(list) == Applied(Members(old(list)), old(next), ops[0]);
        assert next == old(next) + if ops[0].Add? then 1 else 0;
        Run(ops[1..]);
      }
    }

    /** Calls every subscribed handler in list order. */
    method Dispatch(t: Event, r: Record, user: Behaviour, system: System) returns (out: Record, trace: seq<Call>)
      ensures (out, trace) == Dispatched(list, t, r, user, system)
    {
      hide Dispatched, Turn;
      out, trace := r, [];
      NoneDispatched(list[..0], t, r, user, system);
      for i := 0 to |list|
        invariant (out, trace) == Dispatched(list[..i], t, r, user, system)
      {
        assert list[..i + 1] == list[..i] + [list[i]];
        DispatchAppend(list[..i], [list[i]], t, r, user, system);
        OneDispatched(list[i], t, out, user, system);
        if t in list[i].events {
          var turn := Turn(list[i], t, out, user, system);
          out, trace := turn.0, trace + turn.1;
        } else {
          assert trace + [] == trace;
        }
      }
      assert list[..|list|] == list;
    }
  }

  lemma NoneDispatched(none: seq<Handler>, t: Event, r: Record, user: Behaviour, system: System)
    requires none == []
    ensures Dispatched(none, t, r, user, system) == (r, [])
  {
  }

  lemma OneDispatched(h: Handler, t: Event, r: Record, user: Behaviour, system: System)
    ensures Dispatched([h], t, r, user, system) ==
      if t in h.events then Turn(h, t, r, user, system) else (r, [])
  {
    var turn := Turn(h, t, r, user, system);
    assert [h][1..] == [];
    assert Dispatched([], t, turn.0, user, system) == (turn.0, []);
    assert turn.1 + [] == turn.1;
  }
}
