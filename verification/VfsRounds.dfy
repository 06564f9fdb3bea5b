/** The entries of the VFS daemon, what a turn of its loop makes of them, and what whole runs gain and lose. */
module VfsRounds {
  const MAX_FDS := 1024
  const NONE := -1

  datatype State = Listening | Accepted | Mounted | FdSent | Closed
  datatype FdState = FdState(state: State, pid: int, fuseFd: int)
  datatype Events = Events(input: bool, output: bool)
  datatype PollFd = PollFd(fd: int, events: Events, revents: Events)

  const QUIET := Events(false, false)

  /** One entry of the two arrays; `id` numbers entries in the order in which they were added. */
  datatype Row = Row(st: FdState, poll: PollFd, id: nat)

  datatype Action = Stop | Mount | Nop | OtherAction

  /** What the system answers when an entry is served: an accept, its options, a message, a mount and a send. */
  datatype Reply = Reply(
    connFd: int, passCred: int, setFlags: int, received: int, action: Action, pid: int, fuseFd: int, sent: int)

  datatype PollResult = Ready | Interrupted | Failed

  /** One turn of the loop: how polling ended, whether a signal asked to stop, the events and the replies. */
  datatype Round = Round(polled: PollResult, signal: bool, revents: nat -> Events, replies: nat -> Reply)

  // ---- what entries own ------------------------------------------------------------------------------------

  predicate OwnsConn(r: Row) { r.st.state in {Accepted, Mounted, FdSent} }
  predicate OwnsMount(r: Row) { r.st.state in {Mounted, FdSent} }

  function ConnOf(r: Row): multiset<int> { if OwnsConn(r) then multiset{r.poll.fd} else multiset{} }
  function FuseOf(r: Row): multiset<int> { if OwnsMount(r) then multiset{r.st.fuseFd} else multiset{} }
  function PidOf(r: Row): multiset<int> { if OwnsMount(r) then multiset{r.st.pid} else multiset{} }

  /** What descriptors, mounts and processes a list of entries still owns. */
  datatype Owned = Owned(conns: multiset<int>, fuses: multiset<int>, pids: multiset<int>)

  function Plus(a: Owned, b: Owned): Owned { Owned(a.conns + b.conns, a.fuses + b.fuses, a.pids + b.pids) }

  const NOTHING := Owned(multiset{}, multiset{}, multiset{})

  function OwnedBy(r: Row): Owned { Owned(ConnOf(r), FuseOf(r), PidOf(r)) }

  /** A connection on its own. */
  function Conn(fd: int): Owned { Owned(multiset{fd}, multiset{}, multiset{}) }

  function OwnedByAll(rows: seq<Row>): Owned {
    if rows == [] then NOTHING else Plus(OwnedBy(rows[0]), OwnedByAll(rows[1..]))
  }

  lemma PlusLaws(a: Owned, b: Owned, c: Owned)
    ensures Plus(a, b) == Plus(b, a) && Plus(Plus(a, b), c) == Plus(a, Plus(b, c)) && Plus(NOTHING, a) == a
  {
    assert Plus(a, b).conns == Plus(b, a).conns;
    assert Plus(Plus(a, b), c).conns == Plus(a, Plus(b, c)).conns;
    assert Plus(NOTHING, a).conns == a.conns;
  }

  lemma {:induction false} OwnedAppend(a: seq<Row>, b: seq<Row>)
    ensures OwnedByAll(a + b) == Plus(OwnedByAll(a), OwnedByAll(b))
  {
    hide Plus, OwnedBy;
    if a == [] {
      assert a + b == b;
      PlusLaws(OwnedByAll(b), NOTHING, NOTHING);
    } else {
      var c := a + b;
      assert c[0] == a[0] && c[1..] == a[1..] + b;
      OwnedAppend(a[1..], b);
      PlusLaws(OwnedBy(a[0]), OwnedByAll(a[1..]), OwnedByAll(b));
    }
  }

  lemma OwnedOne(r: Row)
    ensures OwnedByAll([r]) == OwnedBy(r)
  {
    hide Plus, OwnedBy;
    assert [r][1..] == [];
    PlusLaws(OwnedBy(r), NOTHING, NOTHING);
  }

  /** An entry polls for output exactly while its mount is not yet sent, and for input while it is open. */
  predicate RowOk(r: Row) {
    && r.poll.events.output == (r.st.state == Mounted)
    && r.poll.events.input == (r.st.state != Closed)
    && (r.st.state == Closed ==> r.poll.revents == QUIET)
  }

  ghost predicate RowsOk(rows: seq<Row>) { forall i :: 0 <= i < |rows| ==> RowOk(rows[i]) }

  ghost predicate AllOpen(rows: seq<Row>) { forall i :: 0 <= i < |rows| ==> rows[i].st.state != Closed }

  /** Entries are in the order in which they were added. */
  ghost predicate InOrder(rows: seq<Row>, next: nat) {
    && (forall i, j :: 0 <= i < j < |rows| ==> rows[i].id < rows[j].id)
    && forall i :: 0 <= i < |rows| ==> rows[i].id < next
  }

  // ---- serving one entry -----------------------------------------------------------------------------------

  function ClosedRow(id: nat): Row { Row(FdState(Closed, NONE, NONE), PollFd(NONE, QUIET, QUIET), id) }

  function AcceptedRow(fd: int, id: nat): Row {
    Row(FdState(Accepted, NONE, NONE), PollFd(fd, Events(true, false), QUIET), id)
  }

  /** An entry after it is readable. */
  function AfterInput(r: Row, a: Reply): Row {
    match r.st.state
    case Listening => r
    case Accepted =>
      if a.received < 0 then ClosedRow(r.id)
      else if a.action == Stop then r
      else if a.action == Mount && a.pid >= 0 && a.fuseFd >= 0 then
        Row(FdState(Mounted, a.pid, a.fuseFd), r.poll.(events := Events(r.poll.events.input, true)), r.id)
      else ClosedRow(r.id)
    case _ => ClosedRow(r.id)
  }

  /** An entry after it is writable: the mounted file system's descriptor is sent once. */
  function AfterOutput(r: Row, a: Reply): Row {
    if r.st.state != Mounted || a.sent < 0 then ClosedRow(r.id)
    else Row(r.st.(state := FdSent), r.poll.(events := Events(r.poll.events.input, false)), r.id)
  }

  /** An entry after its events of this round. */
  function Served(r: Row, a: Reply): Row {
    var r1 := if r.poll.revents.input then AfterInput(r, a) else r;
    if r1.poll.revents.output then AfterOutput(r1, a) else r1
  }

  /** A readable listening entry accepts a connection whose credentials can be asked for. */
  predicate Accepts(r: Row, a: Reply) {
    r.st.state == Listening && r.poll.revents.input && a.connFd >= 0 && a.passCred >= 0
  }

  /** The connection becomes an entry, */
  predicate Brings(r: Row, a: Reply) { Accepts(r, a) && a.setFlags >= 0 }

  /** or it refuses to become non-blocking; then no entry holds it, and no one closes it. */
  predicate Loses(r: Row, a: Reply) { Accepts(r, a) && a.setFlags < 0 }

  function LostBy(r: Row, a: Reply): Owned { if Loses(r, a) then Conn(a.connFd) else NOTHING }

  /** What a readable entry gains: the connection that was accepted, or the mount with its process. */
  function InputGain(r: Row, a: Reply): Owned {
    if r.st.state == Listening && a.connFd >= 0 then Conn(a.connFd)
    else if r.st.state == Accepted && a.received >= 0 && a.action == Mount && a.pid >= 0 && a.fuseFd >= 0 then
      Owned(multiset{}, multiset{a.fuseFd}, multiset{a.pid})
    else NOTHING
  }

  function GainOf(r: Row, a: Reply): Owned { if r.poll.revents.input then InputGain(r, a) else NOTHING }

  /** A client asks the daemon to stop. */
  predicate Asks(r: Row, a: Reply) {
    r.st.state == Accepted && r.poll.revents.input && a.received >= 0 && a.action == Stop
  }

  lemma ServedOk(r: Row, a: Reply)
    requires RowOk(r) && r.st.state != Closed
    ensures RowOk(Served(r, a)) && Served(r, a).id == r.id
    ensures r.st.state == Accepted && r.poll.revents == QUIET ==> Served(r, a) == r
  {
  }

  /** The entries that are still open after the round, in their order. */
  function Remaining(rows: seq<Row>, round: Round): seq<Row> {
    if rows == [] then []
    else
      var n := |rows| - 1;
      var r := Served(rows[n], round.replies(n));
      Remaining(rows[..n], round) + if r.st.state == Closed then [] else [r]
  }

  function Polled(rows: seq<Row>, round: Round): (out: seq<Row>)
    ensures |out| == |rows|
    ensures forall i :: 0 <= i < |rows| ==> out[i] == rows[i].(poll := rows[i].poll.(revents := round.revents(i)))
  {
    if rows == [] then []
    else
      var n := |rows| - 1;
      Polled(rows[..n], round) + [rows[n].(poll := rows[n].poll.(revents := round.revents(n)))]
  }

  lemma NonePolled(rows: seq<Row>, round: Round)
    ensures rows == Polled(rows[..0], round) + rows[0..]
  {
  }

  lemma PolledStep(rows: seq<Row>, i: nat, round: Round)
    requires i < |rows|
    ensures var was, x := Polled(rows[..i], round) + rows[i..],
        rows[i].(poll := rows[i].poll.(revents := round.revents(i)));
      was[i] == rows[i] && was[i := x] == Polled(rows[..i + 1], round) + rows[i + 1..]
  {
    assert rows[..i + 1][..i] == rows[..i];
  }

  lemma ClosedOwnsNothing(id: nat)
    ensures OwnedBy(ClosedRow(id)) == NOTHING
  {
  }

  /** Giving back what an entry owned keeps the balance. */
  lemma GivenBack(gained: Owned, given: Owned, own: Owned, rest: Owned)
    requires gained == Plus(given, Plus(own, rest))
    ensures gained == Plus(Plus(given, own), Plus(NOTHING, rest))
  {
    hide Plus;
    PlusLaws(given, own, rest);
    PlusLaws(rest, NOTHING, NOTHING);
  }

  lemma MountGained(gained: Owned, given: Owned, own: Owned, rest: Owned, fuse: int, pid: int)
    requires gained == Plus(given, Plus(own, rest))
    ensures var g := gained.(fuses := gained.fuses + multiset{fuse}, pids := gained.pids + multiset{pid});
      var o := own.(fuses := own.fuses + multiset{fuse}, pids := own.pids + multiset{pid});
      g == Plus(given, Plus(o, rest))
  {
  }

  lemma MountAdds(gained: Owned, fuse: int, pid: int)
    ensures Plus(gained, Owned(multiset{}, multiset{fuse}, multiset{pid})) ==
      gained.(fuses := gained.fuses + multiset{fuse}, pids := gained.pids + multiset{pid})
  {
    assert gained.conns + multiset{} == gained.conns;
  }

  lemma MountOwned(r: Row, made: Row, fuse: int, pid: int)
    requires r.st.state == Accepted && made.st == FdState(Mounted, pid, fuse) && made.poll.fd == r.poll.fd
    ensures var own := OwnedBy(r);
      OwnedBy(made) == own.(fuses := own.fuses + multiset{fuse}, pids := own.pids + multiset{pid})
  {
    assert multiset{} + multiset{fuse} == multiset{fuse};
  }

  /** A connection is accepted: it is closed at once, becomes an entry, or is lost. */
  lemma ConnGained(gained: Owned, given: Owned, own: Owned, rest: Owned, c: Owned, made: Owned, lost: Owned)
    requires gained == Plus(given, Plus(own, rest))
    ensures Plus(gained, c) == Plus(Plus(given, c), Plus(own, rest))
    ensures c == Plus(made, lost) ==> Plus(gained, c) == Plus(given, Plus(own, Plus(rest, Plus(made, lost))))
  {
    hide Plus;
    PlusLaws(given, Plus(own, rest), c);
    PlusLaws(given, c, Plus(own, rest));
    PlusLaws(Plus(own, rest), c, NOTHING);
    PlusLaws(own, rest, c);
  }

  lemma NoneGained(rest: Owned, none: seq<Row>)
    requires none == []
    ensures Plus(rest, Plus(OwnedByAll(none), NOTHING)) == rest
  {
    hide Plus;
    PlusLaws(NOTHING, NOTHING, NOTHING);
    PlusLaws(rest, NOTHING, NOTHING);
  }

  lemma ConnOwned(fd: int, id: nat)
    ensures OwnedByAll([AcceptedRow(fd, id)]) == Conn(fd) && Plus(Conn(fd), NOTHING) == Conn(fd)
    ensures Plus(OwnedByAll([]), Conn(fd)) == Conn(fd)
  {
    OwnedOne(AcceptedRow(fd, id));
    PlusLaws(NOTHING, Conn(fd), NOTHING);
  }

  // ---- a round on the list of entries ------------------------------------------------------------------------

  function Open(r: Row): seq<Row> { if r.st.state == Closed then [] else [r] }

  lemma OwnedMiddle(a: seq<Row>, r: Row, b: seq<Row>)
    ensures OwnedByAll(a + [r] + b) == Plus(OwnedBy(r), OwnedByAll(a + b))
  {
    hide Plus, OwnedBy;
    OwnedAppend(a + [r], b);
    OwnedAppend(a, [r]);
    OwnedOne(r);
    OwnedAppend(a, b);
    PlusLaws(OwnedByAll(a), OwnedBy(r), OwnedByAll(b));
    PlusLaws(OwnedBy(r), OwnedByAll(a), OwnedByAll(b));
  }

  /** After an entry was served and maybe another appended, the list owns what the parts own. */
  lemma OwnedServed(a: seq<Row>, r: Row, b: seq<Row>, more: seq<Row>)
    requires r.st.state == Closed ==> OwnedBy(r) == NOTHING
    ensures OwnedByAll(a + Open(r) + (b + more)) == Plus(OwnedBy(r), Plus(OwnedByAll(a + b), OwnedByAll(more)))
  {
    hide Plus, OwnedBy;
    var ab := OwnedByAll(a + b);
    if r.st.state == Closed {
      assert a + Open(r) + (b + more) == a + b + more;
      OwnedAppend(a + b, more);
      PlusLaws(Plus(ab, OwnedByAll(more)), NOTHING, NOTHING);
    } else {
      assert a + Open(r) + (b + more) == a + [r] + b + more;
      OwnedAppend(a + [r] + b, more);
      OwnedMiddle(a, r, b);
      PlusLaws(OwnedBy(r), ab, OwnedByAll(more));
    }
  }

  lemma ClosedNothing(r: Row)
    requires r.st.state == Closed
    ensures OwnedBy(r) == NOTHING
  {
  }

  /** A list of entries as the loop keeps it between rounds. */
  ghost predicate ListOk(list: seq<Row>, next: nat) { RowsOk(list) && AllOpen(list) && InOrder(list, next) }

  /** Serving the entry between `a` and `b` keeps the list in order; new entries come last. */
  lemma ListServed(a: seq<Row>, r: Row, b: seq<Row>, s: Row, more: seq<Row>, next: nat)
    requires ListOk(a + [r] + b, next) && RowOk(s) && s.id == r.id
    requires more == [] || (exists fd :: more == [AcceptedRow(fd, next)])
    ensures ListOk(a + Open(s) + (b + more), next + |more|)
  {
    var was, now := a + [r] + b, a + Open(s) + (b + more);
    var k := |a|;
    assert was[k] == r;
    forall i | 0 <= i < |now|
      ensures RowOk(now[i]) && now[i].st.state != Closed && now[i].id < next + |more|
    {
      ServedAt(a, r, b, s, more, i);
    }
    forall i, j | 0 <= i < j < |now| ensures now[i].id < now[j].id {
      ServedAt(a, r, b, s, more, i);
      ServedAt(a, r, b, s, more, j);
    }
  }

  /** Where an entry of the new list comes from. */
  lemma ServedAt(a: seq<Row>, r: Row, b: seq<Row>, s: Row, more: seq<Row>, i: nat)
    requires i < |a + Open(s) + (b + more)|
    ensures var was, now := a + [r] + b, a + Open(s) + (b + more);
      var shift := 1 - |Open(s)|;
      if i < |a| then now[i] == was[i] == a[i]
      else if i < |a| + |Open(s)| then now[i] == s && was[i] == r
      else if i < |a| + |Open(s)| + |b| then now[i] == was[i + shift]
      else now[i] == more[i - |a| - |Open(s)| - |b|]
  {
  }

  /** What the scan has put in place when it is at `idx`. */
  function Done(was: seq<Row>, more: seq<Row>, idx: nat, round: Round): seq<Row>
    requires idx <= |was| + |more|
  {
    if idx <= |was| then Remaining(was[..idx], round) else Remaining(was, round) + more[..idx - |was|]
  }

  /** An entry that was accepted during the scan. */
  predicate Newcomer(r: Row) { r.st.state == Accepted && r.poll.revents == QUIET }

  lemma DoneStep(was: seq<Row>, more: seq<Row>, made: seq<Row>, idx: nat, round: Round)
    requires idx < |was| + |more|
    requires var r := (was + more)[idx]; RowOk(r) && r.st.state != Closed && (idx >= |was| ==> Newcomer(r))
    ensures Done(was, more + made, idx + 1, round) ==
      Done(was, more, idx, round) + Open(Served((was + more)[idx], round.replies(idx)))
  {
    var r := (was + more)[idx];
    if idx < |was| {
      assert was[..idx + 1][..idx] == was[..idx];
    } else {
      hide Remaining, Served;
      ServedOk(r, round.replies(idx));
      assert was[..|was|] == was;
      assert (more + made)[..idx + 1 - |was|] == more[..idx - |was|] + [r];
      assert more[..0] == [] && Remaining(was, round) + [] == Remaining(was, round);
    }
  }

  lemma DoneAll(was: seq<Row>, more: seq<Row>, round: Round)
    ensures Done(was, more, |was| + |more|, round) == Remaining(was, round) + more
  {
    assert was[..|was|] == was && more[..|more|] == more && Remaining(was, round) + [] == Remaining(was, round);
  }

  lemma DoneNone(was: seq<Row>, round: Round)
    ensures Done(was, [], 0, round) == []
  {
  }

  /** The scan at `idx`: what is in place, what is to come, and the list they form. */
  ghost predicate ScanInv(
    rows: seq<Row>, valid: nat, idx: nat, n: nat, was: seq<Row>, more: seq<Row>, round: Round, next: nat
  ) {
    && valid <= idx <= n <= |rows| && n == |was| + |more|
    && rows[idx..n] == (was + more)[idx..] && rows[..valid] == Done(was, more, idx, round)
    && ListOk(rows[..valid] + rows[idx..n], next)
    && forall i :: 0 <= i < |more| ==> Newcomer(more[i])
  }

  /** The table and its length after the entry at `idx` is served and compacted. */
  function Brought(rows: seq<Row>, idx: nat, n: nat, round: Round, next: nat): seq<Row>
    requires idx < n <= |rows|
  {
    var a := round.replies(idx);
    if Brings(rows[idx], a) && n < |rows| then [AcceptedRow(a.connFd, next)] else []
  }

  function TableAfter(rows: seq<Row>, idx: nat, n: nat, round: Round, next: nat): (out: seq<Row>)
    requires idx < n <= |rows|
    ensures |out| == |rows|
  {
    var served := rows[idx := Served(rows[idx], round.replies(idx))];
    var made := Brought(rows, idx, n, round, next);
    if made == [] then served else served[n := made[0]]
  }

  function CompactAfter(rows: seq<Row>, valid: nat, idx: nat): (out: seq<Row>)
    requires valid <= idx < |rows|
    ensures |out| == |rows|
  {
    if rows[idx].st.state == Closed then rows else rows[valid := rows[idx]]
  }

  lemma TableParts(rows: seq<Row>, valid: nat, idx: nat, n: nat, round: Round, next: nat)
    requires valid <= idx < n <= |rows|
    ensures var now, made := TableAfter(rows, idx, n, round, next), Brought(rows, idx, n, round, next);
      var n1 := n + |made|;
      && n1 <= |rows| && now[..valid] == rows[..valid] && now[idx] == Served(rows[idx], round.replies(idx))
      && now[idx + 1..n1] == rows[idx + 1..n] + made && now[n..n1] == made
  {
    hide Served, Brings;
  }

  lemma CompactParts(rows: seq<Row>, valid: nat, idx: nat, n: nat)
    requires valid <= idx < n <= |rows|
    ensures var now := CompactAfter(rows, valid, idx);
      var valid1 := valid + |Open(rows[idx])|;
      now[..valid1] == rows[..valid] + Open(rows[idx]) && now[idx + 1..n] == rows[idx + 1..n]
  {
  }

  lemma Around(rows: seq<Row>, valid: nat, idx: nat, n: nat)
    requires valid <= idx < n <= |rows|
    ensures rows[..valid] + rows[idx..n] == rows[..valid] + [rows[idx]] + rows[idx + 1..n]
  {
  }

  lemma MiddleOk(a: seq<Row>, r: Row, b: seq<Row>, next: nat)
    requires ListOk(a + [r] + b, next)
    ensures RowOk(r) && r.st.state != Closed
  {
    assert (a + [r] + b)[|a|] == r;
  }

  /** One step of the scan. */
  lemma ScanStep(rows: seq<Row>, valid: nat, idx: nat, n: nat, was: seq<Row>, more: seq<Row>, round: Round, next: nat)
    requires ScanInv(rows, valid, idx, n, was, more, round, next) && idx < n
    ensures var made := Brought(rows, idx, n, round, next);
      var served := TableAfter(rows, idx, n, round, next);
      var now := CompactAfter(served, valid, idx);
      var valid1, n1 := valid + |Open(served[idx])|, n + |made|;
      && ScanInv(now, valid1, idx + 1, n1, was, more + made, round, next + |made|)
      && now[..valid1] + now[idx + 1..n1] == rows[..valid] + Open(served[idx]) + (rows[idx + 1..n] + made)
  {
    hide ListOk, Done, Served, TableAfter, CompactAfter, Brings, RowOk;
    var a := round.replies(idx);
    var r, made, served := rows[idx], Brought(rows, idx, n, round, next), TableAfter(rows, idx, n, round, next);
    var n1 := n + |made|;
    Around(rows, valid, idx, n);
    MiddleOk(rows[..valid], r, rows[idx + 1..n], next);
    TableParts(rows, valid, idx, n, round, next);
    CompactParts(served, valid, idx, n1);
    assert rows[idx..n][0] == (was + more)[idx..][0];
    assert r == (was + more)[idx];
    NewcomerServed(was, more, idx, r, a);
    DoneStep(was, more, made, idx, round);
    ServedOk(r, a);
    ListServed(rows[..valid], r, rows[idx + 1..n], served[idx], made, next);
    assert rows[idx + 1..n] == (was + more)[idx + 1..] by {
      assert rows[idx + 1..n] == rows[idx..n][1..] && (was + more)[idx + 1..] == (was + more)[idx..][1..];
    }
    assert (was + (more + made))[idx + 1..] == (was + more)[idx + 1..] + made;
  }

  /** The connections that the first `i` entries bring. */
  function Arrivals(was: seq<Row>, round: Round, i: nat, next: nat): seq<Row>
    requires i <= |was|
  {
    if i == 0 then []
    else
      var before, a := Arrivals(was, round, i - 1, next), round.replies(i - 1);
      if Brings(was[i - 1], a) then before + [AcceptedRow(a.connFd, next + |before|)] else before
  }

  /** The connections that the first `i` entries lose. */
  function Losses(was: seq<Row>, round: Round, i: nat): Owned
    requires i <= |was|
  {
    if i == 0 then NOTHING else Plus(Losses(was, round, i - 1), LostBy(was[i - 1], round.replies(i - 1)))
  }

  /** What the first `i` entries gain. */
  function Gains(was: seq<Row>, round: Round, i: nat): Owned
    requires i <= |was|
  {
    if i == 0 then NOTHING else Plus(Gains(was, round, i - 1), GainOf(was[i - 1], round.replies(i - 1)))
  }

  /** More connections come than the table has room for. */
  predicate Crowded(was: seq<Row>, round: Round) { |was| + |Arrivals(was, round, |was|, 0)| > MAX_FDS }

  lemma {:induction false} ArrivalsGrow(was: seq<Row>, round: Round, i: nat, j: nat, next: nat)
    requires i <= j <= |was|
    ensures |Arrivals(was, round, i, next)| <= |Arrivals(was, round, j, next)| == |Arrivals(was, round, j, 0)|
    decreases j
  {
    hide Brings;
    if i < j {
      ArrivalsGrow(was, round, i, j - 1, next);
    } else if j > 0 {
      ArrivalsGrow(was, round, j - 1, j - 1, next);
    }
  }

  ghost predicate StopAsked(was: seq<Row>, round: Round, i: nat)
    requires i <= |was|
  {
    exists j :: 0 <= j < i && Asks(was[j], round.replies(j))
  }

  /** What the scan at `idx` has accepted and lost, and whether it was asked to stop. */
  ghost predicate Noted(
    was: seq<Row>, more: seq<Row>, idx: nat, round: Round, next0: nat, next: nat, lost0: Owned, lost: Owned,
    gained0: Owned, gained: Owned, stop0: bool, stop: bool
  ) {
    var k := if idx < |was| then idx else |was|;
    && more == Arrivals(was, round, k, next0) && next == next0 + |more|
    && lost == Plus(lost0, Losses(was, round, k)) && gained == Plus(gained0, Gains(was, round, k))
    && (stop <==> stop0 || StopAsked(was, round, k))
  }

  lemma NotedStep(
    rows: seq<Row>, valid: nat, idx: nat, n: nat, was: seq<Row>, more: seq<Row>, round: Round, next0: nat, next: nat,
    lost0: Owned, lost: Owned, gained0: Owned, gained: Owned, stop0: bool, stop: bool
  )
    requires ScanInv(rows, valid, idx, n, was, more, round, next) && idx < n && |rows| == MAX_FDS
    requires Noted(was, more, idx, round, next0, next, lost0, lost, gained0, gained, stop0, stop)
    ensures var made, a := Brought(rows, idx, n, round, next), round.replies(idx);
      if Brings(rows[idx], a) && n == MAX_FDS then Crowded(was, round)
      else
        Noted(was, more + made, idx + 1, round, next0, next + |made|, lost0, Plus(lost, LostBy(rows[idx], a)),
              gained0, Plus(gained, GainOf(rows[idx], a)), stop0, stop || Asks(rows[idx], a))
  {
    hide ListOk, Done, Brings, Loses, Plus, Asks, InputGain;
    var a := round.replies(idx);
    assert rows[idx..n][0] == (was + more)[idx..][0];
    NewcomerServed(was, more, idx, rows[idx], a);
    if idx < |was| {
      assert rows[idx] == was[idx];
      PlusLaws(lost0, Losses(was, round, idx), LostBy(rows[idx], a));
      PlusLaws(gained0, Gains(was, round, idx), GainOf(rows[idx], a));
      ArrivalsGrow(was, round, idx + 1, |was|, next0);
    } else {
      assert more + [] == more;
      PlusLaws(lost, NOTHING, NOTHING);
      PlusLaws(gained, NOTHING, NOTHING);
    }
  }

  lemma NotedNone(was: seq<Row>, round: Round, next: nat, lost: Owned, gained: Owned, stop: bool)
    ensures Noted(was, [], 0, round, next, next, lost, lost, gained, gained, stop, stop)
  {
    hide Plus;
    PlusLaws(lost, NOTHING, NOTHING);
    PlusLaws(gained, NOTHING, NOTHING);
  }

  lemma NotedAll(
    was: seq<Row>, more: seq<Row>, n: nat, round: Round, next0: nat, next: nat, lost0: Owned, lost: Owned,
    gained0: Owned, gained: Owned, stop0: bool, stop: bool
  )
    requires Noted(was, more, n, round, next0, next, lost0, lost, gained0, gained, stop0, stop)
    requires n == |was| + |more| && n <= MAX_FDS
    ensures more == Arrivals(was, round, |was|, next0) && next == next0 + |more|
    ensures lost == Plus(lost0, Losses(was, round, |was|)) && !Crowded(was, round)
    ensures gained == Plus(gained0, Gains(was, round, |was|))
    ensures stop <==> stop0 || StopAsked(was, round, |was|)
  {
    hide Plus;
    ArrivalsGrow(was, round, |was|, |was|, next0);
  }

  lemma NewcomerServed(was: seq<Row>, more: seq<Row>, idx: nat, r: Row, a: Reply)
    requires idx < |was| + |more| && r == (was + more)[idx]
    requires forall i :: 0 <= i < |more| ==> Newcomer(more[i])
    ensures idx >= |was| ==> Newcomer(r) && !Brings(r, a) && !Loses(r, a) && !Asks(r, a) && GainOf(r, a) == NOTHING
  {
    if idx >= |was| { assert r == more[idx - |was|]; }
  }

  /** What giving an entry back adds, part by part. */
  lemma OwnedParts(given: Owned, r: Row)
    ensures Plus(given, OwnedBy(r)) ==
      if r.st.state == Mounted || r.st.state == FdSent then
        Owned(given.conns + multiset{r.poll.fd}, given.fuses + multiset{r.st.fuseFd}, given.pids + multiset{r.st.pid})
      else if r.st.state == Accepted then given.(conns := given.conns + multiset{r.poll.fd})
      else given
  {
    assert given.conns + multiset{} == given.conns;
    assert given.fuses + multiset{} == given.fuses && given.pids + multiset{} == given.pids;
  }

  // ---- whole runs ------------------------------------------------------------------------------------------

  datatype End = Stopped | Failing | Going | Overrun

  /** How a run ends, the entries it is left with, and what it gained and lost. */
  datatype Fate = Fate(end: End, list: seq<Row>, gained: Owned, lost: Owned)

  function FirstList(listenFd: int, setFlags: int): seq<Row> {
    if setFlags < 0 then []
    else [Row(FdState(Listening, NONE, NONE), PollFd(listenFd, Events(true, false), QUIET), 0)]
  }

  /** The entries after a turn whose polling succeeded. */
  function NextList(list: seq<Row>, next: nat, round: Round): seq<Row> {
    var was := Polled(list, round);
    Remaining(was, round) + Arrivals(was, round, |was|, next)
  }

  ghost predicate Stops(list: seq<Row>, round: Round) {
    round.signal || (round.polled == Ready && StopAsked(Polled(list, round), round, |list|))
  }

  /** The run of the loop from a list of entries. */
  ghost function RunOf(list: seq<Row>, next: nat, rounds: seq<Round>): Fate
    decreases |rounds|
  {
    if rounds == [] then Fate(Going, list, NOTHING, NOTHING)
    else
      var round, was := rounds[0], Polled(list, rounds[0]);
      if round.polled == Failed then Fate(Failing, list, NOTHING, NOTHING)
      else if round.polled == Ready && Crowded(was, round) then Fate(Overrun, list, NOTHING, NOTHING)
      else
        var ready := round.polled == Ready;
        var now := if ready then NextList(list, next, round) else list;
        var gained := if ready then Gains(was, round, |was|) else NOTHING;
        var lost := if ready then Losses(was, round, |was|) else NOTHING;
        var next' := if ready then next + |Arrivals(was, round, |was|, next)| else next;
        var rest := if Stops(list, round) then Fate(Stopped, now, NOTHING, NOTHING) else RunOf(now, next', rounds[1..]);
        rest.(gained := Plus(gained, rest.gained), lost := Plus(lost, rest.lost))
  }

  /** No connection is lost in a turn: none is accepted that then refuses to become non-blocking. */
  ghost predicate TightTurn(was: seq<Row>, round: Round) {
    forall i :: 0 <= i < |was| ==> !Loses(was[i], round.replies(i))
  }

  /** No connection is lost in any turn of the run. */
  ghost predicate Tight(list: seq<Row>, next: nat, rounds: seq<Round>)
    decreases |rounds|
  {
    rounds == [] ||
    var round, was := rounds[0], Polled(list, rounds[0]);
    round.polled == Failed || (round.polled == Ready && Crowded(was, round)) ||
    var ready := round.polled == Ready;
    && (ready ==> TightTurn(was, round))
    && (Stops(list, round) ||
        Tight(if ready then NextList(list, next, round) else list,
              if ready then next + |Arrivals(was, round, |was|, next)| else next, rounds[1..]))
  }

  ghost predicate OwnsNothing(list: seq<Row>) { forall i :: 0 <= i < |list| ==> !OwnsConn(list[i]) }

  /** What was gained and lost by a run and by what follows it. */
  function Later(fate: Fate, gained: Owned, lost: Owned): Fate {
    fate.(gained := Plus(gained, fate.gained), lost := Plus(lost, fate.lost))
  }

  /** Where a run stands: `list`, `next`, `gained` and `lost` so far, with `rest` to come, unless it was stopped. */
  ghost predicate RunAt(
    fate: Fate, list: seq<Row>, next: nat, gained: Owned, lost: Owned, stop: bool, rest: seq<Round>
  ) {
    if stop then fate == Fate(Stopped, list, gained, lost)
    else fate == Later(RunOf(list, next, rest), gained, lost)
  }

  lemma RunStarts(list: seq<Row>, next: nat, rounds: seq<Round>)
    ensures RunAt(RunOf(list, next, rounds), list, next, NOTHING, NOTHING, false, rounds[0..])
  {
    hide RunOf, Plus;
    assert rounds[0..] == rounds;
    PlusLaws(RunOf(list, next, rounds).lost, NOTHING, NOTHING);
    PlusLaws(RunOf(list, next, rounds).gained, NOTHING, NOTHING);
  }

  /** One turn of a run. */
  lemma RunTurn(fate: Fate, list: seq<Row>, next: nat, gained: Owned, lost: Owned, rest: seq<Round>)
    requires rest != [] && RunAt(fate, list, next, gained, lost, false, rest)
    ensures var round, was := rest[0], Polled(list, rest[0]);
      if round.polled == Failed then fate == Fate(Failing, list, gained, lost)
      else if round.polled == Interrupted then RunAt(fate, list, next, gained, lost, round.signal, rest[1..])
      else if Crowded(was, round) then fate.end == Overrun
      else
        RunAt(fate, NextList(list, next, round), next + |Arrivals(was, round, |was|, next)|,
              Plus(gained, Gains(was, round, |was|)), Plus(lost, Losses(was, round, |was|)), Stops(list, round),
              rest[1..])
  {
    hide Plus, Crowded, NextList, Losses, Gains, Arrivals, StopAsked, Polled;
    var round, was := rest[0], Polled(list, rest[0]);
    PlusNone(gained);
    PlusNone(lost);
    if round.polled == Interrupted {
      var f := RunOf(list, next, rest[1..]);
      PlusNone(f.lost);
      PlusNone(f.gained);
      PlusNone(NOTHING);
    } else if round.polled == Ready && !Crowded(was, round) {
      var f := RunOf(NextList(list, next, round), next + |Arrivals(was, round, |was|, next)|, rest[1..]);
      var g, l := Gains(was, round, |was|), Losses(was, round, |was|);
      PlusNone(g);
      PlusNone(l);
      PlusLaws(lost, l, f.lost);
      PlusLaws(gained, g, f.gained);
    }
  }

  lemma PlusNone(a: Owned)
    ensures Plus(a, NOTHING) == a && Plus(NOTHING, a) == a
  {
    hide Plus;
    PlusLaws(a, NOTHING, NOTHING);
  }

  lemma RunEnds(fate: Fate, list: seq<Row>, next: nat, gained: Owned, lost: Owned, rest: seq<Round>)
    requires rest == [] && RunAt(fate, list, next, gained, lost, false, rest)
    ensures fate == Fate(Going, list, gained, lost)
  {
    hide Plus;
    PlusNone(lost);
    PlusNone(gained);
  }

  // ---- when nothing is lost --------------------------------------------------------------------------------

  lemma PlusNothing(a: Owned, b: Owned)
    ensures Plus(a, b) == a <==> b == NOTHING
    ensures Plus(a, b) == NOTHING <==> a == NOTHING && b == NOTHING
  {
    if Plus(a, b) == a { NoMore(a.conns, b.conns); NoMore(a.fuses, b.fuses); NoMore(a.pids, b.pids); }
    if b == NOTHING { PlusLaws(b, a, NOTHING); }
    if Plus(a, b) == NOTHING {
      NoneAtAll(a.conns, b.conns);
      NoneAtAll(a.fuses, b.fuses);
      NoneAtAll(a.pids, b.pids);
    }
  }

  lemma NoMore(a: multiset<int>, b: multiset<int>)
    requires a + b == a
    ensures b == multiset{}
  {
    forall x: int ensures b[x] == 0 { assert (a + b)[x] == a[x] + b[x]; }
  }

  lemma NoneAtAll(a: multiset<int>, b: multiset<int>)
    requires a + b == multiset{}
    ensures a == multiset{} && b == multiset{}
  {
    forall x: int ensures a[x] == 0 && b[x] == 0 { assert (a + b)[x] == a[x] + b[x]; }
  }

  lemma {:induction false} LossesIff(was: seq<Row>, round: Round, i: nat)
    requires i <= |was|
    ensures Losses(was, round, i) == NOTHING <==> forall j :: 0 <= j < i ==> !Loses(was[j], round.replies(j))
  {
    hide Plus, Loses;
    if i > 0 {
      LossesIff(was, round, i - 1);
      var a := round.replies(i - 1);
      PlusNothing(Losses(was, round, i - 1), LostBy(was[i - 1], a));
      assert Conn(a.connFd).conns[a.connFd] == 1;
    }
  }

  /** A run loses nothing exactly when no accepted connection refuses to become non-blocking. */
  lemma {:induction false} NothingLostIff(list: seq<Row>, next: nat, rounds: seq<Round>)
    ensures RunOf(list, next, rounds).lost == NOTHING <==> Tight(list, next, rounds)
    decreases |rounds|
  {
    hide Plus, Crowded, NextList, Losses, Arrivals, StopAsked, Loses, Polled;
    if rounds != [] && rounds[0].polled != Failed {
      var round, was := rounds[0], Polled(list, rounds[0]);
      var ready := round.polled == Ready;
      var now := if ready then NextList(list, next, round) else list;
      var next' := if ready then next + |Arrivals(was, round, |was|, next)| else next;
      var rest := if Stops(list, round) then NOTHING else RunOf(now, next', rounds[1..]).lost;
      LossesIff(was, round, |was|);
      PlusNothing(if ready then Losses(was, round, |was|) else NOTHING, rest);
      NothingLostIff(now, next', rounds[1..]);
    }
  }

  lemma {:induction false} OwnsNothingIff(list: seq<Row>)
    ensures OwnedByAll(list) == NOTHING <==> OwnsNothing(list)
  {
    hide Plus, OwnedBy;
    if list != [] {
      OwnsNothingIff(list[1..]);
      PlusNothing(OwnedBy(list[0]), OwnedByAll(list[1..]));
      RowOwnsIff(list[0]);
      assert forall i :: 0 <= i < |list[1..]| ==> list[1..][i] == list[i + 1];
      assert OwnsNothing(list) <==> !OwnsConn(list[0]) && OwnsNothing(list[1..]) by {
        if !OwnsConn(list[0]) && OwnsNothing(list[1..]) {
          forall i | 0 <= i < |list| ensures !OwnsConn(list[i]) { if i > 0 { assert list[i] == list[1..][i - 1]; } }
        }
      }
    }
  }

  lemma RowOwnsIff(r: Row)
    ensures OwnedBy(r) == NOTHING <==> !OwnsConn(r)
  {
    if OwnsConn(r) { assert ConnOf(r)[r.poll.fd] == 1; }
  }

  /** Everything gained was given back exactly when no entry owns anything and nothing was lost. */
  lemma BalanceIff(gained: Owned, given: Owned, list: seq<Row>, lost: Owned)
    requires gained == Plus(given, Plus(OwnedByAll(list), lost))
    ensures gained == given <==> OwnsNothing(list) && lost == NOTHING
  {
    hide Plus, OwnsNothing;
    PlusNothing(given, Plus(OwnedByAll(list), lost));
    PlusNothing(OwnedByAll(list), lost);
    OwnsNothingIff(list);
  }

  // ---- when the arrays are overrun -------------------------------------------------------------------------

  /** A scan overruns the arrays exactly when an entry brings a connection while every place is taken. */
  lemma CrowdedIff(was: seq<Row>, round: Round)
    requires |was| <= MAX_FDS
    ensures Crowded(was, round) <==>
      exists i :: 0 <= i < |was| && Brings(was[i], round.replies(i)) && |was| + |Arrivals(was, round, i, 0)| == MAX_FDS
  {
    hide Brings;
    if Crowded(was, round) {
      var i := FillsUp(was, round, |was|);
    } else {
      forall i | 0 <= i < |was| && Brings(was[i], round.replies(i))
        ensures |was| + |Arrivals(was, round, i, 0)| != MAX_FDS
      {
        ArrivalsGrow(was, round, i + 1, |was|, 0);
      }
    }
  }

  lemma {:induction false} FillsUp(was: seq<Row>, round: Round, k: nat) returns (i: nat)
    requires k <= |was| <= MAX_FDS && |was| + |Arrivals(was, round, k, 0)| > MAX_FDS
    ensures i < k && Brings(was[i], round.replies(i)) && |was| + |Arrivals(was, round, i, 0)| == MAX_FDS
    decreases k
  {
    hide Brings;
    i := k - 1;
    if |was| + |Arrivals(was, round, i, 0)| != MAX_FDS { i := FillsUp(was, round, i); }
  }

  /** A signal stops the daemon, unless polling fails or the arrays are overrun first. */
  lemma {:induction false} SignalStops(list: seq<Row>, next: nat, rounds: seq<Round>, i: nat)
    requires i < |rounds| && rounds[i].signal && forall j :: 0 <= j < |rounds| ==> rounds[j].polled != Failed
    ensures RunOf(list, next, rounds).end in {Stopped, Overrun}
    decreases |rounds|
  {
    hide Crowded, NextList, Losses, Arrivals, StopAsked, Polled, Plus;
    var round, was := rounds[0], Polled(list, rounds[0]);
    var ready := round.polled == Ready;
    if i > 0 {
      assert rounds[1..][i - 1] == rounds[i];
      SignalStops(if ready then NextList(list, next, round) else list,
                  if ready then next + |Arrivals(was, round, |was|, next)| else next, rounds[1..], i - 1);
    }
  }

  // ---- inputs --------------------------------------------------------------------------------------------------

  /** A turn in which only the first entry is readable, and its connection answers `setFlags`. */
  function ConnTurn(setFlags: int, signal: bool): Round {
    Round(Ready, signal, i => if i == 0 then Events(true, false) else QUIET,
          _ => Reply(7, 0, setFlags, 0, Nop, 0, 0, 0))
  }

  /** The listening entry, and connections that have sent nothing yet. */
  ghost predicate Waiting(list: seq<Row>) {
    && list != [] && list[0].st.state == Listening
    && forall i :: 0 < i < |list| ==> list[i].st.state == Accepted
  }

  /** Such a turn keeps every entry and appends the connection, or loses it. */
  lemma ConnTurnIs(list: seq<Row>, next: nat, setFlags: int, signal: bool)
    requires Waiting(list)
    ensures var round := ConnTurn(setFlags, signal); var was := Polled(list, round);
      && (setFlags >= 0 ==> Arrivals(was, round, |was|, next) == [AcceptedRow(7, next)])
      && (setFlags < 0 ==> Arrivals(was, round, |was|, next) == [])
      && NextList(list, next, round) == was + Arrivals(was, round, |was|, next)
      && Waiting(NextList(list, next, round)) && !StopAsked(was, round, |was|)
      && (setFlags < 0 ==> Losses(was, round, |was|) == Conn(7)) && (setFlags >= 0 ==> TightTurn(was, round))
  {
    hide Arrivals, Losses, Remaining, Served, Asks, Loses, Plus;
    var round := ConnTurn(setFlags, signal);
    var was := Polled(list, round);
    forall i | 0 <= i < |was|
      ensures Served(was[i], round.replies(i)) == was[i] && was[i].st.state != Closed
      ensures !Asks(was[i], round.replies(i)) && (setFlags >= 0 ==> !Loses(was[i], round.replies(i)))
    {
      QuietEntry(was[i], round.replies(i));
    }
    OneComes(was, round, |was|, next, setFlags);
    AllRemain(was, round);
  }

  lemma QuietEntry(r: Row, a: Reply)
    requires r.st.state == Listening || (r.st.state == Accepted && !r.poll.revents.input)
    requires !r.poll.revents.output
    ensures Served(r, a) == r && !Asks(r, a) && (a.setFlags >= 0 ==> !Loses(r, a))
  {
  }

  lemma {:induction false} OneComes(was: seq<Row>, round: Round, i: nat, next: nat, setFlags: int)
    requires Waiting(was) && 0 < i <= |was| && round.replies(0) == Reply(7, 0, setFlags, 0, Nop, 0, 0, 0)
    requires was[0].poll.revents.input
    ensures Arrivals(was, round, i, next) == if setFlags >= 0 then [AcceptedRow(7, next)] else []
    ensures Losses(was, round, i) == if setFlags < 0 then Conn(7) else NOTHING
    decreases i
  {
    hide Plus;
    var a := round.replies(i - 1);
    if i == 1 {
      assert Arrivals(was, round, 0, next) == [] && Losses(was, round, 0) == NOTHING;
      PlusLaws(LostBy(was[0], a), NOTHING, NOTHING);
    } else {
      OneComes(was, round, i - 1, next, setFlags);
      PlusLaws(Losses(was, round, i - 1), NOTHING, NOTHING);
      PlusLaws(NOTHING, Losses(was, round, i - 1), NOTHING);
    }
  }

  lemma {:induction false} AllRemain(was: seq<Row>, round: Round)
    requires forall i :: 0 <= i < |was| ==> Served(was[i], round.replies(i)) == was[i] && was[i].st.state != Closed
    ensures Remaining(was, round) == was
  {
    hide Served;
    if was != [] {
      var n := |was| - 1;
      AllRemain(was[..n], round);
      assert was == was[..n] + [was[n]];
    }
  }

  /** A connection that refuses to become non-blocking is still open when the daemon has stopped. */
  lemma LosesConnection()
    ensures var fate := RunOf(FirstList(3, 0), 1, [ConnTurn(-1, true)]);
      fate.end == Stopped && fate.lost == Conn(7) && !Tight(FirstList(3, 0), 1, [ConnTurn(-1, true)])
  {
    hide Plus, Losses, Arrivals, NextList, Polled, Remaining;
    var list, round := FirstList(3, 0), ConnTurn(-1, true);
    ConnTurnIs(list, 1, -1, true);
    var was := Polled(list, round);
    assert Crowded(was, round) == (|was| + |Arrivals(was, round, |was|, 0)| > MAX_FDS);
    ConnTurnIs(list, 0, -1, true);
    PlusLaws(Conn(7), NOTHING, NOTHING);
    NothingLostIff(list, 1, [round]);
    assert Conn(7).conns[7] == 1;
  }

  /** When polling fails, a connection that was added is still open. */
  lemma FailingKeepsConnection()
    ensures var rounds := [ConnTurn(0, false), ConnTurn(0, false).(polled := Failed)];
      var fate := RunOf(FirstList(3, 0), 1, rounds);
      fate.end == Failing && !OwnsNothing(fate.list) && Tight(FirstList(3, 0), 1, rounds)
  {
    hide Plus, Losses, Arrivals, NextList, Polled, Remaining;
    var list, round := FirstList(3, 0), ConnTurn(0, false);
    var rounds := [round, round.(polled := Failed)];
    ConnTurnIs(list, 1, 0, false);
    ConnTurnIs(list, 0, 0, false);
    var was, now := Polled(list, round), NextList(list, 1, round);
    assert rounds[1..] == [round.(polled := Failed)];
    assert RunOf(now, 2, rounds[1..]) == Fate(Failing, now, NOTHING, NOTHING);
    assert now == was + [AcceptedRow(7, 1)];
    assert OwnsConn(now[1]);
  }

  /** As many connections as there are places overrun the arrays: the listening entry takes one. */
  lemma {:induction false} TooMany(list: seq<Row>, next: nat, rounds: seq<Round>)
    requires Waiting(list) && |list| <= MAX_FDS < |list| + |rounds|
    requires forall i :: 0 <= i < |rounds| ==> rounds[i] == ConnTurn(0, false)
    ensures RunOf(list, next, rounds).end == Overrun
    decreases |rounds|
  {
    hide Plus, Losses, Arrivals, NextList, Polled, Remaining, StopAsked, Waiting;
    var round := ConnTurn(0, false);
    var was := Polled(list, round);
    ConnTurnIs(list, next, 0, false);
    ConnTurnIs(list, 0, 0, false);
    if |list| < MAX_FDS {
      TooMany(NextList(list, next, round), next + 1, rounds[1..]);
    }
  }

  // ---- accounts ----------------------------------------------------------------------------------------------

  lemma AccountsOfEntry(gained: Owned, given: Owned, a: seq<Row>, r: Row, b: seq<Row>, lost: Owned)
    requires gained == Plus(given, Plus(OwnedByAll(a + [r] + b), lost))
    ensures gained == Plus(given, Plus(OwnedBy(r), Plus(OwnedByAll(a + b), lost)))
  {
    hide Plus, OwnedBy, OwnedByAll;
    OwnedMiddle(a, r, b);
    PlusLaws(OwnedBy(r), OwnedByAll(a + b), lost);
  }

  lemma ServedAccounts(
    gained: Owned, given: Owned, a: seq<Row>, s: Row, b: seq<Row>, made: seq<Row>, lost: Owned, leak: Owned
  )
    requires gained == Plus(given, Plus(OwnedBy(s), Plus(Plus(OwnedByAll(a + b), lost), Plus(OwnedByAll(made), leak))))
    ensures gained == Plus(given, Plus(OwnedByAll(a + Open(s) + (b + made)), Plus(lost, leak)))
  {
    hide Plus, OwnedBy, OwnedByAll;
    if s.st.state == Closed { ClosedNothing(s); }
    OwnedServed(a, s, b, made);
    Shuffled(OwnedByAll(a + b), lost, OwnedByAll(made), leak);
    PlusLaws(OwnedBy(s), Plus(OwnedByAll(a + b), OwnedByAll(made)), Plus(lost, leak));
  }

  lemma Shuffled(a: Owned, b: Owned, c: Owned, d: Owned)
    ensures Plus(Plus(a, b), Plus(c, d)) == Plus(Plus(a, c), Plus(b, d))
  {
    assert a.conns + b.conns + (c.conns + d.conns) == a.conns + c.conns + (b.conns + d.conns);
    assert a.fuses + b.fuses + (c.fuses + d.fuses) == a.fuses + c.fuses + (b.fuses + d.fuses);
    assert a.pids + b.pids + (c.pids + d.pids) == a.pids + c.pids + (b.pids + d.pids);
  }

  lemma ClosedConn(given: Owned, fd: int)
    ensures Plus(given, Conn(fd)) == given.(conns := given.conns + multiset{fd})
  {
    assert given.fuses + multiset{} == given.fuses && given.pids + multiset{} == given.pids;
  }

  lemma LastGiven(gained: Owned, given: Owned, front: seq<Row>, last: Row, lost: Owned)
    requires gained == Plus(given, Plus(OwnedByAll(front + [last]), lost))
    ensures gained == Plus(Plus(given, OwnedBy(last)), Plus(OwnedByAll(front), lost))
  {
    hide Plus, OwnedByAll, OwnedBy;
    OwnedAppend(front, [last]);
    OwnedOne(last);
    PlusLaws(OwnedByAll(front), OwnedBy(last), NOTHING);
    PlusLaws(OwnedBy(last), OwnedByAll(front), lost);
    PlusLaws(given, OwnedBy(last), Plus(OwnedByAll(front), lost));
  }

  lemma NoneOwned(lost: Owned)
    ensures Plus(OwnedByAll([]), lost) == lost
  {
    hide Plus;
    PlusLaws(lost, NOTHING, NOTHING);
  }

  /** The table after the listening socket is added, or not. */
  lemma FirstEntry(listenFd: int, setFlags: int)
    ensures var first := FirstList(listenFd, setFlags);
      ListOk(first, |first|) && OwnedByAll(first) == NOTHING && Plus(NOTHING, Plus(NOTHING, NOTHING)) == NOTHING
  {
    var first := FirstList(listenFd, setFlags);
    PlusLaws(NOTHING, NOTHING, NOTHING);
    if first != [] { OwnedOne(first[0]); }
  }

  /** Polling changes neither order nor what entries own. */
  lemma PolledList(was: seq<Row>, round: Round, next: nat)
    requires ListOk(was, next)
    ensures ListOk(Polled(was, round), next) && OwnedByAll(Polled(was, round)) == OwnedByAll(was)
  {
    hide Polled, OwnedByAll;
    PolledOwned(was, round);
  }

  lemma {:induction false} PolledOwned(was: seq<Row>, round: Round)
    ensures OwnedByAll(Polled(was, round)) == OwnedByAll(was)
  {
    hide OwnedByAll, OwnedBy, Plus, Polled;
    if was == [] {
      assert Polled(was, round) == [];
    } else {
      var n := |was| - 1;
      var last := was[n].(poll := was[n].poll.(revents := round.revents(n)));
      PolledOwned(was[..n], round);
      PolledLast(was, round);
      OwnedAppend(was[..n], [was[n]]);
      OwnedAppend(Polled(was[..n], round), [last]);
      OwnedOne(was[n]);
      OwnedOne(last);
      PolledOwns(was[n], last);
      assert was == was[..n] + [was[n]];
    }
  }

  lemma PolledLast(was: seq<Row>, round: Round)
    requires was != []
    ensures var n := |was| - 1;
      Polled(was, round) == Polled(was[..n], round) + [was[n].(poll := was[n].poll.(revents := round.revents(n)))]
  {
  }

  lemma PolledOwns(r: Row, s: Row)
    requires s.st == r.st && s.poll.fd == r.poll.fd
    ensures OwnedBy(s) == OwnedBy(r)
  {
  }

  lemma IsTableAfter(rows: seq<Row>, idx: nat, n: nat, round: Round, next: nat)
    requires idx < n <= |rows|
    ensures var a := round.replies(idx);
      var served := rows[idx := Served(rows[idx], a)];
      if Brings(rows[idx], a) && n < |rows| then
        Brought(rows, idx, n, round, next) == [AcceptedRow(a.connFd, next)] &&
        TableAfter(rows, idx, n, round, next) == served[n := AcceptedRow(a.connFd, next)]
      else Brought(rows, idx, n, round, next) == [] && TableAfter(rows, idx, n, round, next) == served
  {
    hide Served, Brings;
  }

  lemma OpenSize(r: Row)
    ensures |Open(r)| == if r.st.state == Closed then 0 else 1
  {
  }

  lemma ScanStart(rows: seq<Row>, n: nat, was: seq<Row>, round: Round, next: nat)
    requires n <= |rows| && was == rows[..n] && ListOk(was, next)
    ensures ScanInv(rows, 0, 0, n, was, [], round, next) && rows[..0] + rows[0..n] == was
  {
    hide ListOk;
    DoneNone(was, round);
    assert rows[..0] + rows[0..n] == was && (was + [])[0..] == was;
  }

  lemma ScanEnd(rows: seq<Row>, valid: nat, n: nat, was: seq<Row>, more: seq<Row>, round: Round, next: nat)
    requires ScanInv(rows, valid, n, n, was, more, round, next)
    ensures rows[..valid] == Remaining(was, round) + more && ListOk(rows[..valid], next)
    ensures rows[..valid] + rows[n..n] == rows[..valid] && n == |was| + |more|
  {
    hide ListOk, Done;
    DoneAll(was, more, round);
    assert rows[..valid] + rows[n..n] == rows[..valid];
  }

  lemma EntryOpen(
    rows: seq<Row>, valid: nat, idx: nat, n: nat, was: seq<Row>, more: seq<Row>, round: Round, next: nat
  )
    requires ScanInv(rows, valid, idx, n, was, more, round, next) && idx < n
    ensures rows[idx].st.state != Closed && rows[idx].poll.events != QUIET
  {
    hide ListOk, Done;
    Around(rows, valid, idx, n);
    MiddleOk(rows[..valid], rows[idx], rows[idx + 1..n], next);
  }
}
