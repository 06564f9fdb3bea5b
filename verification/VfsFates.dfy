/** What a scan makes of each entry of the VFS daemon, told by the entries before and after it and by what it closed. */
module VfsFates {
  import opened VfsRounds

  ghost predicate Gone(list: seq<Row>, id: nat) { forall j :: 0 <= j < |list| ==> list[j].id != id }

  /** Entry `r` is still there, with the same connection, and its state is `st`. */
  ghost predicate Now(list: seq<Row>, r: Row, st: FdState) {
    exists j :: 0 <= j < |list| && list[j].id == r.id && list[j].st == st && list[j].poll.fd == r.poll.fd
  }

  /** The message asks for a mount and the mount succeeds; or it asks the daemon to stop. */
  predicate Mounts(a: Reply) { a.received >= 0 && a.action == Mount && a.pid >= 0 && a.fuseFd >= 0 }
  predicate AsksStop(a: Reply) { a.received >= 0 && a.action == Stop }

  /**
   * What becomes of an open entry. A readable connection stays if its message is a stop, or a mount that succeeds,
   * which leaves it mounted; a readable mounted or sent entry is gone; a writable mounted entry is sent if the send
   * succeeds, and gone otherwise; any other entry that is reported writable is gone; and a quiet one stays as it is.
   */
  ghost predicate FateOf(r: Row, a: Reply, list: seq<Row>) {
    var input, output := r.poll.revents.input, r.poll.revents.output;
    match r.st.state
    case Listening => if output then Gone(list, r.id) else Now(list, r, r.st)
    case Accepted =>
      if input && Mounts(a) then
        if !output then Now(list, r, FdState(Mounted, a.pid, a.fuseFd))
        else if a.sent >= 0 then Now(list, r, FdState(FdSent, a.pid, a.fuseFd))
        else Gone(list, r.id)
      else if output || (input && !AsksStop(a)) then Gone(list, r.id)
      else Now(list, r, r.st)
    case Mounted =>
      if input || (output && a.sent < 0) then Gone(list, r.id)
      else Now(list, r, if output then r.st.(state := FdSent) else r.st)
    case FdSent => if input || output then Gone(list, r.id) else Now(list, r, r.st)
    case Closed => true
  }

  ghost predicate FatesOf(was: seq<Row>, round: Round, list: seq<Row>) {
    forall i {:trigger was[i]} :: 0 <= i < |was| ==> FateOf(was[i], round.replies(i), list)
  }

  /** An entry is in one state only, and not gone if it is in any. */
  lemma OneFate(list: seq<Row>, next: nat, r: Row, st: FdState, st': FdState)
    requires InOrder(list, next) && Now(list, r, st)
    ensures !Gone(list, r.id) && (Now(list, r, st') ==> st' == st)
  {
  }

  lemma {:induction false} RemainingFrom(was: seq<Row>, round: Round, j: nat) returns (k: nat)
    requires j < |Remaining(was, round)|
    ensures k < |was| && Remaining(was, round)[j] == Served(was[k], round.replies(k))
    ensures Served(was[k], round.replies(k)).st.state != Closed
  {
    hide Served;
    var n := |was| - 1;
    if j < |Remaining(was[..n], round)| { k := RemainingFrom(was[..n], round, j); } else { k := n; }
  }

  lemma {:induction false} RemainingHas(was: seq<Row>, round: Round, i: nat)
    requires i < |was|
    ensures var s := Served(was[i], round.replies(i)); s.st.state != Closed ==> s in Remaining(was, round)
  {
    hide Served;
    var n := |was| - 1;
    if i < n { RemainingHas(was[..n], round, i); }
  }

  lemma {:induction false} ArrivalIds(was: seq<Row>, round: Round, i: nat, next: nat)
    requires i <= |was|
    ensures forall j :: 0 <= j < |Arrivals(was, round, i, next)| ==> Arrivals(was, round, i, next)[j].id >= next
  {
    hide Brings;
    if i > 0 { ArrivalIds(was, round, i - 1, next); }
  }

  /** An entry is gone after the scan exactly when it was closed. */
  lemma GoneIff(was: seq<Row>, round: Round, next: nat, i: nat)
    requires ListOk(was, next) && i < |was|
    ensures var s, list := Served(was[i], round.replies(i)),
        Remaining(was, round) + Arrivals(was, round, |was|, next);
      (Gone(list, was[i].id) <==> s.st.state == Closed) && (s.st.state != Closed ==> s in list)
  {
    hide Served, Remaining, Arrivals;
    var s, rest, more := Served(was[i], round.replies(i)), Remaining(was, round), Arrivals(was, round, |was|, next);
    ServedOk(was[i], round.replies(i));
    if s.st.state != Closed {
      RemainingHas(was, round, i);
      assert s in rest + more;
    } else {
      ArrivalIds(was, round, |was|, next);
      var list := rest + more;
      forall j | 0 <= j < |list| ensures list[j].id != was[i].id {
        if j < |rest| {
          var k := RemainingFrom(was, round, j);
          ServedOk(was[k], round.replies(k));
        }
      }
    }
  }

  lemma FateServed(r: Row, a: Reply, list: seq<Row>)
    requires RowOk(r) && r.st.state != Closed
    requires var s := Served(r, a); if s.st.state == Closed then Gone(list, r.id) else s in list
    ensures FateOf(r, a, list)
  {
    hide Gone;
    var s := Served(r, a);
    if s.st.state != Closed {
      var j :| 0 <= j < |list| && list[j] == s;
      assert Now(list, r, s.st);
    }
  }

  /** Every entry meets its fate. */
  lemma ScanFates(was: seq<Row>, round: Round, next: nat)
    requires ListOk(was, next)
    ensures FatesOf(was, round, Remaining(was, round) + Arrivals(was, round, |was|, next))
  {
    hide Served, Remaining, Arrivals, FateOf, Gone;
    forall i | 0 <= i < |was|
      ensures FateOf(was[i], round.replies(i), Remaining(was, round) + Arrivals(was, round, |was|, next))
    {
      GoneIff(was, round, next, i);
      FateServed(was[i], round.replies(i), Remaining(was, round) + Arrivals(was, round, |was|, next));
    }
  }

  // ---- what is closed ----------------------------------------------------------------------------------------

  /** A connection whose credentials cannot be asked for is closed at once. */
  function ClosedAtOnce(r: Row, a: Reply): Owned {
    if r.st.state == Listening && r.poll.revents.input && a.connFd >= 0 && a.passCred < 0 then Conn(a.connFd)
    else NOTHING
  }

  /** What an entry owned, with the mount it was given in this scan. */
  function Had(r: Row, a: Reply): Owned {
    if r.st.state == Accepted && r.poll.revents.input && Mounts(a) then
      Owned(multiset{r.poll.fd}, multiset{a.fuseFd}, multiset{a.pid})
    else OwnedBy(r)
  }

  /** What is closed for the first `i` entries: connections at once, and everything that an entry had that is gone. */
  ghost function Returned(was: seq<Row>, round: Round, list: seq<Row>, i: nat): Owned
    requires i <= |was|
  {
    if i == 0 then NOTHING
    else
      var r, a := was[i - 1], round.replies(i - 1);
      Plus(Returned(was, round, list, i - 1), Plus(ClosedAtOnce(r, a), if Gone(list, r.id) then Had(r, a) else NOTHING))
  }

  function BroughtBy(r: Row, a: Reply): Owned { if Brings(r, a) then Conn(a.connFd) else NOTHING }

  function ReturnedBy(r: Row, a: Reply): Owned {
    Plus(ClosedAtOnce(r, a), if Served(r, a).st.state == Closed then Had(r, a) else NOTHING)
  }

  /** What one entry had and gained is what it is left with, what it brought, what it lost and what was closed. */
  lemma EntryBalance(r: Row, a: Reply)
    requires RowOk(r) && r.st.state != Closed
    ensures Plus(OwnedBy(r), GainOf(r, a)) ==
      Plus(Plus(OwnedBy(Served(r, a)), BroughtBy(r, a)), Plus(LostBy(r, a), ReturnedBy(r, a)))
  {
    if r.st.state == Listening {
      ListeningBalance(r, a);
    } else {
      OtherBalance(r, a);
    }
  }

  lemma ListeningBalance(r: Row, a: Reply)
    requires RowOk(r) && r.st.state == Listening
    ensures Plus(OwnedBy(r), GainOf(r, a)) ==
      Plus(Plus(OwnedBy(Served(r, a)), BroughtBy(r, a)), Plus(LostBy(r, a), ReturnedBy(r, a)))
  {
    ListeningOwns(r, a);
    ListeningParts(r, a);
    hide Plus, OwnedBy, Served, Had, GainOf, LostBy, BroughtBy, ClosedAtOnce, Conn;
    PlusLaws(Conn(a.connFd), NOTHING, NOTHING);
    PlusLaws(NOTHING, NOTHING, NOTHING);
  }

  lemma ListeningOwns(r: Row, a: Reply)
    requires r.st.state == Listening
    ensures OwnedBy(r) == NOTHING && OwnedBy(Served(r, a)) == NOTHING && Had(r, a) == NOTHING
  {
  }

  /** A connection that is taken is brought, lost or closed at once. */
  lemma ListeningParts(r: Row, a: Reply)
    requires r.st.state == Listening
    ensures var g, b, l, c := GainOf(r, a), BroughtBy(r, a), LostBy(r, a), ClosedAtOnce(r, a);
      || (g == NOTHING && b == NOTHING && l == NOTHING && c == NOTHING)
      || (g == Conn(a.connFd) && b == g && l == NOTHING && c == NOTHING)
      || (g == Conn(a.connFd) && b == NOTHING && l == g && c == NOTHING)
      || (g == Conn(a.connFd) && b == NOTHING && l == NOTHING && c == g)
  {
    hide Conn;
  }

  lemma OtherBalance(r: Row, a: Reply)
    requires RowOk(r) && r.st.state != Closed && r.st.state != Listening
    ensures Plus(OwnedBy(r), GainOf(r, a)) ==
      Plus(Plus(OwnedBy(Served(r, a)), BroughtBy(r, a)), Plus(LostBy(r, a), ReturnedBy(r, a)))
  {
    HadIs(r, a);
    OtherParts(r, a);
    ServedOwns(r, a);
    hide Plus, OwnedBy, Served, Had, GainOf, LostBy, BroughtBy, ClosedAtOnce;
    PlusLaws(Had(r, a), NOTHING, NOTHING);
    PlusLaws(NOTHING, NOTHING, NOTHING);
  }

  lemma OtherParts(r: Row, a: Reply)
    requires r.st.state != Listening
    ensures BroughtBy(r, a) == NOTHING && LostBy(r, a) == NOTHING && ClosedAtOnce(r, a) == NOTHING
  {
    hide Conn;
  }

  /** An entry that stays keeps its connection and its mount, or has been given one. */
  lemma ServedKeeps(r: Row, a: Reply)
    requires RowOk(r) && r.st.state != Closed && r.st.state != Listening
    ensures var s, mounts := Served(r, a), r.st.state == Accepted && r.poll.revents.input && Mounts(a);
      s.st.state != Closed ==>
        s.poll.fd == r.poll.fd && OwnsConn(s) && (OwnsMount(s) <==> mounts || OwnsMount(r)) &&
        (OwnsMount(s) ==> s.st.pid == (if mounts then a.pid else r.st.pid)) &&
        (OwnsMount(s) ==> s.st.fuseFd == if mounts then a.fuseFd else r.st.fuseFd)
  {
  }

  lemma ServedOwns(r: Row, a: Reply)
    requires RowOk(r) && r.st.state != Closed && r.st.state != Listening
    ensures OwnedBy(Served(r, a)) == if Served(r, a).st.state == Closed then NOTHING else Had(r, a)
  {
    ServedKeeps(r, a);
    var s := Served(r, a);
    hide Served, Mounts, RowOk;
    if s.st.state == Closed { ClosedNothing(s); }
  }

  lemma HadIs(r: Row, a: Reply)
    requires r.st.state != Closed && r.st.state != Listening
    ensures Plus(OwnedBy(r), GainOf(r, a)) == Had(r, a)
  {
    PlusLaws(OwnedBy(r), NOTHING, NOTHING);
    assert multiset{r.poll.fd} + multiset{} == multiset{r.poll.fd};
    assert multiset{} + multiset{a.fuseFd} == multiset{a.fuseFd} && multiset{} + multiset{a.pid} == multiset{a.pid};
  }

  /** Sums of four parts are added part by part. */
  lemma AddedUp(a: Owned, b: Owned, c: Owned, d: Owned, a': Owned, b': Owned, c': Owned, d': Owned)
    ensures Plus(Plus(Plus(a, b), Plus(c, d)), Plus(Plus(a', b'), Plus(c', d'))) ==
      Plus(Plus(Plus(a, a'), Plus(b, b')), Plus(Plus(c, c'), Plus(d, d')))
  {
    hide Plus;
    Shuffled(Plus(a, b), Plus(c, d), Plus(a', b'), Plus(c', d'));
    Shuffled(a, b, a', b');
    Shuffled(c, d, c', d');
  }

  lemma OpenOwns(s: Row)
    ensures OwnedByAll(Open(s)) == OwnedBy(s)
  {
    if s.st.state == Closed { ClosedNothing(s); } else { OwnedOne(s); }
  }

  /** What the first `i` entries had and gained is what is left, brought, lost and closed. */
  lemma {:induction false} ScanBalance(was: seq<Row>, round: Round, next: nat, list: seq<Row>, i: nat)
    requires i <= |was| && RowsOk(was) && AllOpen(was)
    requires forall k :: 0 <= k < i ==>
      (Gone(list, was[k].id) <==> Served(was[k], round.replies(k)).st.state == Closed)
    ensures Plus(OwnedByAll(was[..i]), Gains(was, round, i)) ==
      Plus(Plus(OwnedByAll(Remaining(was[..i], round)), OwnedByAll(Arrivals(was, round, i, next))),
           Plus(Losses(was, round, i), Returned(was, round, list, i)))
  {
    if i == 0 {
      PlusLaws(NOTHING, NOTHING, NOTHING);
    } else {
      hide Plus, OwnedBy, Served, GainOf, LostBy, ClosedAtOnce, Had, Gone, OwnedByAll, Brings, RowOk;
      var r, a, front := was[i - 1], round.replies(i - 1), was[..i - 1];
      var s := Served(r, a);
      assert was[..i] == front + [r] && was[..i][..i - 1] == front;
      ScanBalance(was, round, next, list, i - 1);
      EntryBalance(r, a);
      OwnedAppend(front, [r]);
      OwnedOne(r);
      OpenOwns(s);
      assert Remaining(was[..i], round) == Remaining(front, round) + Open(s);
      OwnedAppend(Remaining(front, round), Open(s));
      BroughtOwned(was, round, next, i);
      Shuffled(OwnedByAll(front), Gains(was, round, i - 1), OwnedBy(r), GainOf(r, a));
      AddedUp(OwnedByAll(Remaining(front, round)), OwnedByAll(Arrivals(was, round, i - 1, next)),
              Losses(was, round, i - 1), Returned(was, round, list, i - 1), OwnedBy(s), BroughtBy(r, a), LostBy(r, a),
              ReturnedBy(r, a));
    }
  }

  lemma BroughtOwned(was: seq<Row>, round: Round, next: nat, i: nat)
    requires 0 < i <= |was|
    ensures OwnedByAll(Arrivals(was, round, i, next)) ==
      Plus(OwnedByAll(Arrivals(was, round, i - 1, next)), BroughtBy(was[i - 1], round.replies(i - 1)))
  {
    hide Plus, Brings, OwnedByAll;
    var before, a := Arrivals(was, round, i - 1, next), round.replies(i - 1);
    if Brings(was[i - 1], a) {
      OwnedAppend(before, [AcceptedRow(a.connFd, next + |before|)]);
      ConnOwned(a.connFd, next + |before|);
    } else {
      PlusLaws(OwnedByAll(before), NOTHING, NOTHING);
    }
  }

  lemma Cancel(a: multiset<int>, b: multiset<int>, x: multiset<int>)
    requires a + x == b + x
    ensures a == b
  {
    forall y: int ensures a[y] == b[y] { assert (a + x)[y] == (b + x)[y]; }
  }

  lemma CancelOwned(a: Owned, b: Owned, x: Owned)
    requires Plus(a, x) == Plus(b, x)
    ensures a == b
  {
    Cancel(a.conns, b.conns, x.conns);
    Cancel(a.fuses, b.fuses, x.fuses);
    Cancel(a.pids, b.pids, x.pids);
  }

  /** What the accounts say was closed. */
  lemma ClosedIs(
    gained0: Owned, given0: Owned, o: Owned, lost0: Owned, g: Owned, given: Owned, left: Owned, l: Owned, t: Owned
  )
    requires gained0 == Plus(given0, Plus(o, lost0)) && Plus(gained0, g) == Plus(given, Plus(left, Plus(lost0, l)))
    requires Plus(o, g) == Plus(left, Plus(l, t))
    ensures given == Plus(given0, t)
  {
    assert Plus(given, Plus(left, Plus(lost0, l))) == Plus(Plus(given0, t), Plus(left, Plus(lost0, l))) by {
      hide Plus;
      PlusLaws(given0, Plus(o, lost0), g);
      PlusLaws(o, lost0, g);
      PlusLaws(lost0, g, NOTHING);
      PlusLaws(o, g, lost0);
      PlusLaws(Plus(l, t), left, lost0);
      PlusLaws(left, Plus(l, t), lost0);
      PlusLaws(l, t, lost0);
      PlusLaws(t, lost0, NOTHING);
      PlusLaws(l, lost0, t);
      PlusLaws(lost0, l, t);
      PlusLaws(left, Plus(lost0, l), t);
      PlusLaws(given0, t, Plus(left, Plus(lost0, l)));
      PlusLaws(t, Plus(left, Plus(lost0, l)), NOTHING);
    }
    CancelOwned(given, Plus(given0, t), Plus(left, Plus(lost0, l)));
  }

  /** A scan closes what is closed at once and everything that an entry had that is gone, and nothing else. */
  lemma ScanCloses(
    was: seq<Row>, round: Round, next: nat, gained0: Owned, given0: Owned, lost0: Owned, gained: Owned, given: Owned
  )
    requires ListOk(was, next) && gained0 == Plus(given0, Plus(OwnedByAll(was), lost0))
    requires gained == Plus(gained0, Gains(was, round, |was|))
    requires var list := Remaining(was, round) + Arrivals(was, round, |was|, next);
      gained == Plus(given, Plus(OwnedByAll(list), Plus(lost0, Losses(was, round, |was|))))
    ensures var list := Remaining(was, round) + Arrivals(was, round, |was|, next);
      given == Plus(given0, Returned(was, round, list, |was|))
  {
    hide Plus, OwnedByAll, Remaining, Arrivals, Gains, Losses, Returned, Served, Gone;
    var rest, more := Remaining(was, round), Arrivals(was, round, |was|, next);
    forall k | 0 <= k < |was|
      ensures Gone(rest + more, was[k].id) <==> Served(was[k], round.replies(k)).st.state == Closed
    {
      GoneIff(was, round, next, k);
    }
    assert was[..|was|] == was;
    ScanBalance(was, round, next, rest + more, |was|);
    OwnedAppend(rest, more);
    ClosedIs(gained0, given0, OwnedByAll(was), lost0, Gains(was, round, |was|), given, OwnedByAll(rest + more),
             Losses(was, round, |was|), Returned(was, round, rest + more, |was|));
  }
}
