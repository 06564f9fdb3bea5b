/** The VFS daemon's poll loop: parallel arrays of descriptors, compacted in place while accepts append. */
module VfsServer {
  import opened VfsRounds
  import opened VfsFates

  class Server {
    const fdState: array<FdState>
    const pollFds: array<PollFd>
    var nfds: nat
    var stop: bool
    /** An entry was to be written past the arrays. What the source does from there is undefined; the model stops. */
    var overrun: bool
    /** The entries with their numbers, and everything gained and given back so far. */
    ghost var rows: seq<Row>
    ghost var nextId: nat
    ghost var gained: Owned
    ghost var given: Owned

    ghost predicate Valid()
      reads this, fdState, pollFds
    {
      && fdState.Length == MAX_FDS && pollFds.Length == MAX_FDS && |rows| == MAX_FDS && nfds <= MAX_FDS
      && forall i :: 0 <= i < MAX_FDS ==> rows[i].st == fdState[i] && rows[i].poll == pollFds[i]
    }

    constructor ()
      ensures Valid() && nfds == 0 && !stop && !overrun && fresh(fdState) && fresh(pollFds)
      ensures gained == NOTHING && given == NOTHING && nextId == 0
    {
      var empty := FdState(Closed, NONE, NONE);
      var quiet := PollFd(NONE, QUIET, QUIET);
      fdState := new FdState[MAX_FDS](_ => empty);
      pollFds := new PollFd[MAX_FDS](_ => quiet);
      nfds, stop, overrun := 0, false, false;
      rows := seq(MAX_FDS, _ => Row(empty, quiet, 0));
      nextId, gained, given := 0, NOTHING, NOTHING;
    }

    /** Writes both arrays at `i`. */
    method Put(i: nat, st: FdState, poll: PollFd, ghost id: nat)
      requires Valid() && i < MAX_FDS
      modifies fdState, pollFds, this`rows
      ensures Valid() && rows == old(rows)[i := Row(st, poll, id)]
    {
      fdState[i] := st;
      pollFds[i] := poll;
      rows := rows[i := Row(st, poll, id)];
    }

    /** Appends an entry unless the descriptor refuses to become non-blocking; there is no test for room. */
    method AddFd(fd: int, state: State, setFlags: int) returns (ret: int)
      requires Valid() && !overrun && state in {Listening, Accepted}
      modifies this, fdState, pollFds
      ensures Valid() && stop == old(stop) && given == old(given) && gained == old(gained)
      ensures ret < 0 <==> setFlags < 0
      ensures overrun <==> setFlags >= 0 && old(nfds) == MAX_FDS
      ensures setFlags < 0 || overrun ==> nfds == old(nfds) && rows == old(rows) && nextId == old(nextId)
      ensures setFlags >= 0 && !overrun ==>
        var r := Row(FdState(state, NONE, NONE), PollFd(fd, Events(true, false), QUIET), old(nextId));
        nfds == old(nfds) + 1 && rows == old(rows)[old(nfds) := r] && nextId == old(nextId) + 1
    {
      if setFlags < 0 { return -1; }
      var idx := nfds;
      if idx == MAX_FDS {
        overrun := true;
        return 0;
      }
      nfds := nfds + 1;
      Put(idx, FdState(state, NONE, NONE), PollFd(fd, Events(true, false), QUIET), nextId);
      nextId := nextId + 1;
      return 0;
    }

    /** Gives back what an entry owns and marks it closed. */
    method RemoveFd(idx: nat)
      requires Valid() && idx < MAX_FDS
      modifies fdState, pollFds, this`rows, this`given
      ensures Valid() && given == Plus(old(given), OwnedBy(old(rows)[idx]))
      ensures rows == old(rows)[idx := Row(FdState(Closed, NONE, NONE), PollFd(NONE, QUIET, QUIET), old(rows)[idx].id)]
    {
      hide OwnedBy, Plus;
      OwnedParts(given, rows[idx]);
      var state := fdState[idx].state;
      if state == FdSent || state == Mounted {
        CloseFuse(fdState[idx].fuseFd);
        Unmount(fdState[idx].pid);
      }
      if state == FdSent || state == Mounted || state == Accepted {
        CloseConn(pollFds[idx].fd);
      }
      Put(idx, FdState(Closed, NONE, NONE), PollFd(NONE, QUIET, QUIET), rows[idx].id);
    }

    method CloseFuse(fd: int)
      modifies this`given
      ensures given == old(given).(fuses := old(given).fuses + multiset{fd})
    {
      given := given.(fuses := given.fuses + multiset{fd});
    }

    method Unmount(pid: int)
      modifies this`given
      ensures given == old(given).(pids := old(given).pids + multiset{pid})
    {
      given := given.(pids := given.pids + multiset{pid});
    }

    method CloseConn(fd: int)
      modifies this`given
      ensures given == old(given).(conns := old(given).conns + multiset{fd})
    {
      given := given.(conns := given.conns + multiset{fd});
    }

    /** Everything gained so far was given back or is owned by `row` or the rest. */
    ghost predicate Balanced(row: Row, rest: Owned)
      reads this
    {
      gained == Plus(given, Plus(OwnedBy(row), rest))
    }

    /** Takes a connection: it is closed at once, appended, or lost when it refuses to become non-blocking. */
    method Accept(a: Reply)
      requires Valid() && !overrun
      modifies this, fdState, pollFds
      ensures Valid() && stop == old(stop)
      ensures gained == if a.connFd >= 0 then Plus(old(gained), Conn(a.connFd)) else old(gained)
      ensures given == if a.connFd >= 0 && a.passCred < 0 then Plus(old(given), Conn(a.connFd)) else old(given)
      ensures var brings := a.connFd >= 0 && a.passCred >= 0 && a.setFlags >= 0;
        && (overrun <==> brings && old(nfds) == MAX_FDS)
        && (brings && !overrun ==>
              nfds == old(nfds) + 1 && rows == old(rows)[old(nfds) := AcceptedRow(a.connFd, old(nextId))] &&
              nextId == old(nextId) + 1)
        && (!brings || overrun ==> nfds == old(nfds) && rows == old(rows) && nextId == old(nextId))
    {
      if a.connFd < 0 { return; }
      gained := Plus(gained, Conn(a.connFd));
      if a.passCred < 0 {
        ClosedConn(given, a.connFd);
        CloseConn(a.connFd);
        return;
      }
      var ret := AddFd(a.connFd, Accepted, a.setFlags);
    }

    /** Mounts for a process; the entry is dropped if that fails. */
    method MountFor(idx: nat, a: Reply, ghost rest: Owned)
      requires Valid() && idx < nfds && rows[idx].st.state == Accepted && Balanced(rows[idx], rest)
      requires a.received >= 0 && a.action == Mount
      modifies fdState, pollFds, this`rows, this`given, this`gained
      ensures Valid() && rows == old(rows)[idx := AfterInput(old(rows)[idx], a)] && Balanced(rows[idx], rest)
      ensures gained == Plus(old(gained), InputGain(old(rows)[idx], a))
    {
      hide Plus, OwnedBy;
      PlusNone(gained);
      ghost var r := rows[idx];
      if a.pid < 0 || a.fuseFd < 0 {
        Drop(idx, rest);
        return;
      }
      var poll := pollFds[idx];
      Put(idx, FdState(Mounted, a.pid, a.fuseFd), poll.(events := Events(poll.events.input, true)), rows[idx].id);
      MountGained(gained, given, OwnedBy(r), rest, a.fuseFd, a.pid);
      MountAdds(gained, a.fuseFd, a.pid);
      MountOwned(r, rows[idx], a.fuseFd, a.pid);
      gained := gained.(fuses := gained.fuses + multiset{a.fuseFd}, pids := gained.pids + multiset{a.pid});
    }

    /** Removes an entry and keeps the balance. */
    method Drop(idx: nat, ghost rest: Owned)
      requires Valid() && idx < MAX_FDS && Balanced(rows[idx], rest)
      modifies fdState, pollFds, this`rows, this`given
      ensures Valid() && rows == old(rows)[idx := ClosedRow(old(rows)[idx].id)] && Balanced(rows[idx], rest)
    {
      hide Plus, OwnedBy;
      GivenBack(gained, given, OwnedBy(rows[idx]), rest);
      ClosedOwnsNothing(rows[idx].id);
      RemoveFd(idx);
    }

    /** Reads a message and does what it asks. */
    method Receive(idx: nat, a: Reply, ghost rest: Owned)
      requires Valid() && idx < nfds && rows[idx].st.state == Accepted && Balanced(rows[idx], rest)
      modifies fdState, pollFds, this`rows, this`given, this`gained, this`stop
      ensures Valid() && rows == old(rows)[idx := AfterInput(old(rows)[idx], a)] && Balanced(rows[idx], rest)
      ensures gained == Plus(old(gained), InputGain(old(rows)[idx], a))
      ensures stop == (old(stop) || (a.received >= 0 && a.action == Stop))
    {
      hide Plus;
      PlusNone(gained);
      if a.received < 0 {
        Drop(idx, rest);
        return;
      }
      match a.action {
        case Stop => stop := true;
        case Mount => MountFor(idx, a, rest);
        case Nop => Drop(idx, rest);
        case OtherAction => Drop(idx, rest);
      }
    }

    /** The entry at `idx` is readable; a listening entry may append a connection. */
    method HandlePollin(idx: nat, a: Reply, ghost rest: Owned)
      requires Valid() && !overrun && idx < nfds && rows[idx].st.state != Closed && Balanced(rows[idx], rest)
      requires rows[idx].poll.revents.input
      modifies this, fdState, pollFds
      ensures Valid() && (overrun <==> Brings(old(rows)[idx], a) && old(nfds) == MAX_FDS)
      ensures !overrun ==>
        && Appended(old(rows)[idx := AfterInput(old(rows)[idx], a)], old(nfds), old(nextId), Brings(old(rows)[idx], a),
                    a.connFd)
        && Balanced(rows[idx], Plus(rest, Plus(OwnedByAll(rows[old(nfds)..nfds]), LostBy(old(rows)[idx], a))))
      ensures stop == (old(stop) || Asks(old(rows)[idx], a))
      ensures gained == Plus(old(gained), GainOf(old(rows)[idx], a))
    {
      hide Plus, OwnedBy, OwnedByAll, Conn;
      PlusNone(gained);
      ghost var r := rows[idx];
      ConnOwned(a.connFd, nextId);
      if fdState[idx].state == Listening {
        var n := nfds;
        Accept(a);
        if overrun { return; }
        ghost var made := rows[n..nfds];
        assert made == if Brings(r, a) then [AcceptedRow(a.connFd, old(nextId))] else [];
        ConnGained(old(gained), old(given), OwnedBy(r), rest, Conn(a.connFd), OwnedByAll(made), LostBy(r, a));
      } else if fdState[idx].state == Accepted {
        Receive(idx, a, rest);
      } else {
        Drop(idx, rest);
      }
      if !(r.st.state == Listening && a.connFd >= 0 && a.passCred >= 0) { NoneGained(rest, rows[old(nfds)..nfds]); }
    }

    /** The table is `was`, with one more entry at the end if `brings`. */
    ghost predicate Appended(was: seq<Row>, n: nat, id: nat, brings: bool, fd: int)
      requires |was| == MAX_FDS
      reads this
    {
      if brings then n < MAX_FDS && nfds == n + 1 && rows == was[n := AcceptedRow(fd, id)] && nextId == id + 1
      else nfds == n && rows == was && nextId == id
    }

    /** The entry at `idx` is writable. */
    method HandlePollout(idx: nat, a: Reply, ghost rest: Owned)
      requires Valid() && idx < nfds && Balanced(rows[idx], rest)
      modifies fdState, pollFds, this`rows, this`given
      ensures Valid() && rows == old(rows)[idx := AfterOutput(old(rows)[idx], a)] && Balanced(rows[idx], rest)
    {
      hide Plus;
      if fdState[idx].state != Mounted || a.sent < 0 {
        Drop(idx, rest);
        return;
      }
      var poll := pollFds[idx];
      Put(idx, fdState[idx].(state := FdSent), poll.(events := Events(poll.events.input, false)), rows[idx].id);
    }

    /** Serves the events of the entry at `idx`. */
    method ServeEntry(idx: nat, a: Reply, ghost rest: Owned)
      requires Valid() && !overrun && idx < nfds && rows[idx].st.state != Closed && Balanced(rows[idx], rest)
      modifies this, fdState, pollFds
      ensures Valid() && (overrun <==> Brings(old(rows)[idx], a) && old(nfds) == MAX_FDS)
      ensures !overrun ==>
        && Appended(old(rows)[idx := Served(old(rows)[idx], a)], old(nfds), old(nextId), Brings(old(rows)[idx], a),
                    a.connFd)
        && Balanced(rows[idx], Plus(rest, Plus(OwnedByAll(rows[old(nfds)..nfds]), LostBy(old(rows)[idx], a))))
      ensures stop == (old(stop) || Asks(old(rows)[idx], a))
      ensures gained == Plus(old(gained), GainOf(old(rows)[idx], a))
    {
      hide Plus, OwnedByAll, Balanced;
      PlusNone(gained);
      ghost var n, r := nfds, rows[idx];
      if pollFds[idx].revents.input {
        HandlePollin(idx, a, rest);
        if overrun { return; }
      } else {
        NoneGained(rest, rows[n..nfds]);
      }
      ghost var now := Plus(rest, Plus(OwnedByAll(rows[n..nfds]), LostBy(r, a)));
      if pollFds[idx].revents.output {
        ghost var was := rows[n..nfds];
        HandlePollout(idx, a, now);
        assert rows[n..nfds] == was;
      }
    }

    /** Polling fills in the events of every entry. */
    method PollEvents(round: Round)
      requires Valid()
      modifies pollFds, this`rows
      ensures Valid() && rows == Polled(old(rows)[..nfds], round) + old(rows)[nfds..]
    {
      hide Polled;
      ghost var was := rows;
      NonePolled(was, round);
      for i := 0 to nfds
        invariant Valid() && rows == Polled(was[..i], round) + was[i..]
      {
        PolledStep(was, i, round);
        pollFds[i] := pollFds[i].(revents := round.revents(i));
        rows := rows[i := rows[i].(poll := pollFds[i])];
      }
    }

    method CopyFdState(dest: nat, src: nat)
      requires Valid() && dest <= src < MAX_FDS
      modifies fdState, pollFds, this`rows
      ensures Valid() && rows == old(rows)[dest := old(rows)[src]]
    {
      if dest != src {
        fdState[dest] := fdState[src];
        pollFds[dest] := pollFds[src];
        rows := rows[dest := rows[src]];
      }
    }

    /** What was gained and not given back is what the entries of `list` own, and what was lost. */
    ghost predicate Accounts(list: seq<Row>, lost: Owned)
      reads this
    {
      gained == Plus(given, Plus(OwnedByAll(list), lost))
    }

    /** Serves the entry at `idx` and moves it down to `valid` if it is still open. */
    method ScanEntry(
      idx: nat, valid: nat, round: Round, ghost was: seq<Row>, ghost more: seq<Row>, ghost next0: nat,
      ghost lost0: Owned, ghost lost: Owned, ghost gained0: Owned, ghost stop0: bool
    ) returns (valid': nat, ghost more': seq<Row>, ghost lost': Owned)
      requires Valid() && !overrun && valid <= idx < nfds
      requires ScanInv(rows, valid, idx, nfds, was, more, round, nextId)
      requires Accounts(rows[..valid] + rows[idx..nfds], lost)
      requires Noted(was, more, idx, round, next0, nextId, lost0, lost, gained0, gained, stop0, stop)
      modifies this, fdState, pollFds
      ensures Valid() && (overrun ==> Crowded(was, round))
      ensures !overrun ==>
        && valid' <= idx + 1 <= nfds && ScanInv(rows, valid', idx + 1, nfds, was, more', round, nextId)
        && Accounts(rows[..valid'] + rows[idx + 1..nfds], lost')
        && Noted(was, more', idx + 1, round, next0, nextId, lost0, lost', gained0, gained, stop0, stop)
    {
      hide Plus, OwnedByAll, OwnedBy, ListOk, Done, Remaining, Served, Brings, Loses, Open, ScanInv, TableAfter,
           Brought, Noted, Asks, Crowded;
      ghost var before, n, id := rows, nfds, nextId;
      ghost var a, b := rows[..valid], rows[idx + 1..nfds];
      ScanStep(rows, valid, idx, nfds, was, more, round, nextId);
      NotedStep(rows, valid, idx, nfds, was, more, round, next0, nextId, lost0, lost, gained0, gained, stop0, stop);
      EntryOpen(rows, valid, idx, nfds, was, more, round, nextId);
      if pollFds[idx].events == QUIET {
        assert false;
      }
      Around(rows, valid, idx, nfds);
      AccountsOfEntry(gained, given, a, rows[idx], b, lost);
      ServeEntry(idx, round.replies(idx), Plus(OwnedByAll(a + b), lost));
      valid', more', lost' := valid, more, lost;
      if overrun { return; }
      IsTableAfter(before, idx, n, round, id);
      TableParts(before, valid, idx, n, round, id);
      ghost var s, leak := rows[idx], LostBy(before[idx], round.replies(idx));
      ServedAccounts(gained, given, a, s, b, rows[n..nfds], lost, leak);
      OpenSize(s);
      if fdState[idx].state != Closed {
        CopyFdState(valid, idx);
        valid' := valid + 1;
      }
      more', lost' := more + Brought(before, idx, n, round, id), Plus(lost, leak);
    }

    /**
     * Serves every entry once and compacts the open ones in place. The entries that are still open keep their
     * order, and connections accepted meanwhile follow them. The arrays are overrun exactly when too many come.
     */
    method ScanEntries(round: Round, ghost lost0: Owned)
      requires Valid() && !overrun && ListOk(rows[..nfds], nextId) && Accounts(rows[..nfds], lost0)
      modifies this, fdState, pollFds
      ensures Valid() && (overrun <==> Crowded(old(rows)[..old(nfds)], round))
      ensures !overrun ==>
        var was := old(rows)[..old(nfds)];
        var more := Arrivals(was, round, |was|, old(nextId));
        && rows[..nfds] == Remaining(was, round) + more && nextId == old(nextId) + |more|
        && ListOk(rows[..nfds], nextId)
        && Accounts(rows[..nfds], Plus(lost0, Losses(was, round, |was|)))
        && gained == Plus(old(gained), Gains(was, round, |was|))
        && (stop <==> old(stop) || StopAsked(was, round, |was|))
    {
      hide Plus, OwnedByAll, OwnedBy, ListOk, Remaining, ScanInv, Noted, Arrivals, StopAsked, Losses, Crowded;
      ghost var was := rows[..nfds];
      ghost var more, lost := [], lost0;
      var idx: nat, valid: nat := 0, 0;
      ScanStart(rows, nfds, was, round, nextId);
      NotedNone(was, round, nextId, lost, gained, stop);
      while idx < nfds
        invariant Valid() && !overrun && valid <= idx <= nfds
        invariant ScanInv(rows, valid, idx, nfds, was, more, round, nextId)
        invariant Accounts(rows[..valid] + rows[idx..nfds], lost)
        invariant Noted(was, more, idx, round, old(nextId), nextId, lost0, lost, old(gained), gained, old(stop), stop)
        decreases MAX_FDS - idx
      {
        valid, more, lost := ScanEntry(idx, valid, round, was, more, old(nextId), lost0, lost, old(gained), old(stop));
        if overrun { return; }
        idx := idx + 1;
      }
      ScanEnd(rows, valid, nfds, was, more, round, nextId);
      NotedAll(was, more, nfds, round, old(nextId), nextId, lost0, lost, old(gained), gained, old(stop), stop);
      nfds := valid;
    }

    /** One pass over the entries: each meets its fate, and what those owned that are gone is closed. */
    method Scan(round: Round, ghost lost0: Owned)
      requires Valid() && !overrun && ListOk(rows[..nfds], nextId) && Accounts(rows[..nfds], lost0)
      modifies this, fdState, pollFds
      ensures Valid() && (overrun <==> Crowded(old(rows)[..old(nfds)], round))
      ensures !overrun ==>
        var was := old(rows)[..old(nfds)];
        var more := Arrivals(was, round, |was|, old(nextId));
        && rows[..nfds] == Remaining(was, round) + more && nextId == old(nextId) + |more|
        && FatesOf(was, round, rows[..nfds]) && ListOk(rows[..nfds], nextId)
        && Accounts(rows[..nfds], Plus(lost0, Losses(was, round, |was|)))
        && gained == Plus(old(gained), Gains(was, round, |was|))
        && given == Plus(old(given), Returned(was, round, rows[..nfds], |was|))
        && (stop <==> old(stop) || StopAsked(was, round, |was|))
    {
      hide Plus, OwnedByAll, OwnedBy, ListOk, Remaining, Arrivals, StopAsked, Losses, Gains, Crowded, FatesOf, Returned;
      ghost var was := rows[..nfds];
      ScanEntries(round, lost0);
      if overrun { return; }
      ScanFates(was, round, old(nextId));
      ScanCloses(was, round, old(nextId), old(gained), old(given), lost0, gained, given);
    }

    /** Removes the entries from the last to the first. */
    method RemoveAllFds(ghost lost: Owned)
      requires Valid() && Accounts(rows[..nfds], lost)
      modifies this, fdState, pollFds
      ensures Valid() && nfds == 0 && gained == Plus(given, lost) && gained == old(gained)
      ensures stop == old(stop) && overrun == old(overrun)
    {
      hide Plus, OwnedByAll, OwnedBy;
      while nfds > 0
        invariant Valid() && Accounts(rows[..nfds], lost) && gained == old(gained)
        invariant stop == old(stop) && overrun == old(overrun)
      {
        ghost var front, last := rows[..nfds - 1], rows[nfds - 1];
        assert rows[..nfds] == front + [last];
        LastGiven(gained, given, front, last, lost);
        nfds := nfds - 1;
        RemoveFd(nfds);
        assert rows[..nfds] == front;
      }
      assert rows[..0] == [];
      NoneOwned(lost);
    }

    /** A turn of the loop whose polling succeeded; `rest` are the turns from this one on. */
    method ReadyTurn(round: Round, ghost fate: Fate, ghost lost: Owned, ghost rest: seq<Round>)
      returns (ghost lost': Owned)
      requires Valid() && !overrun && ListOk(rows[..nfds], nextId) && Accounts(rows[..nfds], lost)
      requires round.polled == Ready && rest != [] && rest[0] == round && stop == round.signal
      requires RunAt(fate, rows[..nfds], nextId, gained, lost, false, rest)
      modifies this, fdState, pollFds
      ensures Valid() && (overrun ==> fate.end == Overrun)
      ensures !overrun ==>
        && ListOk(rows[..nfds], nextId) && Accounts(rows[..nfds], lost')
        && RunAt(fate, rows[..nfds], nextId, gained, lost', stop, rest[1..])
    {
      hide Plus, OwnedByAll, OwnedBy, ListOk, Remaining, Polled, RunAt, Crowded, Arrivals, Losses, Gains, StopAsked;
      ghost var was := rows[..nfds];
      lost' := lost;
      RunTurn(fate, was, nextId, gained, lost, rest);
      PollEvents(round);
      assert rows[..nfds] == Polled(was, round);
      PolledList(was, round, nextId);
      Scan(round, lost);
      if overrun { return; }
      lost' := Plus(lost, Losses(Polled(was, round), round, |was|));
    }

    /**
     * The daemon for as many turns as `rounds` tells does what `RunOf` says: how it ends, the entries it is left with,
     * and what was gained and not given back. A stopped run has given back everything exactly when it lost nothing,
     * and a failed one when moreover no entry owned anything.
     */
    method Loop(listenFd: int, setFlags: int, rounds: seq<Round>) returns (ret: int)
      requires Valid() && !overrun && gained == NOTHING && given == NOTHING && nextId == 0
      modifies this, fdState, pollFds
      ensures Valid()
      ensures var first := FirstList(listenFd, setFlags);
        var fate := RunOf(first, |first|, rounds);
        && (overrun <==> fate.end == Overrun) && (!overrun ==> gained == fate.gained)
        && (fate.end == Stopped ==>
              ret == 0 && stop && nfds == 0 && gained == Plus(given, fate.lost) &&
              (gained == given <==> Tight(first, |first|, rounds)))
        && (fate.end == Failing ==> ret < 0)
        && (fate.end == Going ==> ret == 0 && !stop)
        && (fate.end == Failing || fate.end == Going ==>
              rows[..nfds] == fate.list && ListOk(fate.list, nextId) && Accounts(fate.list, fate.lost) &&
              (gained == given <==> Tight(first, |first|, rounds) && OwnsNothing(fate.list)))
    {
      hide Plus, OwnedByAll, OwnedBy, ListOk, Remaining, Polled, RunOf, Tight, Crowded, Arrivals, Losses, StopAsked,
           OwnsNothing;
      nfds, stop := 0, false;
      ret := AddFd(listenFd, Listening, setFlags);
      ret := 0;
      ghost var first := FirstList(listenFd, setFlags);
      ghost var fate := RunOf(first, |first|, rounds);
      ghost var lost := NOTHING;
      assert rows[..nfds] == first;
      FirstEntry(listenFd, setFlags);
      RunStarts(first, |first|, rounds);
      NothingLostIff(first, |first|, rounds);
      var i := 0;
      while i < |rounds| && !stop
        invariant Valid() && !overrun && 0 <= i <= |rounds| && ListOk(rows[..nfds], nextId)
        invariant Accounts(rows[..nfds], lost)
        invariant RunAt(fate, rows[..nfds], nextId, gained, lost, stop, rounds[i..])
        decreases |rounds| - i
      {
        var round := rounds[i];
        ghost var was, next := rows[..nfds], nextId;
        assert rounds[i..][0] == round && rounds[i..][1..] == rounds[i + 1..];
        RunTurn(fate, was, next, gained, lost, rounds[i..]);
        i := i + 1;
        stop := stop || round.signal;
        if round.polled == Failed {
          BalanceIff(gained, given, was, lost);
          return -1;
        }
        if round.polled == Ready {
          lost := ReadyTurn(round, fate, lost, rounds[i - 1..]);
          if overrun { return; }
        }
      }
      BalanceIff(gained, given, rows[..nfds], lost);
      if !stop {
        RunEnds(fate, rows[..nfds], nextId, gained, lost, rounds[i..]);
        return;
      }
      RemoveAllFds(lost);
      PlusNothing(given, lost);
    }
  }
}
