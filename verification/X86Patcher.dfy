/** Code memory as it is patched and restored in place. */
module X86Patcher {
  import opened Words
  import opened Bytes
  import opened BistroStatus
  import opened X86Isa
  import opened X86Relocator
  import opened X86Meaning
  import opened X86Patch
  import opened X86Hazards

  const NONE := -1

  /** The bytes that were at `addr`. */
  datatype RestorePoint = RestorePoint(addr: int, orig: seq<byte>)

  /** Memories with the same bytes outside `[lo, hi)`. */
  ghost predicate SameOutside(m: Memory, n: Memory, lo: int, hi: int) {
    forall a {:trigger At(n, a)} :: !(lo <= a < hi) ==> At(n, a) == At(m, a)
  }

  lemma PokeOutside(m: Memory, a: int, bs: seq<byte>, lo: int, hi: int)
    requires lo <= a && a + |bs| <= hi
    ensures SameOutside(m, Poke(m, a, bs), lo, hi)
  {
    forall x ensures !(lo <= x < hi) ==> At(Poke(m, a, bs), x) == At(m, x) { PokeAt(m, a, bs, x); }
  }

  lemma HeldOutside(m: Memory, n: Memory, lo: int, hi: int, a: int, bs: seq<byte>)
    requires SameOutside(m, n, lo, hi) && Held(m, a, bs) && (a + |bs| <= lo || hi <= a)
    ensures Held(n, a, bs)
  {
    forall i | 0 <= i < |bs| ensures At(n, a + i) == bs[i] { HeldAt(m, a, bs, i); }
  }

  /** `c1` is `c0` with `func` redirected to `hook` and the original callable at `orig`. */
  ghost predicate Installed(c0: Memory, c1: Memory, func: word, hook: word, orig: int) {
    var n := |PatchBytes(func, hook)|;
    var end := Stop(c0, func, func + n);
    && Movable(c0, func, func + n, Room(n)) && 0 <= end && orig >= 8 && orig + Room(n) + 6 < W64
    && Held(c1, orig - 8, Trampoline(end, Moved(c0, func, end)))
    && Held(c1, func, PatchBytes(func, hook))
  }

  /** The run of the original prefix from `s`, against a call of the relocated original. */
  ghost predicate CallsOriginal(c0: Memory, c1: Memory, s: Cpu, orig: nat, n: nat, k: nat)
    requires Wf(s)
  {
    var s1, t1 := Steps(c0, s, n), Steps(c1, s.(pc := orig), k);
    t1.pc == s1.pc && Same(s1, t1, Dirty(c0, s, n, {}))
  }

  /**
   * A patched function: from every state, calling it arrives at the hook after `h` steps, and calling the relocated
   * original does what the original prefix did in the `n` steps in which it left the prefix. The one condition is
   * that no load of the original run touches scratch, which a prefix that never reads scratch guarantees.
   */
  lemma PatchedBehaves(c0: Memory, c1: Memory, func: word, hook: word, orig: nat, s: Cpu) returns (h: nat, n: nat)
    requires Installed(c0, c1, func, hook, orig) && Wf(s) && s.pc == func && func + 12 < W64
    ensures Steps(c1, s, h) == s.(pc := hook, regs := if Near(func, hook) then s.regs else s.regs[RAX := hook])
    ensures var end := Stop(c0, func, func + |PatchBytes(func, hook)|);
      && end >= func + |PatchBytes(func, hook)| && Prefix(c0, func, end) && Leaves(c0, s, n, func, end)
      && (ScratchUnread(c0, func, end, Reg(s, RSP), {}) ==> LoadsClean(c0, s, n, {}))
    ensures LoadsClean(c0, s, n, {}) ==> exists k :: CallsOriginal(c0, c1, s, orig, n, k)
  {
    hide Decode, Prefix, JumpsPast, Moved, Stop, Held, Trampoline, PatchBytes, Leaves, LoadsClean, Steps, Dirty, Same;
    hide ScratchUnread;
    var len := |PatchBytes(func, hook)|;
    var end := Stop(c0, func, func + len);
    PatchReaches(c1, s, hook);
    h := if Near(func, hook) then 1 else 2;
    n := PrefixLeft(c0, s, func, end);
    if ScratchUnread(c0, func, end, Reg(s, RSP), {}) { UnreadIsClean(c0, s, func, end, n, {}, {}); }
    if LoadsClean(c0, s, n, {}) {
      var k := OriginalPreserved(c0, s, func + len, Room(len), n, c1, orig - 8);
      assert CallsOriginal(c0, c1, s, orig, n, k);
    }
  }

  /**
   * Restoring undoes patching: `between` differs from `before` in the overwritten bytes and in `lo..hi` at most, and
   * `after` has the saved bytes back and is otherwise `between`.
   */
  lemma RestoreUndoes(before: Memory, between: Memory, after: Memory, rp: RestorePoint, n: nat, lo: int, hi: int)
    requires rp.orig == Peek(before, rp.addr, n)
    requires forall a :: At(between, a) != At(before, a) ==> lo <= a < hi || rp.addr <= a < rp.addr + n
    requires Held(after, rp.addr, rp.orig) && SameOutside(between, after, rp.addr, rp.addr + n)
    ensures SameOutside(before, after, lo, hi)
  {
    hide Peek, Held;
    forall a | !(lo <= a < hi) ensures At(after, a) == At(before, a) {
      if rp.addr <= a < rp.addr + n {
        HeldAt(before, rp.addr, rp.orig, a - rp.addr);
        HeldAt(after, rp.addr, rp.orig, a - rp.addr);
      } else {
        assert At(after, a) == At(between, a);
      }
    }
  }

  /** Patching, if it succeeds, and then restoring leaves every byte outside the newly used area as it was. */
  method PatchThenRestore(p: Patcher, func: word, hook: word, reply: int) returns (ok: bool)
    requires p.Valid() && (reply == NONE || 0 <= reply <= W64 / 2)
    requires var a := if p.area == NONE then reply else p.area;
      a == NONE || func + 12 <= a || a + AREA_SIZE <= func
    modifies p
    ensures SameOutside(old(p.code), p.code, p.area + old(p.offset), p.area + p.offset)
    ensures var n := |PatchBytes(func, hook)|;
      ok <==> p.area != NONE && old(p.offset) + Align16(Room(n) + 14) <= AREA_SIZE &&
              Movable(old(p.code), func, func + n, Room(n))
  {
    hide PatchBytes, Peek, Poke, Held, Installed, Movable;
    var orig, rp;
    ghost var before := p.code;
    ok, orig, rp := p.Patch(func, hook, true, reply);
    if ok {
      ghost var between := p.code;
      p.Restore(rp);
      RestoreUndoes(before, between, p.code, rp, |PatchBytes(func, hook)|, p.area + old(p.offset), p.area + p.offset);
    }
  }

  class Patcher {
    var code: Memory
    /** The executable block, mapped on first use, and how much of it is handed out. */
    var area: int
    var offset: nat

    ghost predicate Valid()
      reads this
    {
      offset <= AREA_SIZE && (area != NONE ==> 0 <= area <= W64 / 2)
    }

    constructor (code: Memory)
      ensures Valid() && this.code == code && area == NONE && offset == 0
    {
      this.code, area, offset := code, NONE, 0;
    }

    /** Hands out blocks of the area one after the other; `reply` is what mapping the area would return. */
    method AllocateCode(size: nat, reply: int) returns (p: int)
      requires Valid() && (reply == NONE || 0 <= reply <= W64 / 2)
      modifies this`area, this`offset
      ensures Valid() && area == (if old(area) == NONE then reply else old(area))
      ensures p == NONE <==> area == NONE || old(offset) + Align16(size) > AREA_SIZE
      ensures p == NONE ==> offset == old(offset)
      ensures p != NONE ==> p == area + old(offset) && p + size <= area + offset < p + size + 16
    {
      if area == NONE {
        area := reply;
        if area == NONE { return NONE; }
      }
      var allocSize := Align16(size);
      if allocSize + offset > AREA_SIZE { return NONE; }
      p := area + offset;
      offset := offset + allocSize;
    }

    /** Builds the callable copy of a function whose first `patchLen` bytes will be overwritten. */
    method ConstructOrigFunc(func: word, patchLen: nat, reply: int) returns (orig: int)
      requires Valid() && (reply == NONE || 0 <= reply <= W64 / 2)
      modifies this
      ensures Valid() && area == (if old(area) == NONE then reply else old(area)) && offset >= old(offset)
      ensures SameOutside(old(code), code, area + old(offset), area + offset)
      ensures orig != NONE <==> area != NONE && old(offset) + Align16(Room(patchLen) + 14) <= AREA_SIZE &&
                                Movable(old(code), func, func + patchLen, Room(patchLen))
      ensures orig != NONE ==> orig == area + old(offset) + 8 && orig + Room(patchLen) + 6 <= area + offset
      ensures orig != NONE ==>
        var end := Stop(old(code), func, func + patchLen);
        0 <= end < W64 && Prefix(old(code), func, end) &&
        Held(code, orig - 8, Trampoline(end, Moved(old(code), func, end)))
    {
      hide Movable, Prefix, Moved, Stop, Decode, Held, Poke, Trampoline, SameOutside;
      var room := Room(patchLen);
      var base := AllocateCode(8 + room + 6, reply);
      ghost var lo, hi := area + old(offset), area + offset;
      PokeNothing(code, lo, hi);
      if base == NONE { return NONE; }
      var r := new Relocation(code, room);
      var st, codeLen, prefixLen := r.RelocateCode(func, patchLen);
      if st != Ok { return NONE; }
      MovableFits(code, func, func + patchLen, room);
      var bytes := Trampoline(func + prefixLen, r.out);
      PokeHeld(code, base, bytes);
      PokeOutside(code, base, bytes, lo, hi);
      code := Poke(code, base, bytes);
      return base + 8;
    }

    /** Redirects `func` to `hook`; `orig` is where the original can still be called. */
    method Patch(func: word, hook: word, wantOrig: bool, reply: int)
      returns (ok: bool, orig: int, rp: RestorePoint)
      requires Valid() && (reply == NONE || 0 <= reply <= W64 / 2)
      requires var a := if area == NONE then reply else area;
        a == NONE || func + 12 <= a || a + AREA_SIZE <= func
      modifies this
      ensures Valid() && area == (if wantOrig && old(area) == NONE then reply else old(area)) && offset >= old(offset)
      ensures ok && wantOrig ==> Installed(old(code), code, func, hook, orig)
      ensures ok ==> Held(code, func, PatchBytes(func, hook))
      ensures ok ==> rp == RestorePoint(func, Peek(old(code), func, |PatchBytes(func, hook)|))
      ensures !wantOrig ==> ok
      ensures wantOrig ==>
        var n := |PatchBytes(func, hook)|;
        ok <==> area != NONE && old(offset) + Align16(Room(n) + 14) <= AREA_SIZE &&
                Movable(old(code), func, func + n, Room(n))
      ensures forall a :: At(code, a) != At(old(code), a) ==>
        area + old(offset) <= a < area + offset || (ok && func <= a < func + |PatchBytes(func, hook)|)
    {
      hide Movable, Prefix, Moved, Stop, Decode, Held, Poke, Peek, Trampoline, PatchBytes;
      var patch := PatchBytes(func, hook);
      orig := NONE;
      rp := RestorePoint(func, []);
      ghost var before := code;
      if wantOrig {
        orig := ConstructOrigFunc(func, |patch|, reply);
        if orig == NONE { return false, NONE, rp; }
      }
      MovableFits(before, func, func + |patch|, Room(|patch|));
      ghost var between := code;
      PeekSame(before, code, func, |patch|);
      rp := RestorePoint(func, Peek(code, func, |patch|));
      PokeHeld(code, func, patch);
      PokeOutside(code, func, patch, func, func + |patch|);
      code := Poke(code, func, patch);
      if wantOrig {
        ghost var end := Stop(before, func, func + |patch|);
        HeldOutside(between, code, func, func + |patch|, orig - 8, Trampoline(end, Moved(before, func, end)));
      }
      forall a | At(code, a) != At(before, a)
        ensures area + old(offset) <= a < area + offset || func <= a < func + |patch|
      {
        if !(func <= a < func + |patch|) { assert At(code, a) == At(between, a); }
      }
      ok := true;
    }

    /** Puts the saved bytes back. */
    method Restore(rp: RestorePoint)
      modifies this`code
      ensures Held(code, rp.addr, rp.orig)
      ensures SameOutside(old(code), code, rp.addr, rp.addr + |rp.orig|)
    {
      PokeHeld(code, rp.addr, rp.orig);
      PokeOutside(code, rp.addr, rp.orig, rp.addr, rp.addr + |rp.orig|);
      code := Poke(code, rp.addr, rp.orig);
    }
  }

  lemma PokeNothing(m: Memory, lo: int, hi: int)
    ensures SameOutside(m, m, lo, hi)
  {
  }

  lemma MovableFits(c: Memory, src: int, limit: int, room: nat)
    ensures Movable(c, src, limit, room) ==>
      var end := Stop(c, src, limit);
      src <= end < W64 && Prefix(c, src, end) && |Moved(c, src, end)| <= room
  {
    hide Decode, Prefix, Moved, JumpsPast, Stop;
    if Movable(c, src, limit, room) { StopIs(c, src, limit); }
  }

  lemma {:induction false} PeekSame(m: Memory, n: Memory, a: int, len: nat)
    requires forall i {:trigger At(n, i)} :: a <= i < a + len ==> At(n, i) == At(m, i)
    ensures Peek(n, a, len) == Peek(m, a, len)
    decreases len
  {
    if len > 0 { PeekSame(m, n, a, len - 1); }
  }
}
