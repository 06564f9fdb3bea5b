/**
 * When the scratch bytes of a rewritten compare can be noticed. The condition here is read off the prefix and the
 * stack pointer on entry, before anything runs.
 */
module X86Hazards {
  import opened Words
  import opened Bytes
  import opened X86Isa
  import opened X86Relocator
  import opened X86Meaning

  /** The stack pointer after an instruction that the walk follows. */
  function NextSp(insn: Insn, sp: word): word {
    match insn
    case Push(_) => Wrap(sp - 8)
    case Pop(_) => Wrap(sp + 8)
    case SubImm(_, imm) => Wrap(sp - imm)
    case _ => sp
  }

  function NextSlots(insn: Insn, sp: word, slots: set<int>): set<int> {
    match insn
    case Push(_) => slots - Span8(Wrap(sp - 8))
    case CmpMem(_, _) => slots + Span8(Wrap(sp - 8))
    case _ => slots
  }

  /** The instruction reads no scratch slot and leaves the stack pointer where the walk puts it. */
  ghost predicate Tame(insn: Insn, sp: word, slots: set<int>) {
    match insn
    case Pop(r) => r != RSP && Span8(sp) !! slots
    case MovImm(r, _) => r != RSP
    case CmpMem(a, _) => Span4(a) !! slots + Span8(Wrap(sp - 8))
    case _ => true
  }

  /**
   * Walking the prefix with the stack pointer it will have: no pop reads a slot that an earlier compare used as
   * scratch and no push has refilled, no compare operand lies in such a slot or in its own scratch, and the stack
   * pointer is only moved by push, pop and sub.
   */
  ghost predicate ScratchUnread(code: Memory, p: int, end: int, sp: word, slots: set<int>)
    requires Prefix(code, p, end)
    decreases end - p
  {
    p == end ||
    var d := Decode(code, p);
    Tame(d.insn, sp, slots) &&
    ScratchUnread(code, p + d.len, end, NextSp(d.insn, sp), NextSlots(d.insn, sp, slots))
  }

  lemma StackFollowed(code: Memory, s: Cpu, dirty: set<int>, slots: set<int>)
    requires Wf(s) && Accepts(Decode(code, s.pc)) && dirty <= slots
    requires Tame(Decode(code, s.pc).insn, Reg(s, RSP), slots)
    ensures var insn := Decode(code, s.pc).insn;
      && Loads(insn, s) !! dirty + Scratch(insn, s)
      && Reg(Step(code, s), RSP) == NextSp(insn, Reg(s, RSP))
      && NextDirty(insn, s, dirty) <= NextSlots(insn, Reg(s, RSP), slots)
  {
    hide Decode, Span8, Span4, Wrap, Load8, Store8, SubFlags, Taken, Load4;
  }

  /** A prefix whose scratch is never read is clean on every run, from every state with that stack pointer. */
  lemma {:induction false} UnreadIsClean(
    code: Memory, s: Cpu, lo: int, end: int, n: nat, dirty: set<int>, slots: set<int>
  )
    requires Wf(s) && lo <= s.pc <= end < W64 && Prefix(code, s.pc, end) && JumpsPast(code, s.pc, end, end)
    requires ScratchUnread(code, s.pc, end, Reg(s, RSP), slots) && dirty <= slots
    requires Leaves(code, s, n, lo, end)
    ensures LoadsClean(code, s, n, dirty)
    decreases n
  {
    hide Decode, Accepts, Step, NextDirty, NextSlots, NextSp, Loads, Scratch, Tame, Taken, Wrap;
    if n > 0 {
      var d := Decode(code, s.pc);
      StackFollowed(code, s, dirty, slots);
      MovesOn(code, s);
      if FallsThrough(d.insn, s) {
        PrefixEnd(code, s.pc + d.len, end);
        Unwrapped(s.pc + d.len);
        UnreadIsClean(code, Step(code, s), lo, end, n - 1, NextDirty(d.insn, s, dirty),
                      NextSlots(d.insn, Reg(s, RSP), slots));
      }
    }
  }

  lemma Unwrapped(x: int)
    requires 0 <= x < W64
    ensures Wrap(x) == x
  {
  }

  /** A prefix without compares is always clean. */
  ghost predicate NoCompare(code: Memory, p: int, end: int)
    requires Prefix(code, p, end)
    decreases end - p
  {
    p == end || (!Decode(code, p).insn.CmpMem? && NoCompare(code, p + Decode(code, p).len, end))
  }

  lemma {:induction false} NoCompareIsClean(code: Memory, s: Cpu, lo: int, end: int, n: nat)
    requires Wf(s) && lo <= s.pc <= end < W64 && Prefix(code, s.pc, end) && JumpsPast(code, s.pc, end, end)
    requires NoCompare(code, s.pc, end) && Leaves(code, s, n, lo, end)
    ensures LoadsClean(code, s, n, {}) && Dirty(code, s, n, {}) == {}
    decreases n
  {
    hide Decode, Accepts, Step, Span8, Span4, Taken, Wrap, Loads, Stores;
    if n > 0 {
      var d := Decode(code, s.pc);
      MovesOn(code, s);
      assert NextDirty(d.insn, s, {}) == {};
      if FallsThrough(d.insn, s) {
        PrefixEnd(code, s.pc + d.len, end);
        Unwrapped(s.pc + d.len);
        NoCompareIsClean(code, Step(code, s), lo, end, n - 1);
      }
    }
  }

  // ---- a pop that does read a scratch slot -------------------------------------------------------------------

  lemma ExecTouches(c: Memory, s: Cpu, insn: Insn, len: nat)
    requires Wf(s)
    ensures Agree(s.mem, Exec(c, s, insn, len).mem, Stores(insn, s))
  {
    hide Agree, Store8, Load8, Load4, Span8, SubFlags, Taken, Wrap;
    AgreeSelf(s.mem);
    match insn
    case Push(r) =>
      Scratch8Agree(s.mem, s.mem, {}, Below(s), Reg(s, r));
      assert {} + Span8(Below(s)) == Span8(Below(s));
    case Store(src, base, index, scale, disp) =>
      if base < 16 && index < 16 {
        var a := Address(s, base, index, scale, disp);
        Scratch8Agree(s.mem, s.mem, {}, a, Reg(s, src));
        assert {} + Span8(a) == Span8(a);
      }
    case _ =>
  }

  /** The moved instruction writes where the original does, and a compare its scratch. */
  lemma MovedTouches(c0: Memory, s: Cpu, c1: Memory, t: Cpu, dirty: set<int>)
    requires Ready(c0, s, c1, t, dirty)
    ensures var insn := Decode(c0, s.pc).insn;
      Agree(t.mem, Steps(c1, t, StepCount(insn)).mem, Stores(insn, s) + Scratch(insn, s))
  {
    hide Decode, CompareCode, BranchCode, Peek, Held, Agree, Steps, Store8, Load4, Span8, Exec, SubFlags, Wrap, Taken;
    var d := Decode(c0, s.pc);
    DecodeFacts(c0, s.pc);
    AgreeSelf(t.mem);
    if d.insn.CmpMem? {
      CompareRun(c1, t, d.insn.addr, d.insn.imm);
      Scratch8Agree(t.mem, t.mem, {}, Below(t), t.regs[RAX]);
      assert {} + Span8(Below(t)) == Stores(d.insn, s) + Scratch(d.insn, s);
    } else if d.insn.Jcc? {
      BranchExec(s, c1, t, d.insn.cc, d.insn.target);
      assert {} == Stores(d.insn, s) + Scratch(d.insn, s);
    } else {
      CopyDecodes(c0, s.pc, c1, t.pc);
      OneStep(c1, t);
      ExecTouches(c1, t, d.insn, d.len);
      assert Stores(d.insn, t) == Stores(d.insn, s) + Scratch(d.insn, s);
    }
  }

  /** For `n` steps the original falls through and neither machine writes the eight bytes at `slot`. */
  ghost predicate SlotUntouched(c: Memory, s: Cpu, n: nat, slot: word)
    requires Wf(s)
    decreases n
  {
    n == 0 ||
    var insn := Decode(c, s.pc).insn;
    FallsThrough(insn, s) && Span8(slot) !! Stores(insn, s) + Scratch(insn, s) &&
    SlotUntouched(c, Step(c, s), n - 1, slot)
  }

  /** Both machines reach `mid` with what they had at `slot`. */
  lemma {:induction false} SlotKept(
    c0: Memory, s: Cpu, lo: int, mid: int, n: nat, c1: Memory, t: Cpu, dirty: set<int>, slot: word
  ) returns (k: nat)
    requires Wf(s) && Wf(t) && Same(s, t, dirty) && lo <= s.pc <= mid < W64 && Prefix(c0, s.pc, mid)
    requires Held(c1, t.pc, Moved(c0, s.pc, mid)) && t.pc + |Moved(c0, s.pc, mid)| < W64
    requires Leaves(c0, s, n, lo, mid) && LoadsClean(c0, s, n, dirty) && SlotUntouched(c0, s, n, slot)
    ensures var s1, t1 := Steps(c0, s, n), Steps(c1, t, k);
      Same(s1, t1, Dirty(c0, s, n, dirty)) && s1.pc == mid && t1.pc == t.pc + |Moved(c0, s.pc, mid)| &&
      Load8(s1.mem, slot) == Load8(s.mem, slot) && Load8(t1.mem, slot) == Load8(t.mem, slot)
    decreases n
  {
    hide Decode, Accepts, Translation, Held, Agree, Step, Loads, Stores, Scratch, NextDirty, Taken, Load8, Span8, Wrap;
    k := 0;
    if n > 0 {
      var d := Decode(c0, s.pc);
      var here, rest := Translation(c0, s.pc), Moved(c0, s.pc + d.len, mid);
      PrefixEnd(c0, s.pc + d.len, mid);
      HeldBoth(c1, t.pc, here, rest);
      OneSimulated(c0, s, c1, t, dirty);
      MovedTouches(c0, s, c1, t, dirty);
      OriginalTouches(c0, s);
      var s1, t1 := Step(c0, s), Steps(c1, t, StepCount(d.insn));
      LoadAgree(s.mem, s1.mem, Stores(d.insn, s), slot);
      LoadAgree(t.mem, t1.mem, Stores(d.insn, s) + Scratch(d.insn, s), slot);
      var j := SlotKept(c0, s1, lo, mid, n - 1, c1, t1, NextDirty(d.insn, s, dirty), slot);
      StepsSum(c1, t, StepCount(d.insn), j);
      k := StepCount(d.insn) + j;
    }
  }

  lemma OriginalTouches(c: Memory, s: Cpu)
    requires Wf(s)
    ensures Agree(s.mem, Step(c, s).mem, Stores(Decode(c, s.pc).insn, s))
  {
    hide Decode, Exec, Agree;
    ExecTouches(c, s, Decode(c, s.pc).insn, Decode(c, s.pc).len);
  }

  /** A pop, original and moved, from machines that agree on their registers. */
  lemma PopBoth(c0: Memory, s: Cpu, c1: Memory, t: Cpu)
    requires Wf(s) && Wf(t) && s.regs == t.regs && s.pc + 2 < W64
    requires Accepts(Decode(c0, s.pc)) && Decode(c0, s.pc).insn.Pop? && Decode(c0, s.pc).insn.r != RSP
    requires Held(c1, t.pc, Translation(c0, s.pc))
    ensures Step(c0, s).regs == Steps(c1, t, 1).regs <==>
      Load8(s.mem, Reg(s, RSP)) == Load8(t.mem, Reg(s, RSP))
  {
    hide Decode, Peek, Held, Load8, Steps, Wrap, CompareCode, BranchCode;
    CopyDecodes(c0, s.pc, c1, t.pc);
    OneStep(c1, t);
    PopRegister(c0, s.pc);
    var r := Decode(c0, s.pc).insn.r;
    var low := s.regs[RSP := Wrap(Reg(s, RSP) + 8)];
    var u, v := Load8(s.mem, Reg(s, RSP)), Load8(t.mem, Reg(s, RSP));
    assert Step(c0, s).regs == low[r := u] && Step(c1, t).regs == low[r := v];
    assert low[r := u][r] == u && low[r := v][r] == v;
  }

  lemma PopRegister(c: Memory, p: int)
    requires Accepts(Decode(c, p)) && Decode(c, p).insn.Pop?
    ensures Decode(c, p).insn.r < 16
  {
  }

  /**
   * The other direction: a pop whose stack pointer has come back to the scratch slot of an earlier compare, with
   * nothing written there since. The original pops what was below the stack, the moved code pops rax as it was at
   * the compare, and the registers agree exactly when those are equal.
   */
  lemma StalePop(c0: Memory, s: Cpu, mid: int, n: nat, c1: Memory, t: Cpu, dirty: set<int>) returns (k: nat)
    requires Ready(c0, s, c1, t, dirty) && Decode(c0, s.pc).insn.CmpMem? && s.pc + 10 <= mid && mid + 2 < W64
    requires Prefix(c0, s.pc + 10, mid) && Held(c1, t.pc + 18, Moved(c0, s.pc + 10, mid))
    requires t.pc + 18 + |Moved(c0, s.pc + 10, mid)| < W64
    requires Leaves(c0, Step(c0, s), n, s.pc, mid) && SlotUntouched(c0, Step(c0, s), n, Below(s))
    requires LoadsClean(c0, Step(c0, s), n, NextDirty(Decode(c0, s.pc).insn, s, dirty))
    requires Accepts(Decode(c0, mid)) && Decode(c0, mid).insn.Pop? && Decode(c0, mid).insn.r != RSP
    requires Held(c1, t.pc + 18 + |Moved(c0, s.pc + 10, mid)|, Translation(c0, mid))
    requires Reg(Steps(c0, s, n + 1), RSP) == Below(s)
    ensures var s1, t1 := Steps(c0, s, n + 2), Steps(c1, t, k);
      s1.regs == t1.regs <==> Load8(s.mem, Below(s)) == Reg(t, RAX)
  {
    hide Decode, Accepts, Translation, CompareCode, Held, Agree, Step, Loads, Stores, Scratch, NextDirty;
    hide Taken, Load8, Load4, Store8, Span8, Prefix, Moved, Leaves, SlotUntouched, LoadsClean, SubFlags;
    var slot := Below(s);
    AfterCompare(c0, s, c1, t, dirty);
    var s1, t1 := Step(c0, s), Steps(c1, t, 4);
    var j := SlotKept(c0, s1, s.pc, mid, n, c1, t1, NextDirty(Decode(c0, s.pc).insn, s, dirty), slot);
    var s2, t2 := Steps(c0, s1, n), Steps(c1, t1, j);
    assert Steps(c0, s, n + 1) == s2;
    PopBoth(c0, s2, c1, t2);
    StepsSum(c0, s, n + 1, 1);
    OneStep(c0, s2);
    StepsSum(c1, t, 4, j);
    StepsSum(c1, t, 4 + j, 1);
    k := 4 + j + 1;
  }

  /** Right after a compare the moved machine holds rax in the slot and the original what was there. */
  lemma AfterCompare(c0: Memory, s: Cpu, c1: Memory, t: Cpu, dirty: set<int>)
    requires Ready(c0, s, c1, t, dirty) && Decode(c0, s.pc).insn.CmpMem?
    ensures var s1, t1 := Step(c0, s), Steps(c1, t, 4);
      && Same(s1, t1, NextDirty(Decode(c0, s.pc).insn, s, dirty)) && s1.pc == s.pc + 10 && t1.pc == t.pc + 18
      && Load8(s1.mem, Below(s)) == Load8(s.mem, Below(s)) && Load8(t1.mem, Below(s)) == Reg(t, RAX)
  {
    hide Decode, CompareCode, BranchCode, Peek, Held, Agree, Steps, NextDirty, Store8, Load8, Load4, Span4, Span8;
    hide SubFlags, Scratch, Loads;
    var d := Decode(c0, s.pc);
    DecodeFacts(c0, s.pc);
    CompareLength(c0, s.pc);
    OneSimulated(c0, s, c1, t, dirty);
    CompareRun(c1, t, d.insn.addr, d.insn.imm);
    LoadBack(t.mem, Below(t), t.regs[RAX]);
  }
}
