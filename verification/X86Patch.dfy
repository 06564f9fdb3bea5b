/** Patching a function with a jump to a hook, and the relocated original it leaves callable. */
module X86Patch {
  import opened Words
  import opened Bytes
  import opened X86Isa
  import opened X86Relocator
  import opened X86Meaning

  const AREA_SIZE := 16384

  /** jmp [rip + disp] back to the slot in front of `n` bytes of code. */
  function JumpBack(n: nat): (bs: seq<byte>)
    ensures |bs| == 6
  {
    [0xFF, 0x25] + Le32(-(n + 14) % W32)
  }

  /** The address to continue at, the moved code, and the jump through the address. */
  function Trampoline(end: nat, moved: seq<byte>): (bs: seq<byte>)
    ensures |bs| == |moved| + 14
  {
    Le64(end) + moved + JumpBack(|moved|)
  }

  /** A short jump when the hook is near, and otherwise a jump through rax. */
  function PatchBytes(func: int, hook: nat): (bs: seq<byte>)
    ensures |bs| == if Near(func, hook) then 5 else 12
  {
    if Near(func, hook) then [0xE9] + Le32((hook - (func + 5)) % W32)
    else [0x48, 0xB8] + Le64(hook) + [0xFF, 0xE0]
  }

  predicate Near(func: int, hook: int) {
    -0x7FFF_FFFF < hook - (func + 5) < 0x7FFF_FFFF
  }

  function Room(patchLen: nat): nat {
    if patchLen + 36 > 64 then patchLen + 36 else 64
  }

  lemma JumpBackStep(c: Memory, t: Cpu, base: nat, end: nat, n: nat)
    requires Wf(t) && t.pc == base + 8 + n && t.pc + 6 < W64 && n + 14 <= 0x8000_0000
    requires Held(c, t.pc, JumpBack(n)) && U64(c, base) == end
    ensures Step(c, t) == t.(pc := end)
  {
    hide U64, U32, Held, At;
    JumpBackDecodes(c, t.pc, base, n);
  }

  lemma JumpBackDecodes(c: Memory, q: int, base: nat, n: nat)
    requires q == base + 8 + n && q + 6 < W64 && n + 14 <= 0x8000_0000 && Held(c, q, JumpBack(n))
    ensures Decode(c, q) == Decoded(0, JmpMem(base), 6)
  {
    hide U64, U32, Held, At;
    var d := -(n + 14);
    var bs := JumpBack(n);
    SignedField(d);
    assert bs[2..6] == Le32(d % W32);
    HeldPart(c, q, bs, 2, 6);
    U32Held(c, q + 2, d % W32);
    HeldAt(c, q, bs, 0);
    HeldAt(c, q, bs, 1);
  }

  /** Control that enters a patched function arrives at the hook with only rax changed, and that only when it is far. */
  lemma PatchReaches(c: Memory, s: Cpu, hook: word)
    requires Wf(s) && Held(c, s.pc, PatchBytes(s.pc, hook)) && s.pc + 12 < W64
    ensures Near(s.pc, hook) ==> Steps(c, s, 1) == s.(pc := hook)
    ensures !Near(s.pc, hook) ==> Steps(c, s, 2) == s.(pc := hook, regs := s.regs[RAX := hook])
  {
    hide Decode, Held, Step, Steps, PatchBytes;
    if Near(s.pc, hook) {
      NearDecodes(c, s.pc, hook);
      OneStep(c, s);
      JumpStep(c, s, hook);
    } else {
      FarDecodes(c, s.pc, hook);
      TwoSteps(c, s);
      LoadStep(c, s, hook);
      RegisterStep(c, Step(c, s));
    }
  }

  lemma JumpStep(c: Memory, t: Cpu, target: nat)
    requires Wf(t) && Decode(c, t.pc) == Decoded(0, Jmp(target), 5)
    ensures Step(c, t) == t.(pc := target)
  {
    hide Decode;
  }

  lemma RegisterStep(c: Memory, t: Cpu)
    requires Wf(t) && Decode(c, t.pc) == Decoded(0, JmpReg(RAX), 2)
    ensures Step(c, t) == t.(pc := t.regs[RAX])
  {
    hide Decode;
  }

  lemma NearDecodes(c: Memory, p: int, hook: word)
    requires Near(p, hook) && Held(c, p, PatchBytes(p, hook))
    ensures Decode(c, p) == Decoded(0, Jmp(hook), 5)
  {
    hide U64, U32, Held, At;
    var d := hook - (p + 5);
    var bs := PatchBytes(p, hook);
    SignedField(d);
    assert bs[1..5] == Le32(d % W32);
    HeldPart(c, p, bs, 1, 5);
    U32Held(c, p + 1, d % W32);
    HeldAt(c, p, bs, 0);
  }

  lemma FarDecodes(c: Memory, p: int, hook: word)
    requires !Near(p, hook) && Held(c, p, PatchBytes(p, hook))
    ensures Decode(c, p) == Decoded(0x48, MovImm(RAX, hook), 10)
    ensures Decode(c, p + 10) == Decoded(0, JmpReg(RAX), 2)
  {
    hide U64, U32, Held, At, Le64;
    var bs := PatchBytes(p, hook);
    assert bs[2..10] == Le64(hook);
    HeldPart(c, p, bs, 2, 10);
    U64Held(c, p + 2, hook);
    HeldAt(c, p, bs, 0);
    HeldAt(c, p, bs, 1);
    HeldAt(c, p, bs, 10);
    HeldAt(c, p, bs, 11);
  }

  /**
   * The relocated original: from any state, running it in the patched memory arrives where running the original
   * prefix in the unpatched memory leaves it, with the same registers and flags, and with the same data memory
   * except for scratch bytes of rewritten compares. Control never comes back below the end of the prefix.
   */
  lemma OriginalPreserved(c0: Memory, s: Cpu, limit: int, room: nat, n: nat, c1: Memory, base: nat) returns (k: nat)
    requires Wf(s) && Movable(c0, s.pc, limit, room) && room + 14 <= 0x8000_0000
    requires var end := Stop(c0, s.pc, limit);
      Held(c1, base, Trampoline(end, Moved(c0, s.pc, end))) && Leaves(c0, s, n, s.pc, end)
    requires base + room + 14 < W64 && LoadsClean(c0, s, n, {})
    ensures var s1, t1 := Steps(c0, s, n), Steps(c1, s.(pc := base + 8), k);
      t1.pc == s1.pc >= Stop(c0, s.pc, limit) >= limit && Same(s1, t1, Dirty(c0, s, n, {}))
  {
    hide Decode, Prefix, Moved, JumpsPast, Stop, Held, Agree, Leaves, LoadsClean, Dirty, Step, Trampoline, JumpBack;
    var end := Stop(c0, s.pc, limit);
    var moved := Moved(c0, s.pc, end);
    var t := s.(pc := base + 8);
    StopIs(c0, s.pc, limit);
    TrampolineParts(c1, base, end, moved);
    AgreeSelf(s.mem);
    k := PrefixSimulated(c0, s, s.pc, end, n, c1, t, {});
    var t1 := Steps(c1, t, k);
    if t1.pc != Steps(c0, s, n).pc {
      JumpBackStep(c1, t1, base, end, |moved|);
      StepsSum(c1, t, k, 1);
      OneStep(c1, t1);
      k := k + 1;
    }
  }

  lemma TrampolineParts(c: Memory, base: int, end: word, moved: seq<byte>)
    requires Held(c, base, Trampoline(end, moved))
    ensures U64(c, base) == end && Held(c, base + 8, moved) && Held(c, base + 8 + |moved|, JumpBack(|moved|))
  {
    hide Held, Le64, JumpBack, U64;
    HeldBoth(c, base, Le64(end) + moved, JumpBack(|moved|));
    HeldBoth(c, base, Le64(end), moved);
    U64Held(c, base, end);
  }

  /** The original leaves every movable prefix, in at most one step per byte. */
  lemma {:induction false} PrefixLeft(c: Memory, s: Cpu, lo: int, end: int) returns (n: nat)
    requires Wf(s) && lo <= s.pc <= end < W64 && Prefix(c, s.pc, end) && JumpsPast(c, s.pc, end, end)
    ensures Leaves(c, s, n, lo, end) && n <= end - s.pc
    decreases end - s.pc
  {
    hide Decode, Accepts, Step, Taken;
    if s.pc == end {
      n := 0;
    } else {
      var d := Decode(c, s.pc);
      MovesOn(c, s);
      PrefixEnd(c, s.pc + d.len, end);
      if FallsThrough(d.insn, s) {
        var k := PrefixLeft(c, Step(c, s), lo, end);
        n := k + 1;
      } else {
        n := 1;
        assert Leaves(c, Step(c, s), 0, lo, end);
      }
    }
  }

  /** Every byte that may differ was below the stack pointer at a compare that ran. */
  lemma {:induction false} DirtyIsScratch(c: Memory, s: Cpu, n: nat, dirty: set<int>, x: int) returns (k: nat)
    requires Wf(s) && x in Dirty(c, s, n, dirty) && x !in dirty
    ensures k < n && Decode(c, Steps(c, s, k).pc).insn.CmpMem? && x in Span8(Below(Steps(c, s, k)))
    decreases n
  {
    hide Decode, Step, Span8;
    var insn := Decode(c, s.pc).insn;
    var next := NextDirty(insn, s, dirty);
    if x in next {
      k := 0;
    } else {
      var j := DirtyIsScratch(c, Step(c, s), n - 1, next, x);
      k := j + 1;
    }
  }

  /**
   * The limit of the rewrite. When a compare is followed by lowering the stack by eight and a pop, the original
   * pops what was below the stack pointer and the moved code pops rax, so they agree exactly when those bytes
   * already held rax.
   */
  lemma PopAfterCompare(c0: Memory, s: Cpu, c1: Memory, q: nat, r: nat)
    requires Wf(s) && s.pc + 18 < W64 && q + 26 < W64 && r != RSP && r < 8
    requires Accepts(Decode(c0, s.pc)) && Decode(c0, s.pc).insn.CmpMem?
    requires Decode(c0, s.pc + 10) == Decoded(0x48, SubImm(RSP, 8), 7)
    requires Decode(c0, s.pc + 17) == Decoded(0, Pop(r), 1)
    requires Held(c1, q, Translation(c0, s.pc))
    requires Held(c1, q + 18, Translation(c0, s.pc + 10)) && Held(c1, q + 25, Translation(c0, s.pc + 17))
    ensures var s3, t6 := Steps(c0, s, 3), Steps(c1, s.(pc := q), 6);
      s3.pc == s.pc + 18 && t6.pc == q + 26 && t6.regs[r] == s.regs[RAX] && s3.regs[r] == Load8(s.mem, Below(s)) &&
      (s3.regs == t6.regs <==> Load8(s.mem, Below(s)) == s.regs[RAX])
  {
    hide Decode, Translation, CompareCode, Held, Load8, Store8, Load4, SubFlags, Step, Steps;
    OriginalPop(c0, s, r);
    MovedPop(c0, s, c1, q, r);
    var s3, t6 := Steps(c0, s, 3), Steps(c1, s.(pc := q), 6);
    assert s3.regs == s.regs[r := Load8(s.mem, Below(s))] && t6.regs == s.regs[r := s.regs[RAX]];
  }

  /** sub rsp, 8; pop r. */
  lemma LowerAndPop(c: Memory, s: Cpu, r: nat)
    requires Wf(s) && s.pc + 8 < W64 && r != RSP && r < 8
    requires Decode(c, s.pc) == Decoded(0x48, SubImm(RSP, 8), 7) && Decode(c, s.pc + 7) == Decoded(0, Pop(r), 1)
    ensures var t := Steps(c, s, 2); t.pc == s.pc + 8 && t.regs == s.regs[r := Load8(s.mem, Below(s))]
  {
    hide Decode, Load8, Step, Steps;
    TwoSteps(c, s);
    LowerStep(c, s);
    PopAnyStep(c, Step(c, s), r);
    assert s.regs[RSP := Below(s)][RSP := s.regs[RSP]] == s.regs;
  }

  lemma LowerStep(c: Memory, s: Cpu)
    requires Wf(s) && s.pc + 7 < W64 && Decode(c, s.pc) == Decoded(0x48, SubImm(RSP, 8), 7)
    ensures var t := Step(c, s); t.pc == s.pc + 7 && t.regs == s.regs[RSP := Below(s)] && t.mem == s.mem
  {
    hide Decode, SubFlags;
  }

  lemma PopAnyStep(c: Memory, s: Cpu, r: nat)
    requires Wf(s) && s.pc + 1 < W64 && r < 16 && Decode(c, s.pc) == Decoded(0, Pop(r), 1)
    ensures var t := Step(c, s);
      t.pc == s.pc + 1 && t.regs == s.regs[RSP := Wrap(Reg(s, RSP) + 8)][r := Load8(s.mem, s.regs[RSP])]
  {
    hide Decode, Load8;
  }

  lemma OriginalPop(c: Memory, s: Cpu, r: nat)
    requires Wf(s) && s.pc + 18 < W64 && r != RSP && r < 8
    requires Accepts(Decode(c, s.pc)) && Decode(c, s.pc).insn.CmpMem?
    requires Decode(c, s.pc + 10) == Decoded(0x48, SubImm(RSP, 8), 7)
    requires Decode(c, s.pc + 17) == Decoded(0, Pop(r), 1)
    ensures var t := Steps(c, s, 3); t.pc == s.pc + 18 && t.regs == s.regs[r := Load8(s.mem, Below(s))]
  {
    hide Decode, Load8, Load4, SubFlags, Steps;
    CompareLength(c, s.pc);
    var s1 := Step(c, s);
    assert s1.regs == s.regs && s1.mem == s.mem && s1.pc == s.pc + 10;
    LowerAndPop(c, s1, r);
    OneStep(c, s);
    StepsSum(c, s, 1, 2);
  }

  lemma MovedPop(c0: Memory, s: Cpu, c1: Memory, q: nat, r: nat)
    requires Wf(s) && q + 26 < W64 && r != RSP && r < 8
    requires Accepts(Decode(c0, s.pc)) && Decode(c0, s.pc).insn.CmpMem?
    requires Decode(c0, s.pc + 10) == Decoded(0x48, SubImm(RSP, 8), 7)
    requires Decode(c0, s.pc + 17) == Decoded(0, Pop(r), 1)
    requires Held(c1, q, Translation(c0, s.pc))
    requires Held(c1, q + 18, Translation(c0, s.pc + 10)) && Held(c1, q + 25, Translation(c0, s.pc + 17))
    ensures var t := Steps(c1, s.(pc := q), 6); t.pc == q + 26 && t.regs == s.regs[r := s.regs[RAX]]
  {
    hide Decode, CompareCode, Peek, Held, Load8, Store8, Load4, SubFlags, Step, Steps;
    var t := s.(pc := q);
    var insn := Decode(c0, s.pc).insn;
    DecodeFacts(c0, s.pc);
    CompareRun(c1, t, insn.addr, insn.imm);
    var t4 := Steps(c1, t, 4);
    CopyDecodes(c0, s.pc + 10, c1, q + 18);
    CopyDecodes(c0, s.pc + 17, c1, q + 25);
    LowerAndPop(c1, t4, r);
    LoadBack(t.mem, Below(t), t.regs[RAX]);
    StepsSum(c1, t, 4, 2);
  }

  /** cmp dword [rip], 0; sub rsp, 8; pop rbx. */
  const STALE_POP: seq<byte> := [0x81, 0x3D, 0, 0, 0, 0, 0, 0, 0, 0, 0x48, 0x81, 0xEC, 8, 0, 0, 0, 0x5B]

  /** The relocator moves that prefix: equality of registers can fail on code it accepts. */
  lemma StalePopMoves(c: Memory, p: nat)
    requires p + 18 < W64 && Held(c, p, STALE_POP)
    ensures Decode(c, p) == Decoded(0, CmpMem(p + 10, 0), 10)
    ensures Decode(c, p + 10) == Decoded(0x48, SubImm(RSP, 8), 7) && Decode(c, p + 17) == Decoded(0, Pop(3), 1)
    ensures Movable(c, p, p + 18, 64)
  {
    hide Decode, Held, Prefix, Moved, Lowest, JumpsPast, Translation;
    StalePopDecodes(c, p);
    assert Stop(c, p + 18, p + 18) == p + 18 && Stop(c, p + 17, p + 18) == p + 18;
    assert Stop(c, p + 10, p + 18) == p + 18 && Stop(c, p, p + 18) == p + 18;
    Single(c, p);
    Single(c, p + 10);
    Single(c, p + 17);
    Append(c, p, p + 10, p + 17);
    Append(c, p, p + 17, p + 18);
    StalePopLength(c, p);
    Finished(c, p, p + 18, p + 18, 64);
  }

  lemma StalePopLength(c: Memory, p: nat)
    requires Decode(c, p) == Decoded(0, CmpMem(p + 10, 0), 10)
    requires Decode(c, p + 10) == Decoded(0x48, SubImm(RSP, 8), 7) && Decode(c, p + 17) == Decoded(0, Pop(3), 1)
    ensures |Translation(c, p)| == 18 && |Translation(c, p + 10)| == 7 && |Translation(c, p + 17)| == 1
  {
    hide Decode, CompareCode, Peek;
  }

  lemma StalePopDecodes(c: Memory, p: nat)
    requires p + 18 < W64 && Held(c, p, STALE_POP)
    ensures Decode(c, p) == Decoded(0, CmpMem(p + 10, 0), 10)
    ensures Decode(c, p + 10) == Decoded(0x48, SubImm(RSP, 8), 7) && Decode(c, p + 17) == Decoded(0, Pop(3), 1)
  {
    hide Held, At, U32;
    var bs := STALE_POP;
    HeldAt(c, p, bs, 0);
    HeldAt(c, p, bs, 1);
    HeldPart(c, p, bs, 2, 6);
    HeldPart(c, p, bs, 6, 10);
    HeldAt(c, p, bs, 10);
    HeldAt(c, p, bs, 11);
    HeldAt(c, p, bs, 12);
    HeldPart(c, p, bs, 13, 17);
    HeldAt(c, p, bs, 17);
    assert bs[2..6] == Le32(0) && bs[6..10] == Le32(0) && bs[13..17] == Le32(8);
    U32Held(c, p + 2, 0);
    U32Held(c, p + 6, 0);
    U32Held(c, p + 13, 8);
  }
}
