/** Relocated x86-64 code does what the original prefix does. */
module X86Meaning {
  import opened Words
  import opened Bytes
  import opened X86Isa
  import opened X86Relocator

  function Span4(a: int): set<int> { {Wrap(a), Wrap(a + 1), Wrap(a + 2), Wrap(a + 3)} }
  function Span8(a: int): set<int> { Span4(a) + Span4(a + 4) }

  /** Memories that differ at most on `dirty`. */
  ghost predicate Agree(m: Memory, n: Memory, dirty: set<int>) {
    forall a {:trigger At(m, a)} {:trigger At(n, a)} :: a !in dirty ==> At(m, a) == At(n, a)
  }

  ghost predicate Same(s: Cpu, t: Cpu, dirty: set<int>) {
    s.regs == t.regs && s.flags == t.flags && Agree(s.mem, t.mem, dirty)
  }

  /** The bytes an instruction reads as data. */
  function Loads(insn: Insn, s: Cpu): set<int>
    requires Wf(s)
  {
    match insn
    case Pop(_) => Span8(Reg(s, RSP))
    case CmpMem(a, _) => Span4(a)
    case _ => {}
  }

  /** The new stack pointer after a push. */
  function Below(s: Cpu): word
    requires Wf(s)
  {
    Wrap(Reg(s, RSP) - 8)
  }

  function Stores(insn: Insn, s: Cpu): set<int>
    requires Wf(s)
  {
    match insn
    case Push(_) => Span8(Below(s))
    case Store(_, base, index, scale, disp) =>
      if base < 16 && index < 16 then Span8(Address(s, base, index, scale, disp)) else {}
    case _ => {}
  }

  /** The eight bytes below the stack pointer that the rewritten compare overwrites. */
  function Scratch(insn: Insn, s: Cpu): set<int>
    requires Wf(s)
  {
    if insn.CmpMem? then Span8(Below(s)) else {}
  }

  function NextDirty(insn: Insn, s: Cpu, dirty: set<int>): set<int>
    requires Wf(s)
  {
    dirty + Scratch(insn, s) - Stores(insn, s)
  }

  lemma PutAgree(m: Memory, n: Memory, dirty: set<int>, a: int, b: byte)
    requires Agree(m, n, dirty)
    ensures Agree(m[a := b], n[a := b], dirty - {a}) && Agree(m, n[a := b], dirty + {a})
  {
    var m1, n1 := m[a := b], n[a := b];
    forall x | x !in dirty - {a} ensures At(m1, x) == At(n1, x) {
      if x != a { assert At(m, x) == At(n, x); }
    }
    forall x | x !in dirty + {a} ensures At(m, x) == At(n1, x) { assert At(m, x) == At(n, x); }
  }

  lemma Store4Agree(m: Memory, n: Memory, dirty: set<int>, a: int, v: nat)
    requires Agree(m, n, dirty)
    ensures Agree(Store4(m, a, v), Store4(n, a, v), dirty - Span4(a))
  {
    hide Agree;
    var w0, w1, w2, w3 := Wrap(a), Wrap(a + 1), Wrap(a + 2), Wrap(a + 3);
    var b0, b1, b2, b3: byte := v % 0x100, v / 0x100 % 0x100, v / 0x1_0000 % 0x100, v / 0x100_0000 % 0x100;
    hide Wrap;
    PutAgree(m, n, dirty, w0, b0);
    PutAgree(m[w0 := b0], n[w0 := b0], dirty - {w0}, w1, b1);
    PutAgree(m[w0 := b0][w1 := b1], n[w0 := b0][w1 := b1], dirty - {w0} - {w1}, w2, b2);
    PutAgree(m[w0 := b0][w1 := b1][w2 := b2], n[w0 := b0][w1 := b1][w2 := b2], dirty - {w0} - {w1} - {w2}, w3, b3);
    assert dirty - {w0} - {w1} - {w2} - {w3} == dirty - Span4(a);
  }

  lemma Store8Agree(m: Memory, n: Memory, dirty: set<int>, a: int, v: nat)
    requires Agree(m, n, dirty)
    ensures Agree(Store8(m, a, v), Store8(n, a, v), dirty - Span8(a))
  {
    hide Agree, Store4, Span4;
    Store4Agree(m, n, dirty, a, v % W32);
    Store4Agree(Store4(m, a, v % W32), Store4(n, a, v % W32), dirty - Span4(a), a + 4, v / W32);
    assert dirty - Span4(a) - Span4(a + 4) == dirty - Span8(a);
  }

  lemma Scratch4Agree(m: Memory, n: Memory, dirty: set<int>, a: int, v: nat)
    requires Agree(m, n, dirty)
    ensures Agree(m, Store4(n, a, v), dirty + Span4(a))
  {
    hide Agree;
    var w0, w1, w2, w3 := Wrap(a), Wrap(a + 1), Wrap(a + 2), Wrap(a + 3);
    var b0, b1, b2, b3: byte := v % 0x100, v / 0x100 % 0x100, v / 0x1_0000 % 0x100, v / 0x100_0000 % 0x100;
    hide Wrap;
    PutAgree(m, n, dirty, w0, b0);
    PutAgree(m, n[w0 := b0], dirty + {w0}, w1, b1);
    PutAgree(m, n[w0 := b0][w1 := b1], dirty + {w0} + {w1}, w2, b2);
    PutAgree(m, n[w0 := b0][w1 := b1][w2 := b2], dirty + {w0} + {w1} + {w2}, w3, b3);
    assert dirty + {w0} + {w1} + {w2} + {w3} == dirty + Span4(a);
  }

  lemma Scratch8Agree(m: Memory, n: Memory, dirty: set<int>, a: int, v: nat)
    requires Agree(m, n, dirty)
    ensures Agree(m, Store8(n, a, v), dirty + Span8(a))
  {
    hide Agree, Store4, Span4;
    Scratch4Agree(m, n, dirty, a, v % W32);
    Scratch4Agree(m, Store4(n, a, v % W32), dirty + Span4(a), a + 4, v / W32);
    assert dirty + Span4(a) + Span4(a + 4) == dirty + Span8(a);
  }

  lemma LoadAgree(m: Memory, n: Memory, dirty: set<int>, a: int)
    requires Agree(m, n, dirty)
    ensures Span4(a) !! dirty ==> Load4(m, a) == Load4(n, a)
    ensures Span8(a) !! dirty ==> Load8(m, a) == Load8(n, a)
  {
    if Span4(a) !! dirty { Load4Agree(m, n, dirty, a); }
    if Span8(a) !! dirty {
      hide Agree, Load4, Span4;
      Load4Agree(m, n, dirty, a);
      Load4Agree(m, n, dirty, a + 4);
    }
  }

  lemma Load4Agree(m: Memory, n: Memory, dirty: set<int>, a: int)
    requires Agree(m, n, dirty) && Span4(a) !! dirty
    ensures Load4(m, a) == Load4(n, a)
  {
    assert Wrap(a) in Span4(a) && Wrap(a + 1) in Span4(a) && Wrap(a + 2) in Span4(a) && Wrap(a + 3) in Span4(a);
    hide Wrap;
  }

  lemma WrapApart(a: int, i: int, j: int)
    requires 0 <= i < j < 8
    ensures Wrap(a + i) != Wrap(a + j)
  {
  }

  lemma SpansApart(a: int)
    ensures Span4(a) !! Span4(a + 4)
  {
  }

  lemma Load4Back(m: Memory, a: int, v: nat)
    requires v < W32
    ensures Load4(Store4(m, a, v), a) == v
  {
    hide Wrap;
    WrapApart(a, 0, 1);
    WrapApart(a, 0, 2);
    WrapApart(a, 0, 3);
    WrapApart(a, 1, 2);
    WrapApart(a, 1, 3);
    WrapApart(a, 2, 3);
    Digits32(v);
  }

  /** What was pushed is what is popped. */
  lemma LoadBack(m: Memory, a: int, v: nat)
    requires v < W64
    ensures Load8(Store8(m, a, v), a) == v
  {
    hide Load4, Store4, Span4, Agree;
    var m1 := Store4(m, a, v % W32);
    var m2 := Store4(m1, a + 4, v / W32);
    Load4Back(m, a, v % W32);
    Load4Back(m1, a + 4, v / W32);
    AgreeSelf(m1);
    Scratch4Agree(m1, m1, {}, a + 4, v / W32);
    SpansApart(a);
    Load4Agree(m1, m2, {} + Span4(a + 4), a);
  }

  lemma AgreeSelf(m: Memory)
    ensures Agree(m, m, {})
  {
  }

  predicate Copied(insn: Insn) { !insn.CmpMem? && !insn.Jcc? }

  /** The first `n` bytes, of at most eight, are the same at `p` and `q`. */
  predicate Alike(c0: Memory, p: int, c1: Memory, q: int, n: nat) {
    && (n > 0 ==> At(c1, q) == At(c0, p))
    && (n > 1 ==> At(c1, q + 1) == At(c0, p + 1))
    && (n > 2 ==> At(c1, q + 2) == At(c0, p + 2))
    && (n > 3 ==> At(c1, q + 3) == At(c0, p + 3))
    && (n > 4 ==> At(c1, q + 4) == At(c0, p + 4))
    && (n > 5 ==> At(c1, q + 5) == At(c0, p + 5))
    && (n > 6 ==> At(c1, q + 6) == At(c0, p + 6))
    && (n > 7 ==> At(c1, q + 7) == At(c0, p + 7))
  }

  lemma StoreAlike(c0: Memory, p: int, c1: Memory, q: int, rex: nat)
    requires Alike(c0, p, c1, q, DecodeStore(c0, p, rex, 1).len) && !DecodeStore(c0, p, rex, 1).insn.Unknown?
    ensures DecodeStore(c1, q, rex, 1) == DecodeStore(c0, p, rex, 1)
  {
    hide At, Signed8, Signed32;
  }

  lemma SubAlike(c0: Memory, p: int, c1: Memory, q: int, rex: nat)
    requires Alike(c0, p, c1, q, DecodeGroup1(c0, p, rex, 1).len) && DecodeGroup1(c0, p, rex, 1).insn.SubImm?
    ensures DecodeGroup1(c1, q, rex, 1) == DecodeGroup1(c0, p, rex, 1)
  {
    hide At, Signed8, Signed32;
  }

  lemma WordAlike(c0: Memory, p: int, c1: Memory, q: int)
    requires Alike(c0, p, c1, q, 5)
    ensures U32(c1, q + 1) == U32(c0, p + 1)
  {
    hide At;
  }

  lemma PlainAlike(c0: Memory, p: int, c1: Memory, q: int)
    requires Accepts(Decode(c0, p)) && Copied(Decode(c0, p).insn) && At(c0, p) / 16 != 4
    requires Alike(c0, p, c1, q, Decode(c0, p).len)
    ensures Decode(c1, q) == Decode(c0, p)
  {
    hide At, U32, U64, Signed8, Signed32, DecodeStore, DecodeGroup1, DecodeGroup5;
    GroupFacts(c0, p);
    if Decode(c0, p).len >= 5 { WordAlike(c0, p, c1, q); }
  }

  lemma RexAlike(c0: Memory, p: int, c1: Memory, q: int)
    requires Accepts(Decode(c0, p)) && Copied(Decode(c0, p).insn) && At(c0, p) / 16 == 4
    requires Alike(c0, p, c1, q, Decode(c0, p).len)
    ensures Decode(c1, q) == Decode(c0, p)
  {
    hide At, U32, U64, Signed8, Signed32, DecodeStore, DecodeGroup1, DecodeGroup5;
    var op := At(c0, p + 1);
    GroupFacts(c0, p);
    assert At(c1, q + 1) == op;
    if op == 0x81 { SubAlike(c0, p, c1, q, At(c0, p)); }
    if op == 0x89 { StoreAlike(c0, p, c1, q, At(c0, p)); }
  }

  /** What the longer forms give when they are not refused. */
  lemma GroupFacts(c: Memory, p: int)
    ensures DecodeGroup1(c, p, 0, 0).insn.CmpMem? || !Accepts(DecodeGroup1(c, p, 0, 0))
    ensures DecodeStore(c, p, 0, 0).insn.Unknown?
    ensures forall rex, k: nat :: !Accepts(DecodeGroup5(c, p, rex, k))
    ensures forall rex: nat :: rex / 16 == 4 ==>
      var d := DecodeGroup1(c, p, rex, 1); d.len > 1 && (Accepts(d) ==> d.insn.SubImm?)
    ensures forall rex: nat :: DecodeStore(c, p, rex, 1).len > 1
  {
    hide At, Signed8, Signed32, U32;
  }

  /** A copied instruction decodes to itself at its new address. */
  lemma CopyDecodes(c0: Memory, p: int, c1: Memory, q: int)
    requires Accepts(Decode(c0, p)) && Copied(Decode(c0, p).insn)
    requires Held(c1, q, Peek(c0, p, Decode(c0, p).len))
    ensures Decode(c1, q) == Decode(c0, p)
  {
    hide Decode, Accepts, Peek, Held, At;
    var bs := Peek(c0, p, Decode(c0, p).len);
    SameByte(c0, p, c1, q, bs, 0);
    SameByte(c0, p, c1, q, bs, 1);
    SameByte(c0, p, c1, q, bs, 2);
    SameByte(c0, p, c1, q, bs, 3);
    SameByte(c0, p, c1, q, bs, 4);
    SameByte(c0, p, c1, q, bs, 5);
    SameByte(c0, p, c1, q, bs, 6);
    SameByte(c0, p, c1, q, bs, 7);
    if At(c0, p) / 16 == 4 {
      RexAlike(c0, p, c1, q);
    } else {
      PlainAlike(c0, p, c1, q);
    }
  }

  lemma SameByte(c0: Memory, p: int, c1: Memory, q: int, bs: seq<byte>, i: nat)
    requires Held(c0, p, bs) && Held(c1, q, bs)
    ensures i < |bs| ==> At(c1, q + i) == At(c0, p + i)
  {
    if i < |bs| {
      HeldAt(c0, p, bs, i);
      HeldAt(c1, q, bs, i);
    }
  }

  /** A copied instruction has the same effect on both machines. */
  lemma CopyExec(c0: Memory, s: Cpu, c1: Memory, t: Cpu, insn: Insn, len: nat, dirty: set<int>)
    requires Wf(s) && Wf(t) && Same(s, t, dirty)
    requires insn.Push? || insn.Pop? || insn.SubImm? || insn.MovReg? || insn.Store? || insn.MovImm?
    requires Loads(insn, s) !! dirty
    ensures var s1, t1 := Exec(c0, s, insn, len), Exec(c1, t, insn, len);
      Same(s1, t1, NextDirty(insn, s, dirty)) && s1.pc == Wrap(s.pc + len) && t1.pc == Wrap(t.pc + len)
  {
    hide Agree, Store8, Load8, Span8, SubFlags, Wrap;
    assert dirty + {} - {} == dirty;
    match insn
    case Push(r) => Store8Agree(s.mem, t.mem, dirty, Wrap(Reg(s, RSP) - 8), Reg(s, r));
      assert dirty + {} - Stores(insn, s) == dirty - Stores(insn, s);
    case Pop(r) => LoadAgree(s.mem, t.mem, dirty, Reg(s, RSP));
      assert NextDirty(insn, s, dirty) == dirty;
    case Store(src, base, index, scale, disp) =>
      if base < 16 && index < 16 {
        assert Address(s, base, index, scale, disp) == Address(t, base, index, scale, disp);
        Store8Agree(s.mem, t.mem, dirty, Address(s, base, index, scale, disp), Reg(s, src));
      }
      assert dirty + {} - Stores(insn, s) == dirty - Stores(insn, s);
      assert dirty - {} == dirty;
    case _ =>
  }

  /** How the four instructions of a rewritten compare decode. */
  lemma CompareDecodes(c: Memory, q: int, addr: nat, imm: nat)
    requires addr < W64 && imm < W32 && Held(c, q, CompareCode(addr, imm))
    ensures Decode(c, q) == Decoded(0, Push(RAX), 1)
    ensures Decode(c, q + 1) == Decoded(0x48, MovImm(RAX, addr), 10)
    ensures Decode(c, q + 11) == Decoded(0, CmpAt(RAX, imm), 6)
    ensures Decode(c, q + 17) == Decoded(0, Pop(RAX), 1)
  {
    hide U32, U64, Held, At, CompareCode;
    CompareBytes(c, q, addr, imm);
  }

  lemma CompareBytes(c: Memory, q: int, addr: nat, imm: nat)
    requires addr < W64 && imm < W32 && Held(c, q, CompareCode(addr, imm))
    ensures At(c, q) == 0x50 && At(c, q + 1) == 0x48 && At(c, q + 2) == 0xB8 && U64(c, q + 3) == addr
    ensures At(c, q + 11) == 0x81 && At(c, q + 12) == 0x38 && U32(c, q + 13) == imm && At(c, q + 17) == 0x58
  {
    hide Le64, Le32, Held, At, U32, U64;
    var bs := CompareCode(addr, imm);
    assert bs[3..11] == Le64(addr) && bs[13..17] == Le32(imm);
    HeldPart(c, q, bs, 3, 11);
    HeldPart(c, q, bs, 13, 17);
    U64Held(c, q + 3, addr);
    U32Held(c, q + 13, imm);
    HeldAt(c, q, bs, 0);
    HeldAt(c, q, bs, 1);
    HeldAt(c, q, bs, 2);
    HeldAt(c, q, bs, 11);
    HeldAt(c, q, bs, 12);
    HeldAt(c, q, bs, 17);
  }

  lemma PushStep(c: Memory, t: Cpu)
    requires Wf(t) && Decode(c, t.pc) == Decoded(0, Push(RAX), 1) && t.pc + 1 < W64
    ensures Step(c, t) == t.(regs := t.regs[RSP := Below(t)],
                             mem := Store8(t.mem, Below(t), t.regs[RAX]), pc := t.pc + 1)
  {
    hide Decode, Store8;
  }

  lemma LoadStep(c: Memory, t: Cpu, addr: nat)
    requires Wf(t) && Decode(c, t.pc) == Decoded(0x48, MovImm(RAX, addr), 10) && t.pc + 10 < W64 && addr < W64
    ensures Step(c, t) == t.(regs := t.regs[RAX := addr], pc := t.pc + 10)
  {
    hide Decode;
  }

  lemma TestStep(c: Memory, t: Cpu, imm: nat)
    requires Wf(t) && Decode(c, t.pc) == Decoded(0, CmpAt(RAX, imm), 6) && t.pc + 6 < W64
    ensures Step(c, t) == t.(flags := SubFlags(Load4(t.mem, t.regs[RAX]), imm, false), pc := t.pc + 6)
  {
    hide Decode, SubFlags, Load4;
  }

  lemma PopStep(c: Memory, t: Cpu)
    requires Wf(t) && Decode(c, t.pc) == Decoded(0, Pop(RAX), 1) && t.pc + 1 < W64
    ensures Step(c, t) == t.(regs := t.regs[RSP := Wrap(Reg(t, RSP) + 8)][RAX := Load8(t.mem, t.regs[RSP])],
                             pc := t.pc + 1)
  {
    hide Decode, Load8;
  }

  lemma TwoSteps(c: Memory, t: Cpu)
    requires Wf(t)
    ensures Steps(c, t, 2) == Step(c, Step(c, t))
  {
    hide Step;
  }

  lemma FourSteps(c: Memory, t: Cpu)
    requires Wf(t)
    ensures Steps(c, t, 4) == Step(c, Step(c, Step(c, Step(c, t))))
  {
    hide Step;
    assert Steps(c, t, 4) == Steps(c, Step(c, t), 3);
    assert Steps(c, Step(c, t), 3) == Steps(c, Step(c, Step(c, t)), 2);
    assert Steps(c, Step(c, Step(c, t)), 2) == Steps(c, Step(c, Step(c, Step(c, t))), 1);
  }

  /** The state a rewritten compare ends in. */
  lemma CompareRun(c: Memory, t: Cpu, addr: nat, imm: nat)
    requires Wf(t) && addr < W64 && imm < W32
    requires Held(c, t.pc, CompareCode(addr, imm)) && t.pc + 18 < W64
    ensures var m := Store8(t.mem, Below(t), t.regs[RAX]);
      Steps(c, t, 4) == t.(flags := SubFlags(Load4(m, addr), imm, false), mem := m, pc := t.pc + 18)
  {
    hide Decode, Store8, Load8, Load4, SubFlags, CompareCode, Held, Step, Steps;
    CompareDecodes(c, t.pc, addr, imm);
    FourSteps(c, t);
    var t1 := Step(c, t);
    PushStep(c, t);
    var t2 := Step(c, t1);
    LoadStep(c, t1, addr);
    var t3 := Step(c, t2);
    TestStep(c, t2, imm);
    PopStep(c, t3);
    LoadBack(t.mem, Below(t), t.regs[RAX]);
    assert Step(c, t3).regs == t.regs;
  }

  /** The rewritten compare restores every register and leaves only its scratch bytes behind. */
  lemma CompareExec(c0: Memory, s: Cpu, c1: Memory, t: Cpu, addr: nat, imm: nat, dirty: set<int>)
    requires Wf(s) && Wf(t) && Same(s, t, dirty) && addr < W64 && imm < W32
    requires Held(c1, t.pc, CompareCode(addr, imm)) && t.pc + 18 < W64
    requires Span4(addr) !! dirty + Scratch(CmpMem(addr, imm), s)
    ensures var s1, t1 := Exec(c0, s, CmpMem(addr, imm), 10), Steps(c1, t, 4);
      Same(s1, t1, NextDirty(CmpMem(addr, imm), s, dirty)) && t1.pc == t.pc + 18
  {
    hide Agree, Store8, Load4, Span8, Span4, SubFlags, CompareCode, Held, Steps, Wrap;
    CompareRun(c1, t, addr, imm);
    var below := Below(t);
    Scratch8Agree(s.mem, t.mem, dirty, below, t.regs[RAX]);
    assert NextDirty(CmpMem(addr, imm), s, dirty) == dirty + Span8(below);
    LoadAgree(s.mem, Store8(t.mem, below, t.regs[RAX]), dirty + Span8(below), addr);
  }

  /** How the three jumps of a rewritten branch decode. */
  lemma BranchDecodes(c: Memory, q: int, cc: nat, target: nat)
    requires cc < 16 && target < W64 && 0 <= q && q + 18 < W64 && Held(c, q, BranchCode(cc, target))
    ensures Decode(c, q) == Decoded(0, Jcc(cc, q + 4), 2)
    ensures Decode(c, q + 2) == Decoded(0, Jmp(q + 18), 2)
    ensures Decode(c, q + 4) == Decoded(0, JmpMem(q + 10), 6) && U64(c, q + 10) == target
  {
    hide U32, U64, Held, At, BranchCode;
    BranchBytes(c, q, cc, target);
  }

  lemma BranchBytes(c: Memory, q: int, cc: nat, target: nat)
    requires cc < 16 && target < W64 && Held(c, q, BranchCode(cc, target))
    ensures At(c, q) == 0x70 + cc && At(c, q + 1) == 2 && At(c, q + 2) == 0xEB && At(c, q + 3) == 0x0E
    ensures At(c, q + 4) == 0xFF && At(c, q + 5) == 0x25 && U32(c, q + 6) == 0 && U64(c, q + 10) == target
  {
    hide Le64, Held, At, U64;
    var bs := BranchCode(cc, target);
    assert bs[10..18] == Le64(target);
    HeldPart(c, q, bs, 10, 18);
    U64Held(c, q + 10, target);
    HeldAt(c, q, bs, 0);
    HeldAt(c, q, bs, 1);
    HeldAt(c, q, bs, 2);
    HeldAt(c, q, bs, 3);
    HeldAt(c, q, bs, 4);
    HeldAt(c, q, bs, 5);
    HeldAt(c, q, bs, 6);
    HeldAt(c, q, bs, 7);
    HeldAt(c, q, bs, 8);
    HeldAt(c, q, bs, 9);
  }

  /** The rewritten branch goes where the original goes, or falls through past its own literal. */
  lemma BranchExec(s: Cpu, c1: Memory, t: Cpu, cc: nat, target: nat)
    requires Wf(s) && Wf(t) && s.flags == t.flags && cc < 16 && target < W64
    requires Held(c1, t.pc, BranchCode(cc, target)) && t.pc + 18 < W64
    ensures Steps(c1, t, 2) == t.(pc := if Taken(cc, s.flags) then target else t.pc + 18)
  {
    hide Decode, BranchCode, Held, U64, Taken, Steps;
    BranchDecodes(c1, t.pc, cc, target);
    TwoSteps(c1, t);
  }

  /** Whether the instruction moves on to the next one. */
  predicate FallsThrough(insn: Insn, s: Cpu) { insn.Jcc? ==> !Taken(insn.cc, s.flags) }

  function StepCount(insn: Insn): nat {
    match insn
    case CmpMem(_, _) => 4
    case Jcc(_, _) => 2
    case _ => 1
  }

  /** The replacement has run and both machines are at the same place in it. */
  ghost predicate Simulated(c0: Memory, s: Cpu, c1: Memory, t: Cpu, dirty: set<int>)
    requires Wf(s) && Wf(t)
  {
    var d := Decode(c0, s.pc);
    var s1, t1 := Step(c0, s), Steps(c1, t, StepCount(d.insn));
    Same(s1, t1, NextDirty(d.insn, s, dirty)) &&
    if FallsThrough(d.insn, s) then s1.pc == s.pc + d.len && t1.pc == t.pc + |Translation(c0, s.pc)|
    else s1.pc == t1.pc == d.insn.target
  }

  /** The two machines are about to run an instruction and its replacement. */
  ghost predicate Ready(c0: Memory, s: Cpu, c1: Memory, t: Cpu, dirty: set<int>) {
    Wf(s) && Wf(t) && Same(s, t, dirty) && Accepts(Decode(c0, s.pc)) &&
    Held(c1, t.pc, Translation(c0, s.pc)) && t.pc + |Translation(c0, s.pc)| < W64 &&
    s.pc + Decode(c0, s.pc).len < W64 &&
    Loads(Decode(c0, s.pc).insn, s) !! dirty + Scratch(Decode(c0, s.pc).insn, s)
  }

  lemma CompareSimulated(c0: Memory, s: Cpu, c1: Memory, t: Cpu, dirty: set<int>)
    requires Ready(c0, s, c1, t, dirty) && Decode(c0, s.pc).insn.CmpMem?
    ensures Simulated(c0, s, c1, t, dirty)
  {
    hide Decode, Peek, CompareCode, BranchCode, Held, Same, Span4, Steps, NextDirty, Scratch, SubFlags;
    var d := Decode(c0, s.pc);
    DecodeFacts(c0, s.pc);
    CompareLength(c0, s.pc);
    CompareExec(c0, s, c1, t, d.insn.addr, d.insn.imm, dirty);
  }

  lemma BranchSimulated(c0: Memory, s: Cpu, c1: Memory, t: Cpu, dirty: set<int>)
    requires Ready(c0, s, c1, t, dirty) && Decode(c0, s.pc).insn.Jcc?
    ensures Simulated(c0, s, c1, t, dirty)
  {
    hide Decode, Peek, CompareCode, BranchCode, Held, Agree, Span8, Span4, Steps, Taken;
    var d := Decode(c0, s.pc);
    DecodeFacts(c0, s.pc);
    BranchExec(s, c1, t, d.insn.cc, d.insn.target);
    assert dirty + {} - {} == dirty;
  }

  lemma CopySimulated(c0: Memory, s: Cpu, c1: Memory, t: Cpu, dirty: set<int>)
    requires Ready(c0, s, c1, t, dirty) && Copied(Decode(c0, s.pc).insn)
    ensures Simulated(c0, s, c1, t, dirty)
  {
    hide Decode, Peek, CompareCode, BranchCode, Held, Same, Span8, Steps, NextDirty, Exec, Loads;
    var d := Decode(c0, s.pc);
    CopyDecodes(c0, s.pc, c1, t.pc);
    assert dirty + {} == dirty;
    CopyExec(c0, s, c1, t, d.insn, d.len, dirty);
    OneStep(c1, t);
  }

  /** One instruction of the prefix against its replacement. */
  lemma OneSimulated(c0: Memory, s: Cpu, c1: Memory, t: Cpu, dirty: set<int>)
    requires Ready(c0, s, c1, t, dirty)
    ensures Simulated(c0, s, c1, t, dirty)
  {
    hide Ready, Simulated, Decode;
    if Decode(c0, s.pc).insn.CmpMem? {
      CompareSimulated(c0, s, c1, t, dirty);
    } else if Decode(c0, s.pc).insn.Jcc? {
      BranchSimulated(c0, s, c1, t, dirty);
    } else {
      CopySimulated(c0, s, c1, t, dirty);
    }
  }

  lemma OneStep(c: Memory, t: Cpu)
    requires Wf(t)
    ensures Steps(c, t, 1) == Step(c, t)
  {
    hide Step;
  }

  lemma CompareLength(c: Memory, p: int)
    requires Accepts(Decode(c, p))
    ensures Decode(c, p).insn.CmpMem? ==> Decode(c, p).len == 10
  {
  }

  /** After `n` steps, and no earlier, the run is outside `[lo, hi)`. */
  ghost predicate Leaves(c: Memory, s: Cpu, n: nat, lo: int, hi: int)
    requires Wf(s)
    decreases n
  {
    if n == 0 then !(lo <= s.pc < hi) else lo <= s.pc < hi && Leaves(c, Step(c, s), n - 1, lo, hi)
  }

  /** The bytes that may differ after `n` steps of the original. */
  ghost function Dirty(c: Memory, s: Cpu, n: nat, dirty: set<int>): set<int>
    requires Wf(s)
    decreases n
  {
    if n == 0 then dirty else Dirty(c, Step(c, s), n - 1, NextDirty(Decode(c, s.pc).insn, s, dirty))
  }

  /** No load of the original run touches a byte that may differ. */
  ghost predicate LoadsClean(c: Memory, s: Cpu, n: nat, dirty: set<int>)
    requires Wf(s)
    decreases n
  {
    n == 0 ||
    var insn := Decode(c, s.pc).insn;
    Loads(insn, s) !! dirty + Scratch(insn, s) && LoadsClean(c, Step(c, s), n - 1, NextDirty(insn, s, dirty))
  }

  /** The prefix from `s.pc` on, against its replacement at `t.pc`, up to where the original leaves it. */
  lemma {:induction false} PrefixSimulated(
    c0: Memory, s: Cpu, lo: int, end: int, n: nat, c1: Memory, t: Cpu, dirty: set<int>
  ) returns (k: nat)
    requires Wf(s) && Wf(t) && Same(s, t, dirty) && lo <= s.pc <= end < W64
    requires Prefix(c0, s.pc, end) && JumpsPast(c0, s.pc, end, end)
    requires Held(c1, t.pc, Moved(c0, s.pc, end)) && t.pc + |Moved(c0, s.pc, end)| < W64
    requires Leaves(c0, s, n, lo, end) && LoadsClean(c0, s, n, dirty)
    ensures var s1, t1 := Steps(c0, s, n), Steps(c1, t, k);
      Same(s1, t1, Dirty(c0, s, n, dirty)) && s1.pc >= end &&
      (t1.pc == s1.pc || (s1.pc == end && t1.pc == t.pc + |Moved(c0, s.pc, end)|))
    decreases n
  {
    hide Decode, Accepts, Translation, Held, Agree, Step, Loads, Scratch, NextDirty, Taken;
    if s.pc == end {
      return 0;
    }
    var d := Decode(c0, s.pc);
    var here, rest := Translation(c0, s.pc), Moved(c0, s.pc + d.len, end);
    PrefixEnd(c0, s.pc + d.len, end);
    HeldBoth(c1, t.pc, here, rest);
    OneSimulated(c0, s, c1, t, dirty);
    var s1, t1 := Step(c0, s), Steps(c1, t, StepCount(d.insn));
    if FallsThrough(d.insn, s) {
      var j := PrefixSimulated(c0, s1, lo, end, n - 1, c1, t1, NextDirty(d.insn, s, dirty));
      StepsSum(c1, t, StepCount(d.insn), j);
      return StepCount(d.insn) + j;
    } else {
      return StepCount(d.insn);
    }
  }

  lemma {:induction false} PrefixEnd(c: Memory, p: int, end: int)
    requires Prefix(c, p, end)
    ensures p <= end
  {
    hide Decode, Accepts;
  }

  lemma HeldBoth(m: Memory, a: int, bs: seq<byte>, cs: seq<byte>)
    requires Held(m, a, bs + cs)
    ensures Held(m, a, bs) && Held(m, a + |bs|, cs)
  {
    HeldPart(m, a, bs + cs, 0, |bs|);
    HeldPart(m, a, bs + cs, |bs|, |bs + cs|);
    assert (bs + cs)[0..|bs|] == bs && (bs + cs)[|bs|..|bs + cs|] == cs;
  }

  lemma MovesOn(c: Memory, s: Cpu)
    requires Wf(s) && Accepts(Decode(c, s.pc))
    ensures var d := Decode(c, s.pc);
      Step(c, s).pc == if FallsThrough(d.insn, s) then Wrap(s.pc + d.len) else d.insn.target
  {
    hide Decode, Load8, Store8, SubFlags, Taken;
  }
}
