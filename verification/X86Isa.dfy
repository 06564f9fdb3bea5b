/**
 * The fragment of the x86-64 instruction set that the relocator reads or writes, as the processor
 * sees it: decoding by REX prefix, opcode, ModR/M and SIB (Intel SDM volume 2A, sections 2.1 and
 * 2.2.1) and the effect of each instruction. Code and data are separate memories here.
 */
module X86Isa {
  import opened Words
  import opened Bytes

  const RAX := 0
  const RSP := 4
  const RBP := 5

  datatype Insn =
    | Push(r: nat)
    | Pop(r: nat)
    | SubImm(r: nat, less: int)
    | MovReg(dst: nat, src: nat)
    | Store(src: nat, base: nat, index: nat, scale: nat, disp: int)
    | MovImm(r: nat, val: nat)
    | CmpMem(addr: nat, imm: nat)
    | CmpAt(r: nat, imm: nat)
    | Jcc(cc: nat, target: nat)
    | Jmp(target: nat)
    | JmpMem(slot: nat)
    | JmpReg(r: nat)
    | Unknown

  /** An instruction, its REX prefix (0 when there is none) and its length. */
  datatype Decoded = Decoded(rex: nat, insn: Insn, len: nat)

  type word = x: int | 0 <= x < W64

  function Wrap(x: int): word { x % W64 }

  function Decode(code: Memory, pc: int): Decoded {
    if At(code, pc) / 16 == 4 then DecodeBody(code, pc, At(code, pc), 1) else DecodeBody(code, pc, 0, 0)
  }

  /** The instruction whose opcode is the byte at `pc + k`. */
  function DecodeBody(code: Memory, pc: int, rex: nat, k: nat): Decoded {
    var a := pc + k;
    var op := At(code, a);
    var b := 8 * (rex % 2);
    if 0x50 <= op <= 0x57 then Decoded(rex, Push(op - 0x50 + b), k + 1)
    else if 0x58 <= op <= 0x5F then Decoded(rex, Pop(op - 0x58 + b), k + 1)
    else if 0x70 <= op <= 0x7F then
      Decoded(rex, Jcc(op - 0x70, Wrap(a + 2 + Signed8(At(code, a + 1)))), k + 2)
    else if op == 0x81 then DecodeGroup1(code, pc, rex, k)
    else if op == 0x89 then DecodeStore(code, pc, rex, k)
    else if 0xB8 <= op <= 0xBF then
      if rex / 8 % 2 == 1 then Decoded(rex, MovImm(op - 0xB8 + b, U64(code, a + 1)), k + 9)
      else Decoded(rex, MovImm(op - 0xB8 + b, U32(code, a + 1)), k + 5)
    else if op == 0xE9 then Decoded(rex, Jmp(Wrap(a + 5 + Signed32(U32(code, a + 1)))), k + 5)
    else if op == 0xEB then Decoded(rex, Jmp(Wrap(a + 2 + Signed8(At(code, a + 1)))), k + 2)
    else if op == 0xFF then DecodeGroup5(code, pc, rex, k)
    else Decoded(rex, Unknown, k + 1)
  }

  /** Opcode 81: the ModR/M reg field 5 is SUB and 7 is CMP, with a 32-bit immediate. */
  function DecodeGroup1(code: Memory, pc: int, rex: nat, k: nat): Decoded {
    var a := pc + k;
    var m := At(code, a + 1);
    var wide := rex / 8 % 2 == 1;
    var b := 8 * (rex % 2);
    if m / 64 == 3 && m / 8 % 8 == 5 && wide then
      Decoded(rex, SubImm(m % 8 + b, Signed32(U32(code, a + 2))), k + 6)
    else if m / 64 == 0 && m / 8 % 8 == 7 && m % 8 == 5 && !wide then
      Decoded(rex, CmpMem(Wrap(a + 10 + Signed32(U32(code, a + 2))), U32(code, a + 6)), k + 10)
    else if m / 64 == 0 && m / 8 % 8 == 7 && m % 8 != 4 && m % 8 != 5 && !wide then
      Decoded(rex, CmpAt(m % 8 + b, U32(code, a + 2)), k + 6)
    else Decoded(rex, Unknown, k + 2)
  }

  /** Opcode 89: a register to a register or, through SIB and a displacement, to memory. */
  function DecodeStore(code: Memory, pc: int, rex: nat, k: nat): Decoded {
    var a := pc + k;
    var m := At(code, a + 1);
    var sib := At(code, a + 2);
    var src := m / 8 % 8 + 8 * (rex / 4 % 2);
    var base := sib % 8 + 8 * (rex % 2);
    var index := sib / 8 % 8 + 8 * (rex / 2 % 2);
    if rex / 8 % 2 == 0 then Decoded(rex, Unknown, k + 2)
    else if m / 64 == 3 then Decoded(rex, MovReg(m % 8 + 8 * (rex % 2), src), k + 2)
    else if m / 64 == 1 && m % 8 == 4 then
      Decoded(rex, Store(src, base, index, sib / 64, Signed8(At(code, a + 3))), k + 4)
    else if m / 64 == 2 && m % 8 == 4 then
      Decoded(rex, Store(src, base, index, sib / 64, Signed32(U32(code, a + 3))), k + 7)
    else Decoded(rex, Unknown, k + 2)
  }

  /** Opcode FF: the ModR/M reg field 4 is an indirect jump. */
  function DecodeGroup5(code: Memory, pc: int, rex: nat, k: nat): Decoded {
    var a := pc + k;
    var m := At(code, a + 1);
    if m == 0x25 then Decoded(rex, JmpMem(Wrap(a + 6 + Signed32(U32(code, a + 2)))), k + 6)
    else if m / 64 == 3 && m / 8 % 8 == 4 then Decoded(rex, JmpReg(m % 8 + 8 * (rex % 2)), k + 2)
    else Decoded(rex, Unknown, k + 2)
  }

  /** The status flags. */
  datatype Flags = Flags(cf: bool, zf: bool, sf: bool, of: bool, pf: bool, af: bool)

  datatype Cpu = Cpu(regs: seq<word>, flags: Flags, mem: Memory, pc: nat)

  predicate Wf(s: Cpu) { |s.regs| == 16 }

  /** The flags of `x - y` on 64-bit or 32-bit words. */
  function SubFlags(x: nat, y: nat, wide: bool): Flags {
    var half := if wide then W64 / 2 else W32 / 2;
    var r: nat := if wide then (x - y) % W64 else (x - y) % W32;
    var sx := if x < half then x else x - 2 * half;
    var sy := if y < half then y else y - 2 * half;
    Flags(x < y, r == 0, r >= half, !(-half <= sx - sy < half), EvenParity(r % 256), x % 16 < y % 16)
  }

  predicate EvenParity(v: nat) {
    v == 0 || (v % 2 == 1) != EvenParity(v / 2)
  }

  /** The condition a conditional jump tests. */
  predicate Taken(cc: nat, f: Flags) {
    var c :=
      match cc / 2
      case 0 => f.of
      case 1 => f.cf
      case 2 => f.zf
      case 3 => f.cf || f.zf
      case 4 => f.sf
      case 5 => f.pf
      case 6 => f.sf != f.of
      case _ => f.zf || f.sf != f.of;
    if cc % 2 == 0 then c else !c
  }

  function Load4(m: Memory, a: int): nat {
    At(m, Wrap(a)) + 0x100 * At(m, Wrap(a + 1)) + 0x1_0000 * At(m, Wrap(a + 2)) + 0x100_0000 * At(m, Wrap(a + 3))
  }

  function Load8(m: Memory, a: int): (v: word) { Load4(m, a) + W32 * Load4(m, a + 4) }

  function Store4(m: Memory, a: int, v: nat): Memory {
    m[Wrap(a) := v % 0x100][Wrap(a + 1) := v / 0x100 % 0x100][Wrap(a + 2) := v / 0x1_0000 % 0x100]
     [Wrap(a + 3) := v / 0x100_0000 % 0x100]
  }

  function Store8(m: Memory, a: int, v: nat): Memory { Store4(Store4(m, a, v % W32), a + 4, v / W32) }

  function Address(s: Cpu, base: nat, index: nat, scale: nat, disp: int): nat
    requires Wf(s) && base < 16 && index < 16
  {
    Wrap(s.regs[base] + (if index == 4 then 0 else s.regs[index] * Pow2(scale)) + disp)
  }

  function Reg(s: Cpu, r: nat): word
    requires Wf(s)
  {
    if r < 16 then s.regs[r] else 0
  }

  function SetReg(s: Cpu, r: nat, v: word): (t: Cpu)
    requires Wf(s)
    ensures Wf(t)
  {
    if r < 16 then s.(regs := s.regs[r := v]) else s
  }

  /** One instruction; `Unknown` leaves the processor where it is. */
  function Exec(code: Memory, s: Cpu, insn: Insn, len: nat): (t: Cpu)
    requires Wf(s)
    ensures Wf(t)
  {
    var n := s.(pc := Wrap(s.pc + len));
    var sp := Reg(s, RSP);
    match insn
    case Push(r) => SetReg(n.(mem := Store8(s.mem, Wrap(sp - 8), Reg(s, r))), RSP, Wrap(sp - 8))
    case Pop(r) => SetReg(SetReg(n, RSP, Wrap(sp + 8)), r, Load8(s.mem, sp))
    case SubImm(r, imm) =>
      SetReg(n.(flags := SubFlags(Reg(s, r), Wrap(imm), true)), r, Wrap(Reg(s, r) - imm))
    case MovReg(dst, src) => SetReg(n, dst, Reg(s, src))
    case Store(src, base, index, scale, disp) =>
      if base < 16 && index < 16 then n.(mem := Store8(s.mem, Address(s, base, index, scale, disp), Reg(s, src)))
      else n
    case MovImm(r, v) => SetReg(n, r, Wrap(v))
    case CmpMem(a, imm) => n.(flags := SubFlags(Load4(s.mem, a), imm, false))
    case CmpAt(r, imm) => n.(flags := SubFlags(Load4(s.mem, Reg(s, r)), imm, false))
    case Jcc(cc, target) => if Taken(cc, s.flags) then s.(pc := target) else n
    case Jmp(target) => s.(pc := target)
    case JmpMem(slot) => s.(pc := U64(code, slot))
    case JmpReg(r) => s.(pc := Reg(s, r))
    case Unknown => s
  }

  function Step(code: Memory, s: Cpu): (t: Cpu)
    requires Wf(s)
    ensures Wf(t)
  {
    var d := Decode(code, s.pc);
    Exec(code, s, d.insn, d.len)
  }

  function Steps(code: Memory, s: Cpu, n: nat): (t: Cpu)
    requires Wf(s)
    ensures Wf(t)
    decreases n
  {
    if n == 0 then s else Steps(code, Step(code, s), n - 1)
  }

  lemma {:induction false} StepsSum(code: Memory, s: Cpu, i: nat, j: nat)
    requires Wf(s)
    ensures Steps(code, Steps(code, s, i), j) == Steps(code, s, i + j)
    decreases i
  {
    hide Step;
    if i > 0 { StepsSum(code, Step(code, s), i - 1, j); }
  }
}
