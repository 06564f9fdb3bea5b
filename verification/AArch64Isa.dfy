/**
 * The AArch64 instructions that the relocator emits or rewrites (section C6.2 of the Arm Architecture Reference
 * Manual, DDI 0487). Every other instruction is given by an `Effect`: any effect at all that does not depend on
 * where the instruction is, so the results hold for each meaning the copied instructions may have.
 */
module AArch64Isa {
  import opened Words

  type word = x: int | 0 <= x < W64
  type inst = x: int | 0 <= x < W32

  /** Everything but the program counter. Register 31 names the zero register here, so it is never listed. */
  datatype Core = Core(x: map<nat, word>, sp: word, nzcv: nat, mem: map<word, nat>)

  datatype Cpu = Cpu(core: Core, pc: int)

  type Effect = (inst, Core) -> Core

  /** Instruction memory by address. */
  type Text = map<int, inst>

  function GetX(c: Core, r: nat): word { if r in c.x && r != 31 then c.x[r] else 0 }
  function SetX(c: Core, r: nat, v: word): Core { if r == 31 then c else c.(x := c.x[r := v]) }

  function Word(code: Text, a: int): inst { if a in code then code[a] else 0 }

  /** The doubleword at `a`, least significant word first. */
  function Double(code: Text, a: int): word { Word(code, a) + W32 * Word(code, a + 4) }

  predicate IsMovz(w: inst) { w / 0x80_0000 == 0x1a5 }
  predicate IsMovk(w: inst) { w / 0x80_0000 == 0x1e5 }
  predicate IsLdrLiteral(w: inst) { w / 0x100_0000 == 0x58 }
  predicate IsBr(w: inst) { w / 0x400 == 0x35_87c0 && w % 32 == 0 }
  predicate IsAdrp(w: inst) { w / 0x8000_0000 == 1 && w / 0x100_0000 % 32 == 0x10 }

  /** STP of 64-bit registers with write-back after or before, or with a signed offset. */
  predicate StorePair(w: inst) { w / 0x40_0000 in {0x2a2, 0x2a4, 0x2a6} }

  /** CMP with a register operand: SUBS whose result is discarded. */
  predicate Compare(w: inst) { w / 0x40_0000 % 512 == 0x1ac && w % 32 == 31 }

  /** MOVK and MOVZ; MOV of a register, which is ORR with the zero register; MOV to or from SP, which is ADD of 0. */
  predicate MoveWide(w: inst) { w / 0x80_0000 % 256 == 0xe5 || w / 0x80_0000 % 256 == 0xa5 }
  predicate MoveRegister(w: inst) { w / 0x20_0000 % 1024 == 0x150 && w / 32 % 2048 == 0x1f }
  predicate MoveStack(w: inst) { w / 0x400 % 0x20_0000 == 0x4_4000 }

  /** LDR with write-back, and LDR with an unsigned offset. */
  predicate LoadWriteBack(w: inst) {
    w / 0x8000_0000 == 1 && w / 0x20_0000 % 512 == 0x1c2 && w / 0x400 % 2 == 1
  }

  predicate LoadOffset(w: inst) { w / 0x8000_0000 == 1 && w / 0x40_0000 % 256 == 0xe5 }

  predicate Recognised(w: inst) {
    || StorePair(w) || Compare(w) || MoveWide(w) || MoveRegister(w) || MoveStack(w) || LoadWriteBack(w) || LoadOffset(w)
    || IsAdrp(w)
  }

  /** Bits 24 to 30, which tell the recognised classes apart. */
  function Class(w: inst): nat { w / 0x100_0000 % 128 }

  /**
   * The classes of instructions that branch or read relative to their own address: ADR and ADRP; B and BL; compare
   * and branch; test and branch; conditional branches; branches to a register; and all literal loads.
   */
  predicate UsesPc(w: inst) {
    var c := Class(w);
    || c % 32 == 0x10
    || c / 4 == 5
    || c / 2 == 0x1a
    || c / 2 == 0x1b
    || c / 2 == 0x2a
    || c / 2 == 0x2b
    || c % 64 == 0x18
    || c % 64 == 0x1c
  }

  function Rd(w: inst): nat { w % 32 }
  function Rn(w: inst): nat { w / 32 % 32 }
  function Imm16(w: inst): nat { w / 32 % 0x1_0000 }
  function Half(w: inst): nat { w / 0x20_0000 % 4 }

  /** The weight of a 16-bit half of a register. */
  function Weight(half: nat): nat {
    if half == 0 then 1 else if half == 1 then 0x1_0000 else if half == 2 then W32 else 0x1_0000_0000_0000
  }

  /** `x` with one of its halves replaced. */
  function Insert(x: word, half: nat, imm: nat): word
    requires half < 4 && imm < 0x1_0000
  {
    x - x / Weight(half) % 0x1_0000 * Weight(half) + imm * Weight(half)
  }

  /** The signed 21-bit page count of ADRP. */
  function PageCount(w: inst): int {
    var imm := w / 32 % 0x8_0000 * 4 + w / 0x2000_0000 % 4;
    if imm < 0x10_0000 then imm else imm - 0x20_0000
  }

  /** The signed 19-bit word offset of LDR (literal), in bytes. */
  function LiteralOffset(w: inst): int {
    var imm := w / 32 % 0x8_0000;
    4 * (if imm < 0x4_0000 then imm else imm - 0x8_0000)
  }

  /** The page of `pc` plus the page count. */
  function PageAddress(w: inst, pc: int): word { (pc - pc % 4096 + 4096 * PageCount(w)) % W64 }

  /** What an instruction that does not branch does to the core. */
  function Exec(effect: Effect, code: Text, w: inst, pc: int, c: Core): Core {
    if IsMovz(w) then SetX(c, Rd(w), Insert(0, Half(w), Imm16(w)))
    else if IsMovk(w) then SetX(c, Rd(w), Insert(GetX(c, Rd(w)), Half(w), Imm16(w)))
    else if IsLdrLiteral(w) then SetX(c, Rd(w), Double(code, pc + LiteralOffset(w)))
    else if IsAdrp(w) then SetX(c, Rd(w), PageAddress(w, pc))
    else effect(w, c)
  }

  function Step(effect: Effect, code: Text, s: Cpu): Cpu {
    var w := Word(code, s.pc);
    if IsBr(w) then s.(pc := GetX(s.core, Rn(w)))
    else Cpu(Exec(effect, code, w, s.pc, s.core), s.pc + 4)
  }

  function Steps(effect: Effect, code: Text, s: Cpu, n: nat): Cpu
    decreases n
  {
    if n == 0 then s else Steps(effect, code, Step(effect, code, s), n - 1)
  }

  lemma {:induction false} StepsSum(effect: Effect, code: Text, s: Cpu, i: nat, j: nat)
    ensures Steps(effect, code, Steps(effect, code, s, i), j) == Steps(effect, code, s, i + j)
    decreases i
  {
    hide Step;
    if i > 0 { StepsSum(effect, code, Step(effect, code, s), i - 1, j); }
  }

  /** Memory holds the words `ws` at `a`. */
  ghost predicate Placed(code: Text, a: int, ws: seq<inst>) {
    forall i {:trigger ws[i]} :: 0 <= i < |ws| ==> Word(code, a + 4 * i) == ws[i]
  }

  lemma PlacedAt(code: Text, a: int, ws: seq<inst>, i: nat)
    requires Placed(code, a, ws) && i < |ws|
    ensures Word(code, a + 4 * i) == ws[i]
  {
  }

  lemma PlacedBoth(code: Text, a: int, us: seq<inst>, ws: seq<inst>)
    requires Placed(code, a, us + ws)
    ensures Placed(code, a, us) && Placed(code, a + 4 * |us|, ws)
  {
    forall i | 0 <= i < |us| ensures Word(code, a + 4 * i) == us[i] { assert (us + ws)[i] == us[i]; }
    forall i | 0 <= i < |ws| ensures Word(code, a + 4 * |us| + 4 * i) == ws[i] {
      assert (us + ws)[|us| + i] == ws[i];
    }
  }
}
