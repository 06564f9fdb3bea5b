/**
 * The AArch64 relocator: whole words are copied, ADRP becomes a 64-bit load, and a register that the prefix was
 * not seen to use carries the address to return to.
 */
module AArch64Relocator {
  import opened Words
  import opened BitMaps
  import opened BitFields
  import opened BistroStatus
  import opened AArch64Isa

  /** Registers x9 to x15, which a caller does not expect to keep. */
  const TMP_REGS := 0xfe00

  // ---- encoders ------------------------------------------------------------------------------------------

  function EncodeMov(reg: nat, shift: nat, val: nat, opcode: nat): nat {
    Or(Or(Or(opcode * 0x80_0000, shift * 0x20_0000), And(val, 0xffff) * 32), reg)
  }

  function EncodeLdrLiteral(reg: nat, offset: nat): nat {
    Or(Or(0x58 * 0x100_0000, offset * 32), reg)
  }

  function EncodeBr(reg: nat): nat { 0xd61f * 0x1_0000 + reg * 32 }

  lemma MovIs(reg: nat, shift: nat, val: nat, opcode: nat)
    requires reg < 32 && shift < 4
    ensures EncodeMov(reg, shift, val, opcode) ==
      opcode * 0x80_0000 + shift * 0x20_0000 + val % 0x1_0000 * 32 + reg
  {
    hide And, Or, Pow2;
    Pow2Table();
    BigPowers();
    AndOnes(val, 16);
    var imm := val % 0x1_0000;
    OrDisjoint(opcode, 23, shift * 0x20_0000);
    OrDisjoint(opcode * 4 + shift, 21, imm * 32);
    OrDisjoint((opcode * 4 + shift) * 0x1_0000 + imm, 5, reg);
  }

  lemma LdrIs(reg: nat, offset: nat)
    requires reg < 32 && offset < 0x8_0000
    ensures EncodeLdrLiteral(reg, offset) == 0x5800_0000 + offset * 32 + reg
  {
    hide Or, Pow2;
    Pow2Table();
    BigPowers();
    OrDisjoint(0x58, 24, offset * 32);
    OrDisjoint(0x58 * 0x8_0000 + offset, 5, reg);
  }

  /** movz and three movk, from the top half down. */
  function Load64(reg: nat, value: word): (ws: seq<inst>)
    requires reg < 32
    ensures |ws| == 4
  {
    MovIs(reg, 3, value / Weight(3), 0x1a5);
    MovIs(reg, 2, value / Weight(2), 0x1e5);
    MovIs(reg, 1, value / Weight(1), 0x1e5);
    MovIs(reg, 0, value, 0x1e5);
    [EncodeMov(reg, 3, value / Weight(3), 0x1a5), EncodeMov(reg, 2, value / Weight(2), 0x1e5),
     EncodeMov(reg, 1, value / Weight(1), 0x1e5), EncodeMov(reg, 0, value, 0x1e5)]
  }

  /** ldr reg, +8; br reg; the 64-bit destination. */
  function JumpIndirect(reg: nat, dest: word): (ws: seq<inst>)
    requires reg < 32
    ensures |ws| == 4
  {
    LdrIs(reg, 2);
    [EncodeLdrLiteral(reg, 8 / 4), EncodeBr(reg), dest % W32, dest / W32]
  }

  /** Shifts the sign bit of a `bits`-wide value to the top and back, the second time arithmetically. */
  function SignExtend(value: nat, bits: nat): int
    requires 1 <= bits <= 64
  {
    var up := Shl64(value, 64 - bits);
    (if up < W64 / 2 then up else up - W64) / Pow2(64 - bits)
  }

  // ---- recognised words ------------------------------------------------------------------------------------

  predicate IsStp(w: inst) {
    And(w, 0xffc0_0000) == 0xa880_0000 || And(w, 0xffc0_0000) == 0xa980_0000 || And(w, 0xffc0_0000) == 0xa900_0000
  }

  predicate IsCmp(w: inst) { And(w, 0x7fc0_001f) == 0x6b00_001f }

  /** MOVK, MOV (register), MOV (to or from SP), MOVZ, LDR with write-back, LDR with an unsigned offset. */
  predicate IsMoveOrLoad(w: inst) {
    And(w, 0x7f80_0000) == 0x7280_0000 || And(w, 0x7fe0_ffe0) == 0x2a00_03e0 ||
    And(w, 0x7fff_fc00) == 0x1100_0000 || And(w, 0x7f80_0000) == 0x5280_0000 ||
    IsLdrWriteBack(w) || And(w, 0xbfc0_0000) == 0xb940_0000
  }

  predicate IsLdrWriteBack(w: inst) { And(w, 0xbfe0_0400) == 0xb840_0400 }

  predicate MatchesAdrp(w: inst) { And(w, 0x9f00_0000) == 0x9000_0000 }

  predicate Accepts(w: inst) { IsStp(w) || IsCmp(w) || IsMoveOrLoad(w) || MatchesAdrp(w) }

  lemma MaskedTop(w: nat, k: nat, n: nat, m: nat)
    requires m < Pow2(k)
    ensures And(w, (Pow2(n) - 1) * Pow2(k) + m) == w / Pow2(k) % Pow2(n) * Pow2(k) + And(w % Pow2(k), m)
    ensures And(w % Pow2(k), m) <= m
  {
    hide And, Pow2, Shr;
    MaskTop(w, k, n, m);
    ShrQuotient(w, k);
    AndBound(Low(w, k), m);
  }

  lemma StpIs(w: inst)
    ensures IsStp(w) <==> StorePair(w)
  {
    hide And, Pow2;
    Pow2Table();
    BigPowers();
    MaskedTop(w, 22, 10, 0);
    AndZero(w % 0x40_0000);
  }

  lemma CmpIs(w: inst)
    ensures IsCmp(w) <==> Compare(w)
  {
    hide And, Pow2;
    Pow2Table();
    BigPowers();
    MaskedTop(w, 22, 9, 0x1f);
    AndOnes(w % 0x40_0000, 5);
    assert w % 0x40_0000 % 32 == w % 32;
  }

  lemma WideIs(w: inst)
    ensures And(w, 0x7f80_0000) == 0x7280_0000 || And(w, 0x7f80_0000) == 0x5280_0000 <==> MoveWide(w)
  {
    hide And, Pow2;
    Pow2Table();
    BigPowers();
    MaskedTop(w, 23, 8, 0);
    AndZero(w % 0x80_0000);
  }

  lemma RegisterIs(w: inst)
    ensures And(w, 0x7fe0_ffe0) == 0x2a00_03e0 <==> MoveRegister(w)
  {
    hide And, Pow2;
    Pow2Table();
    BigPowers();
    MaskedTop(w, 21, 10, 0xffe0);
    Bits5To15(w);
  }

  lemma Bits5To15(w: inst)
    ensures And(w % 0x20_0000, 0xffe0) == w / 32 % 2048 * 32
  {
    hide And, Pow2;
    Pow2Table();
    BigPowers();
    var low := w % 0x20_0000;
    MaskedTop(low, 5, 11, 0);
    AndZero(low % 32);
    assert low / 32 == w / 32 % 0x1_0000;
  }

  lemma StackIs(w: inst)
    ensures And(w, 0x7fff_fc00) == 0x1100_0000 <==> MoveStack(w)
  {
    hide And, Pow2;
    Pow2Table();
    BigPowers();
    MaskedTop(w, 10, 21, 0);
    AndZero(w % 0x400);
  }

  lemma Bit10(v: nat)
    ensures And(v % 0x20_0000, 0x400) == v / 0x400 % 2 * 0x400
  {
    hide And, Pow2;
    Pow2Table();
    BigPowers();
    var low := v % 0x20_0000;
    MaskedTop(low, 10, 1, 0);
    AndZero(low % 0x400);
    assert low / 0x400 % 2 == v / 0x400 % 2;
  }

  lemma WriteBackFields(w: inst)
    ensures And(w, 0xbfe0_0400) ==
      w / 0x8000_0000 * 0x8000_0000 + w / 0x20_0000 % 512 * 0x20_0000 + w / 0x400 % 2 * 0x400
  {
    hide And, Pow2;
    Pow2Table();
    BigPowers();
    var v := w % 0x8000_0000;
    MaskedTop(w, 31, 1, 0x3fe0_0400);
    MaskedTop(v, 21, 9, 0x400);
    Bit10(v);
    BelowTop(w);
  }

  lemma BelowTop(w: inst)
    ensures var v := w % 0x8000_0000; v / 0x20_0000 % 512 == w / 0x20_0000 % 512 && v / 0x400 % 2 == w / 0x400 % 2
  {
    assert w % 0x8000_0000 / 0x20_0000 == w / 0x20_0000 % 0x400;
    assert w % 0x8000_0000 / 0x400 == w / 0x400 % 0x20_0000;
  }

  lemma WriteBackIs(w: inst)
    ensures IsLdrWriteBack(w) <==> LoadWriteBack(w)
  {
    hide And;
    WriteBackFields(w);
  }

  lemma UnsignedIs(w: inst)
    ensures And(w, 0xbfc0_0000) == 0xb940_0000 <==> LoadOffset(w)
  {
    hide And, Pow2;
    Pow2Table();
    BigPowers();
    var v := w % 0x8000_0000;
    MaskedTop(w, 31, 1, 0x3fc0_0000);
    MaskedTop(v, 22, 8, 0);
    AndZero(v % 0x40_0000);
    assert v / 0x40_0000 % 256 == w / 0x40_0000 % 256;
  }

  /** The mask that selects ADRP selects exactly the architecture's ADRP. */
  lemma AdrpMask(w: inst)
    ensures MatchesAdrp(w) <==> IsAdrp(w)
  {
    hide And, Pow2;
    Pow2Table();
    BigPowers();
    var v := w % 0x8000_0000;
    MaskedTop(w, 31, 1, 0x1f00_0000);
    MaskedTop(v, 24, 5, 0);
    AndZero(v % 0x100_0000);
    assert v / 0x100_0000 % 32 == w / 0x100_0000 % 32;
  }

  lemma OtherClasses(w: inst)
    ensures IsAdrp(w) || IsLdrLiteral(w) || IsBr(w) ==> UsesPc(w)
  {
  }

  /** The masks select exactly the words that have those fields. */
  lemma RecognisedWords(w: inst)
    ensures (IsStp(w) <==> StorePair(w)) && (IsCmp(w) <==> Compare(w)) && (MatchesAdrp(w) <==> IsAdrp(w))
    ensures IsMoveOrLoad(w) <==>
      MoveWide(w) || MoveRegister(w) || MoveStack(w) || LoadWriteBack(w) || LoadOffset(w)
    ensures Accepts(w) <==> Recognised(w)
    ensures forall r :: Notes(w, r) <==> if StorePair(w) then w / 32 % 32 == r else !Compare(w) && w % 32 == r
  {
    hide And, IsStp, IsCmp, MatchesAdrp, IsLdrWriteBack, StorePair, Compare, MoveWide, MoveRegister, MoveStack,
         LoadWriteBack, LoadOffset, IsAdrp;
    StpIs(w);
    CmpIs(w);
    WideIs(w);
    RegisterIs(w);
    StackIs(w);
    WriteBackIs(w);
    UnsignedIs(w);
    AdrpMask(w);
  }

  /** The classes that those fields belong to. */
  lemma CopiedClass(w: inst)
    requires Recognised(w) && !IsAdrp(w)
    ensures Class(w) in {0x28, 0x29, 0x6b, 0x72, 0x2a, 0x11, 0x52, 0x38, 0x78, 0x39, 0x79}
  {
    PairClasses(w);
    WideClass(w);
    RegisterClass(w);
    StackClass(w);
    LoadClasses(w);
    hide StorePair, Compare, MoveWide, MoveRegister, MoveStack, LoadWriteBack, LoadOffset, Class, IsAdrp;
  }

  lemma PairClasses(w: inst)
    ensures (StorePair(w) ==> Class(w) in {0x28, 0x29}) && (Compare(w) ==> Class(w) == 0x6b)
  {
  }

  lemma WideClass(w: inst)
    ensures MoveWide(w) ==> Class(w) in {0x52, 0x72}
  {
    var x := w / 0x80_0000;
    assert Class(w) == x / 2 % 128;
  }

  lemma RegisterClass(w: inst)
    ensures MoveRegister(w) ==> Class(w) == 0x2a
  {
    var x := w / 0x20_0000;
    assert Class(w) == x / 8 % 128;
  }

  lemma StackClass(w: inst)
    ensures MoveStack(w) ==> Class(w) == 0x11
  {
    assert w / 0x100_0000 == w / 0x400 / 0x4000;
  }

  lemma LoadClasses(w: inst)
    ensures (LoadWriteBack(w) ==> Class(w) in {0x38, 0x78}) && (LoadOffset(w) ==> Class(w) in {0x39, 0x79})
  {
  }

  lemma AdrpApart(w: inst)
    requires IsAdrp(w)
    ensures !StorePair(w) && !Compare(w) && !MoveWide(w) && !MoveRegister(w) && !MoveStack(w) && !LoadWriteBack(w) &&
      !LoadOffset(w)
  {
    assert Class(w) % 32 == 0x10;
    PairClasses(w);
    WideClass(w);
    RegisterClass(w);
    StackClass(w);
    LoadClasses(w);
    hide StorePair, Compare, MoveWide, MoveRegister, MoveStack, LoadWriteBack, LoadOffset, Class, IsAdrp;
  }

  /** A copied word neither branches nor reads relative to its own address. */
  lemma CopiedStaysPut(w: inst)
    requires IsStp(w) || IsCmp(w) || IsMoveOrLoad(w)
    ensures !UsesPc(w) && !IsBr(w) && !IsLdrLiteral(w) && !IsAdrp(w)
  {
    hide IsStp, IsCmp, IsMoveOrLoad, Class, IsBr, IsLdrLiteral, IsAdrp, MatchesAdrp, Recognised;
    RecognisedWords(w);
    OtherClasses(w);
    if !IsAdrp(w) { CopiedClass(w); } else { AdrpApart(w); }
  }

  lemma CopiedIsNotAdrp(w: inst)
    ensures IsStp(w) || IsCmp(w) || IsMoveOrLoad(w) ==> !MatchesAdrp(w)
  {
    hide IsStp, IsCmp, IsMoveOrLoad, MatchesAdrp;
    AdrpMask(w);
    if IsStp(w) || IsCmp(w) || IsMoveOrLoad(w) { CopiedStaysPut(w); }
  }

  // ---- translation -----------------------------------------------------------------------------------------

  /** The page count as the relocator computes it: the 21-bit immediate, shifted and sign-extended from 33 bits. */
  function AdrpValue(w: inst, pc: int): word {
    var immlo := And(w / 0x2000_0000, 3);
    var immhi := And(w / 32, 0x7_ffff);
    (pc + SignExtend(Or(immhi * 4, immlo) * 4096, 33)) % W64
  }

  function Translate(w: inst, pc: int): (ws: seq<inst>)
    ensures |ws| == 1 || |ws| == 4
  {
    if MatchesAdrp(w) then Load64(Rd(w), AdrpValue(w, pc)) else [w]
  }

  /** The replacement of the words `ws` from `pc` on. */
  function Rewritten(ws: seq<inst>, pc: int): seq<inst>
    decreases |ws|
  {
    if ws == [] then [] else Translate(ws[0], pc) + Rewritten(ws[1..], pc + 4)
  }

  /** The register the relocator notes as used by `w`: the base of a store pair, none for a compare, else the target. */
  predicate Notes(w: inst, r: nat) { if IsStp(w) then Rn(w) == r else !IsCmp(w) && Rd(w) == r }

  /** The registers still free after `w`. */
  function Drop(avail: nat, w: inst): nat {
    if IsStp(w) then Unmark(avail, Rn(w)) else if IsCmp(w) then avail else Unmark(avail, Rd(w))
  }

  function AvailAfter(avail: nat, ws: seq<inst>): nat
    decreases |ws|
  {
    if ws == [] then avail else AvailAfter(Drop(avail, ws[0]), ws[1..])
  }

  /** The `n` words at `a`. */
  function Take(code: Text, a: int, n: nat): (ws: seq<inst>)
    ensures |ws| == n
    decreases n
  {
    if n == 0 then [] else Take(code, a, n - 1) + [Word(code, a + 4 * (n - 1))]
  }

  ghost predicate AllAccepted(ws: seq<inst>) { forall i :: 0 <= i < |ws| ==> Accepts(ws[i]) }

  lemma {:induction false} MovedAppend(ws: seq<inst>, w: inst, pc: int)
    ensures Rewritten(ws + [w], pc) == Rewritten(ws, pc) + Translate(w, pc + 4 * |ws|)
    decreases |ws|
  {
    hide Translate;
    if ws == [] {
      assert ws + [w] == [w] && [w][1..] == [];
    } else {
      assert (ws + [w])[1..] == ws[1..] + [w];
      MovedAppend(ws[1..], w, pc + 4);
    }
  }

  /** Each word becomes at most four. */
  lemma {:induction false} RewrittenLength(ws: seq<inst>, pc: int)
    ensures |ws| <= |Rewritten(ws, pc)| <= 4 * |ws|
    decreases |ws|
  {
    hide Translate;
    if ws != [] { RewrittenLength(ws[1..], pc + 4); }
  }

  lemma {:induction false} AvailAppend(avail: nat, ws: seq<inst>, w: inst)
    ensures AvailAfter(avail, ws + [w]) == Drop(AvailAfter(avail, ws), w)
    decreases |ws|
  {
    hide Drop;
    if ws == [] {
      assert ws + [w] == [w] && [w][1..] == [];
    } else {
      assert (ws + [w])[1..] == ws[1..] + [w];
      AvailAppend(Drop(avail, ws[0]), ws[1..], w);
    }
  }

  lemma DropBits(avail: nat, w: inst, r: nat)
    requires avail < W32 && r < 32
    ensures Drop(avail, w) < W32 && (Bit(Drop(avail, w), r) <==> Bit(avail, r) && !Notes(w, r))
  {
    hide Bit, Unmark, IsStp, IsCmp;
    MarkEffect(avail, Rn(w));
    MarkEffect(avail, Rd(w));
  }

  /** A register is still free exactly when it was free and no word noted it. */
  lemma {:induction false} AvailBits(avail: nat, ws: seq<inst>, r: nat)
    requires avail < W32 && r < 32
    ensures AvailAfter(avail, ws) < W32
    ensures Bit(AvailAfter(avail, ws), r) <==> Bit(avail, r) && forall i :: 0 <= i < |ws| ==> !Notes(ws[i], r)
    decreases |ws|
  {
    hide Bit, Drop, Notes;
    if ws != [] {
      DropBits(avail, ws[0], r);
      AvailBits(Drop(avail, ws[0]), ws[1..], r);
      if Bit(AvailAfter(avail, ws), r) {
        forall i | 0 <= i < |ws| ensures !Notes(ws[i], r) { assert i > 0 ==> ws[i] == ws[1..][i - 1]; }
      } else if Bit(avail, r) && !Notes(ws[0], r) {
        var i :| 0 <= i < |ws[1..]| && Notes(ws[1..][i], r);
        assert ws[1..][i] == ws[i + 1];
      }
    }
  }

  /** The relocation context with the registers still free. */
  class Relocation {
    const code: Text
    const room: nat
    var srcP: int
    var out: seq<inst>
    var avail: nat

    constructor (code: Text, room: nat)
      ensures this.code == code && this.room == room && avail == TMP_REGS
    {
      this.code := code;
      this.room := room;
      srcP, out, avail := 0, [], TMP_REGS;
    }

    method RelocateOne() returns (st: Status)
      modifies this
      ensures st != NoMemory && (st == Unsupported <==> !Accepts(Word(code, old(srcP))))
      ensures st == Unsupported <==> !Recognised(Word(code, old(srcP)))
      ensures st == BufferTooSmall <==>
        (Accepts(Word(code, old(srcP))) && 4 * (|old(out)| + |Translate(Word(code, old(srcP)), old(srcP))|) > room)
      ensures srcP == old(srcP) + 4
      ensures st == Ok ==> out == old(out) + Translate(Word(code, old(srcP)), old(srcP))
      ensures st == Ok ==> avail == Drop(old(avail), Word(code, old(srcP)))
      ensures st != Ok ==> out == old(out)
    {
      hide IsStp, IsCmp, IsMoveOrLoad, MatchesAdrp, Load64, AdrpValue, Unmark, Recognised;
      var pc := srcP;
      var w := Word(code, srcP);
      srcP := srcP + 4;
      var copy: seq<inst> := [w];
      CopiedIsNotAdrp(w);
      RecognisedWords(w);
      if IsStp(w) {
        avail := Unmark(avail, w / 32 % 32);
      } else if IsCmp(w) {
      } else if IsMoveOrLoad(w) {
        avail := Unmark(avail, w % 32);
      } else if MatchesAdrp(w) {
        copy := Load64(w % 32, AdrpValue(w, pc));
        avail := Unmark(avail, w % 32);
      } else {
        return Unsupported;
      }
      if 4 * |out| + 4 * |copy| > room { return BufferTooSmall; }
      out := out + copy;
      return Ok;
    }

    /** Moves the shortest run of whole words that covers `minLength` bytes from `src`. */
    method RelocateCode(src: int, minLength: nat) returns (st: Status)
      modifies this
      ensures var ws := Take(code, src, (minLength + 3) / 4);
        && (st == Ok <==> AllAccepted(ws) && 4 * |Rewritten(ws, src)| <= room)
        && (st == Ok ==> out == Rewritten(ws, src) && avail == AvailAfter(old(avail), ws) && srcP == src + 4 * |ws|)
      ensures st != NoMemory && (room >= 4 * minLength + 12 ==> st != BufferTooSmall)
    {
      hide Accepts, Translate, Drop;
      srcP, out := src, [];
      ghost var n := 0;
      var limit := src + minLength;
      while srcP < limit
        invariant n <= (minLength + 3) / 4 && srcP == src + 4 * n
        invariant AllAccepted(Take(code, src, n)) && out == Rewritten(Take(code, src, n), src)
        invariant avail == AvailAfter(old(avail), Take(code, src, n)) && 4 * |out| <= room
        decreases limit - srcP
      {
        st := RelocateOne();
        Grown(code, src, n, old(avail));
        TakePrefix(code, src, n + 1, (minLength + 3) / 4);
        if st != Ok { return; }
        n := n + 1;
      }
      st := Ok;
    }
  }

  lemma Grown(code: Text, src: int, n: nat, avail: nat)
    ensures var ws, w := Take(code, src, n), Word(code, src + 4 * n);
      Take(code, src, n + 1) == ws + [w] &&
      Rewritten(ws + [w], src) == Rewritten(ws, src) + Translate(w, src + 4 * n) &&
      AvailAfter(avail, ws + [w]) == Drop(AvailAfter(avail, ws), w) && |Rewritten(ws + [w], src)| <= 4 * n + 4 &&
      (AllAccepted(ws + [w]) <==> AllAccepted(ws) && Accepts(w))
  {
    hide Translate, Drop, Accepts, AllAccepted;
    AcceptedAppend(Take(code, src, n), Word(code, src + 4 * n));
    MovedAppend(Take(code, src, n), Word(code, src + 4 * n), src);
    AvailAppend(avail, Take(code, src, n), Word(code, src + 4 * n));
    RewrittenLength(Take(code, src, n) + [Word(code, src + 4 * n)], src);
  }

  lemma AcceptedAppend(ws: seq<inst>, w: inst)
    ensures AllAccepted(ws + [w]) <==> AllAccepted(ws) && Accepts(w)
  {
    hide Accepts;
    var all := ws + [w];
    assert all[|ws|] == w && forall i :: 0 <= i < |ws| ==> all[i] == ws[i];
  }

  /** A prefix that is refused, or too long, stays so. */
  lemma {:induction false} TakePrefix(code: Text, src: int, m: nat, n: nat)
    requires m <= n
    ensures AllAccepted(Take(code, src, n)) ==> AllAccepted(Take(code, src, m))
    ensures |Rewritten(Take(code, src, m), src)| <= |Rewritten(Take(code, src, n), src)|
    decreases n
  {
    hide Translate, Accepts, Drop;
    if m < n {
      TakePrefix(code, src, m, n - 1);
      Grown(code, src, n - 1, 0);
    }
  }
}
