/** What relocated AArch64 code does, compared with the original prefix. */
module AArch64Meaning {
  import opened Words
  import opened BitMaps
  import opened BitFields
  import opened BistroStatus
  import opened AArch64Isa
  import opened AArch64Relocator

  // ---- ADRP ------------------------------------------------------------------------------------------------

  /** The two shifts read the low `bits` bits as a signed number, for every value and width. */
  lemma SignExtendIs(value: nat, bits: nat)
    requires 1 <= bits <= 64
    ensures var r := Low(value, bits);
      SignExtend(value, bits) == if r < Pow2(bits - 1) then r else r - Pow2(bits)
  {
    hide Pow2;
    Pow2Sum(64 - bits, bits);
    Pow2Of64();
    Pow2Step(bits - 1);
    ShiftedBack(value, Pow2(64 - bits), Pow2(bits), Pow2(bits - 1));
  }

  lemma ShiftedBack(value: nat, p: nat, b: nat, h: nat)
    requires p > 0 && b == 2 * h && h > 0 && p * b == W64
    ensures var up, r := value * p % W64, value % b;
      (if up < W64 / 2 then up else up - W64) / p == if r < h then r else r - b
  {
    var r: int := value % b;
    ShiftedRemainder(value, p, b);
    ShiftCompares(r, p, h);
    Halved(p, h);
    if r < h {
      QuotientIs(r * p, p, r, 0);
    } else {
      Distributed(r, b, p);
      QuotientIs((r - b) * p, p, r - b, 0);
    }
  }

  lemma Halved(p: int, h: int)
    requires p * (2 * h) == W64
    ensures h * p == W64 / 2
  {
    assert p * (2 * h) == 2 * (h * p);
  }

  lemma Distributed(r: int, b: int, p: int)
    ensures (r - b) * p == r * p - p * b
  {
  }

  lemma ShiftedRemainder(v: nat, p: nat, b: nat)
    requires p > 0 && b > 0
    ensures v * p % (p * b) == v % b * p && v % b < b
  {
    var q, r := v / b, v % b;
    assert v == q * b + r;
    assert v * p == q * (p * b) + r * p;
    assert r * p < b * p;
    RemainderIs(v * p, p * b, q, r * p);
  }

  lemma ShiftCompares(r: int, p: int, h: int)
    requires p > 0
    ensures r * p < h * p <==> r < h
  {
    if r < h { assert (h - r) * p > 0; } else { assert (r - h) * p >= 0; }
  }

  /** ADRP's displacement is 4096 times its signed 21-bit page count. */
  lemma AdrpDisplacement(w: inst, pc: int)
    ensures AdrpValue(w, pc) == (pc + 4096 * PageCount(w)) % W64
  {
    hide And, Or, Pow2, SignExtend;
    Pow2Table();
    BigPowers();
    AndOnes(w / 0x2000_0000, 2);
    AndOnes(w / 32, 19);
    var immlo, immhi := w / 0x2000_0000 % 4, w / 32 % 0x8_0000;
    OrDisjoint(immhi, 2, immlo);
    SignExtendIs((immhi * 4 + immlo) * 4096, 33);
  }

  /** The value loaded for ADRP is the architecture's exactly when the instruction starts a page. */
  lemma AdrpExact(w: inst, pc: int)
    ensures AdrpValue(w, pc) == PageAddress(w, pc) <==> pc % 4096 == 0
  {
    hide PageCount, AdrpValue;
    AdrpDisplacement(w, pc);
  }

  // ---- emitted runs ----------------------------------------------------------------------------------------

  lemma MovDecodes(reg: nat, shift: nat, val: nat)
    requires reg < 32 && shift < 4
    ensures var z := EncodeMov(reg, shift, val, 0x1a5);
      z < W32 && IsMovz(z) && !IsBr(z) && Rd(z) == reg && Half(z) == shift && Imm16(z) == val % 0x1_0000
    ensures var k := EncodeMov(reg, shift, val, 0x1e5);
      k < W32 && IsMovk(k) && !IsMovz(k) && !IsBr(k) && Rd(k) == reg && Half(k) == shift &&
      Imm16(k) == val % 0x1_0000
  {
    hide EncodeMov;
    MovIs(reg, shift, val, 0x1a5);
    MovIs(reg, shift, val, 0x1e5);
    FieldsOf(reg, shift, val % 0x1_0000, 0x1a5);
    FieldsOf(reg, shift, val % 0x1_0000, 0x1e5);
  }

  lemma FieldsOf(reg: nat, shift: nat, imm: nat, opcode: nat)
    requires reg < 32 && shift < 4 && imm < 0x1_0000 && opcode < 512
    ensures var w := opcode * 0x80_0000 + shift * 0x20_0000 + imm * 32 + reg;
      w < W32 && w / 0x80_0000 == opcode && w % 32 == reg && w / 0x20_0000 % 4 == shift && w / 32 % 0x1_0000 == imm
  {
    var w := opcode * 0x80_0000 + shift * 0x20_0000 + imm * 32 + reg;
    QuotientIs(w, 32, opcode * 0x4_0000 + shift * 0x1_0000 + imm, reg);
    QuotientIs(w, 0x20_0000, opcode * 4 + shift, imm * 32 + reg);
    QuotientIs(w, 0x80_0000, opcode, shift * 0x20_0000 + imm * 32 + reg);
    RemainderIs(w, 32, opcode * 0x4_0000 + shift * 0x1_0000 + imm, reg);
    RemainderIs(opcode * 0x4_0000 + shift * 0x1_0000 + imm, 0x1_0000, opcode * 4 + shift, imm);
    RemainderIs(opcode * 4 + shift, 4, opcode, shift);
  }

  /** Replacing the halves of any register from the top down gives the value. */
  lemma HalvesJoin(v: word)
    ensures var a := Insert(0, 3, v / Weight(3) % 0x1_0000);
      var b := Insert(a, 2, v / Weight(2) % 0x1_0000);
      var c := Insert(b, 1, v / Weight(1) % 0x1_0000);
      Insert(c, 0, v % 0x1_0000) == v
  {
    hide Insert;
    var q1, q2, q3 := v / 0x1_0000, v / W32, v / 0x1_0000_0000_0000;
    QuotientTwice16(v);
    var h2, h1, h0 := q2 % 0x1_0000, q1 % 0x1_0000, v % 0x1_0000;
    assert q2 == q3 * 0x1_0000 + h2 && q1 == q2 * 0x1_0000 + h1 && v == q1 * 0x1_0000 + h0;
    InsertBelow(0, 3, q3);
    InsertBelow(q3, 2, h2);
    InsertBelow(q2, 1, h1);
    InsertBelow(q1, 0, h0);
  }

  lemma QuotientTwice16(v: word)
    ensures v / 0x1_0000 / 0x1_0000 == v / W32 && v / W32 / 0x1_0000 == v / 0x1_0000_0000_0000
    ensures v / 0x1_0000_0000_0000 < 0x1_0000
  {
  }

  /** Setting a half below which and in which everything is zero. */
  lemma InsertBelow(q: nat, half: nat, imm: nat)
    requires half < 4 && imm < 0x1_0000 && q * (Weight(half) * 0x1_0000) + imm * Weight(half) < W64
    ensures 0 <= q * (Weight(half) * 0x1_0000) < W64
    ensures Insert(q * (Weight(half) * 0x1_0000), half, imm) == (q * 0x1_0000 + imm) * Weight(half)
  {
    hide Weight;
    WeightPositive(half);
    ZeroHalf(q, Weight(half), imm);
  }

  lemma WeightPositive(half: nat)
    ensures Weight(half) > 0
  {
  }

  lemma ZeroHalf(q: int, g: int, imm: int)
    requires g > 0 && q >= 0 && imm >= 0
    ensures q * (g * 0x1_0000) >= 0 && imm * g >= 0 && q * (g * 0x1_0000) / g % 0x1_0000 == 0
    ensures q * (g * 0x1_0000) + imm * g == (q * 0x1_0000 + imm) * g
  {
    var a := q * 0x1_0000;
    assert q * (g * 0x1_0000) == a * g && (a + imm) * g == a * g + imm * g;
    QuotientIs(a * g, g, a, 0);
    RemainderIs(a, 0x1_0000, q, 0);
  }

  lemma SetTwice(c: Core, r: nat, u: word, v: word)
    ensures SetX(SetX(c, r, u), r, v) == SetX(c, r, v)
    ensures r != 31 ==> GetX(SetX(c, r, v), r) == v
  {
    assert c.x[r := u][r := v] == c.x[r := v];
  }

  lemma MovzStep(effect: Effect, code: Text, s: Cpu, reg: nat, shift: nat, val: nat)
    requires reg < 32 && shift < 4 && Word(code, s.pc) == EncodeMov(reg, shift, val, 0x1a5)
    ensures Step(effect, code, s) == Cpu(SetX(s.core, reg, Insert(0, shift, val % 0x1_0000)), s.pc + 4)
  {
    hide EncodeMov, IsMovz, IsMovk, IsBr, Rd, Half, Imm16, Insert;
    MovDecodes(reg, shift, val);
  }

  lemma MovkStep(effect: Effect, code: Text, s: Cpu, reg: nat, shift: nat, val: nat)
    requires reg < 32 && shift < 4 && Word(code, s.pc) == EncodeMov(reg, shift, val, 0x1e5)
    ensures Step(effect, code, s) ==
      Cpu(SetX(s.core, reg, Insert(GetX(s.core, reg), shift, val % 0x1_0000)), s.pc + 4)
  {
    hide EncodeMov, IsMovz, IsMovk, IsBr, Rd, Half, Imm16, Insert;
    MovDecodes(reg, shift, val);
  }

  lemma FourSteps(effect: Effect, code: Text, s: Cpu)
    ensures Steps(effect, code, s, 4) ==
      Step(effect, code, Step(effect, code, Step(effect, code, Step(effect, code, s))))
  {
    hide Step;
    var s1 := Step(effect, code, s);
    var s2 := Step(effect, code, s1);
    assert Steps(effect, code, s, 4) == Steps(effect, code, s1, 3) == Steps(effect, code, s2, 2);
    assert Steps(effect, code, s2, 2) == Steps(effect, code, Step(effect, code, s2), 1);
  }

  /** Running movz and three movk leaves exactly the 64-bit value in the register, for every value. */
  lemma Load64Run(effect: Effect, code: Text, c: Core, a: int, reg: nat, v: word)
    requires reg < 32 && Placed(code, a, Load64(reg, v))
    ensures Steps(effect, code, Cpu(c, a), 4) == Cpu(SetX(c, reg, v), a + 16)
  {
    hide EncodeMov, Step, Steps, Insert, Placed;
    var ws := Load64(reg, v);
    PlacedAt(code, a, ws, 0);
    PlacedAt(code, a, ws, 1);
    PlacedAt(code, a, ws, 2);
    PlacedAt(code, a, ws, 3);
    var s0 := Cpu(c, a);
    FourSteps(effect, code, s0);
    var v3 := Insert(0, 3, v / Weight(3) % 0x1_0000);
    var v2 := Insert(v3, 2, v / Weight(2) % 0x1_0000);
    var v1 := Insert(v2, 1, v / Weight(1) % 0x1_0000);
    HalvesJoin(v);
    hide Weight;
    MovzStep(effect, code, s0, reg, 3, v / Weight(3));
    var s1 := Step(effect, code, s0);
    MovkStep(effect, code, s1, reg, 2, v / Weight(2));
    var s2 := Step(effect, code, s1);
    SetTwice(c, reg, v3, if reg == 31 then 0 else v2);
    MovkStep(effect, code, s2, reg, 1, v / Weight(1));
    var s3 := Step(effect, code, s2);
    SetTwice(c, reg, v2, if reg == 31 then 0 else v1);
    MovkStep(effect, code, s3, reg, 0, v);
    SetTwice(c, reg, v1, v);
  }

  lemma JumpDecodes(reg: nat)
    requires reg < 32
    ensures var l := EncodeLdrLiteral(reg, 2);
      l < W32 && IsLdrLiteral(l) && !IsMovz(l) && !IsMovk(l) && !IsBr(l) && Rd(l) == reg && LiteralOffset(l) == 8
    ensures var b := EncodeBr(reg); IsBr(b) && Rn(b) == reg
  {
    hide EncodeLdrLiteral;
    LdrIs(reg, 2);
  }

  /** ldr and br through a register arrive at the destination and change that register only. */
  lemma JumpRun(effect: Effect, code: Text, c: Core, a: int, reg: nat, dest: word)
    requires reg < 31 && Placed(code, a, JumpIndirect(reg, dest))
    ensures Steps(effect, code, Cpu(c, a), 2) == Cpu(SetX(c, reg, dest), dest)
  {
    hide EncodeLdrLiteral, EncodeBr, IsMovz, IsMovk, IsBr, IsLdrLiteral, Rd, Rn, LiteralOffset, Placed;
    var ws := JumpIndirect(reg, dest);
    PlacedAt(code, a, ws, 0);
    PlacedAt(code, a, ws, 1);
    PlacedAt(code, a, ws, 2);
    PlacedAt(code, a, ws, 3);
    JumpDecodes(reg);
    SetTwice(c, reg, dest, dest);
    assert Steps(effect, code, Cpu(c, a), 2) == Step(effect, code, Step(effect, code, Cpu(c, a)));
  }

  // ---- the whole prefix --------------------------------------------------------------------------------------

  /** Before and after each word of the prefix, the moved code is in the state of the original. */
  ghost predicate InStep(effect: Effect, c0: Text, pc: int, c1: Text, q: int, ws: seq<inst>, c: Core)
    decreases |ws|
  {
    ws == [] ||
    var k := |Translate(ws[0], pc)|;
    var next := Exec(effect, c0, ws[0], pc, c);
    Steps(effect, c1, Cpu(c, q), k) == Cpu(next, q + 4 * k) &&
    InStep(effect, c0, pc + 4, c1, q + 4 * k, ws[1..], next)
  }

  /** Every ADRP that has a target starts a page. */
  ghost predicate AdrpsOnPages(ws: seq<inst>, pc: int)
    decreases |ws|
  {
    ws == [] || ((IsAdrp(ws[0]) && Rd(ws[0]) != 31 ==> pc % 4096 == 0) && AdrpsOnPages(ws[1..], pc + 4))
  }

  /** One word against its replacement. */
  lemma OneWord(effect: Effect, c0: Text, pc: int, c1: Text, q: int, w: inst, c: Core)
    requires Accepts(w) && Placed(c1, q, Translate(w, pc))
    ensures var k := |Translate(w, pc)|;
      Steps(effect, c1, Cpu(c, q), k) == Cpu(Exec(effect, c0, w, pc, c), q + 4 * k) <==>
      (IsAdrp(w) && Rd(w) != 31 ==> pc % 4096 == 0)
  {
    AdrpMask(w);
    if IsAdrp(w) {
      AdrpWord(effect, c0, pc, c1, q, w, c);
    } else {
      CopiedWord(effect, c0, pc, c1, q, w, c);
    }
  }

  lemma AdrpWord(effect: Effect, c0: Text, pc: int, c1: Text, q: int, w: inst, c: Core)
    requires IsAdrp(w) && Placed(c1, q, Load64(Rd(w), AdrpValue(w, pc)))
    ensures Steps(effect, c1, Cpu(c, q), 4) == Cpu(Exec(effect, c0, w, pc, c), q + 16) <==>
      (Rd(w) != 31 ==> pc % 4096 == 0)
  {
    hide Load64, AdrpValue, PageAddress, Steps, Placed;
    var v := AdrpValue(w, pc);
    Load64Run(effect, c1, c, q, Rd(w), v);
    AdrpExact(w, pc);
    SetTwice(c, Rd(w), v, v);
    SetTwice(c, Rd(w), v, PageAddress(w, pc));
    assert !IsMovz(w) && !IsMovk(w) && !IsLdrLiteral(w);
  }

  lemma CopiedWord(effect: Effect, c0: Text, pc: int, c1: Text, q: int, w: inst, c: Core)
    requires (IsStp(w) || IsCmp(w) || IsMoveOrLoad(w)) && Placed(c1, q, [w])
    ensures Steps(effect, c1, Cpu(c, q), 1) == Cpu(Exec(effect, c0, w, pc, c), q + 4)
  {
    hide IsStp, IsCmp, IsMoveOrLoad, Placed, IsBr, IsLdrLiteral, IsAdrp, IsMovz, IsMovk, Insert;
    PlacedAt(c1, q, [w], 0);
    CopiedStaysPut(w);
    assert Steps(effect, c1, Cpu(c, q), 1) == Step(effect, c1, Cpu(c, q));
  }

  /** The moved prefix keeps step with the original exactly when its ADRPs start pages, whatever the others do. */
  lemma {:induction false} InStepExactly(effect: Effect, c0: Text, pc: int, c1: Text, q: int, ws: seq<inst>, c: Core)
    requires AllAccepted(ws) && Placed(c1, q, Rewritten(ws, pc))
    ensures InStep(effect, c0, pc, c1, q, ws, c) <==> AdrpsOnPages(ws, pc)
    decreases |ws|
  {
    hide Accepts, Translate, Placed, Exec, Steps, IsAdrp, Rd;
    if ws != [] {
      var here := Translate(ws[0], pc);
      PlacedBoth(c1, q, here, Rewritten(ws[1..], pc + 4));
      OneWord(effect, c0, pc, c1, q, ws[0], c);
      assert AllAccepted(ws[1..]) by { assert forall i :: 0 <= i < |ws[1..]| ==> ws[1..][i] == ws[i + 1]; }
      var next := Exec(effect, c0, ws[0], pc, c);
      InStepExactly(effect, c0, pc + 4, c1, q + 4 * |here|, ws[1..], next);
    }
  }

  /** The original prefix and the moved one end in the same state. */
  lemma {:induction false} RunInStep(effect: Effect, c0: Text, pc: int, c1: Text, q: int, ws: seq<inst>, c: Core)
    requires AllAccepted(ws) && Placed(c0, pc, ws) && InStep(effect, c0, pc, c1, q, ws, c)
    ensures var m := |Rewritten(ws, pc)|; var s := Steps(effect, c0, Cpu(c, pc), |ws|);
      s.pc == pc + 4 * |ws| && Steps(effect, c1, Cpu(c, q), m) == Cpu(s.core, q + 4 * m)
    decreases |ws|
  {
    hide Accepts, Translate, Placed, Exec, Step;
    if ws != [] {
      var k := |Translate(ws[0], pc)|;
      var next := Exec(effect, c0, ws[0], pc, c);
      PlacedBoth(c0, pc, [ws[0]], ws[1..]) by { assert [ws[0]] + ws[1..] == ws; }
      assert AllAccepted(ws[1..]) by { assert forall i :: 0 <= i < |ws[1..]| ==> ws[1..][i] == ws[i + 1]; }
      OriginalWord(effect, c0, pc, ws[0], c);
      RunInStep(effect, c0, pc + 4, c1, q + 4 * k, ws[1..], next);
      StepsSum(effect, c1, Cpu(c, q), k, |Rewritten(ws[1..], pc + 4)|);
    }
  }

  lemma OriginalWord(effect: Effect, c0: Text, pc: int, w: inst, c: Core)
    requires Accepts(w) && Placed(c0, pc, [w])
    ensures Step(effect, c0, Cpu(c, pc)) == Cpu(Exec(effect, c0, w, pc, c), pc + 4)
  {
    hide Placed, Exec, IsStp, IsCmp, IsMoveOrLoad;
    PlacedAt(c0, pc, [w], 0);
    AdrpMask(w);
    OtherClasses(w);
    if !IsAdrp(w) { CopiedStaysPut(w); }
  }

  // ---- the trampoline ----------------------------------------------------------------------------------------

  /** The register the return jump goes through: the lowest of x9 to x15 that no word noted. */
  ghost function Carrier(ws: seq<inst>): nat { LowestMarked(AvailAfter(TMP_REGS, ws), 0) }

  ghost function Trampoline(ws: seq<inst>, func: int): seq<inst>
    requires Carrier(ws) < 32 && 0 <= func + 4 * |ws| < W64
  {
    Rewritten(ws, func) + JumpIndirect(Carrier(ws), func + 4 * |ws|)
  }

  lemma TmpRegs(r: nat)
    requires r < 32
    ensures Bit(TMP_REGS, r) <==> 9 <= r <= 15
  {
    var x := TMP_REGS;
    if r < 9 {
      TmpLow(r);
    } else {
      ShrBit(x, 9, r - 9);
      hide Bit;
      Pow2Table();
      ShrQuotient(x, 9);
      OnesBit(7, r - 9);
    }
  }

  lemma TmpLow(r: nat)
    requires r < 9
    ensures !Bit(TMP_REGS, r)
  {
    assert !Bit(0xfe00, 0) && !Bit(0x7f00, 0) && !Bit(0x3f80, 0) && !Bit(0x1fc0, 0) && !Bit(0xfe0, 0);
    assert !Bit(0x7f0, 0) && !Bit(0x3f8, 0) && !Bit(0x1fc, 0) && !Bit(0xfe, 0);
    assert Bit(0xfe00, r) == if r == 0 then false else Bit(0x7f00, r - 1);
    if r >= 1 { assert Bit(0x7f00, r - 1) == if r == 1 then false else Bit(0x3f80, r - 2); }
    if r >= 2 { assert Bit(0x3f80, r - 2) == if r == 2 then false else Bit(0x1fc0, r - 3); }
    if r >= 3 { assert Bit(0x1fc0, r - 3) == if r == 3 then false else Bit(0xfe0, r - 4); }
    if r >= 4 { assert Bit(0xfe0, r - 4) == if r == 4 then false else Bit(0x7f0, r - 5); }
    if r >= 5 { assert Bit(0x7f0, r - 5) == if r == 5 then false else Bit(0x3f8, r - 6); }
    if r >= 6 { assert Bit(0x3f8, r - 6) == if r == 6 then false else Bit(0x1fc, r - 7); }
    if r >= 7 { assert Bit(0x1fc, r - 7) == if r == 7 then false else Bit(0xfe, r - 8); }
  }

  /** The carrier is a caller-saved register that no word of the prefix noted; there is none iff all are noted. */
  lemma CarrierIs(ws: seq<inst>)
    ensures AvailAfter(TMP_REGS, ws) < W32
    ensures AvailAfter(TMP_REGS, ws) != 0 <==> Carrier(ws) < 32
    ensures Carrier(ws) < 32 ==>
      9 <= Carrier(ws) <= 15 && forall i :: 0 <= i < |ws| ==> !Notes(ws[i], Carrier(ws))
  {
    hide Bit, AvailAfter, Notes;
    var a := AvailAfter(TMP_REGS, ws);
    AvailBits(TMP_REGS, ws, 0);
    LowestMarkedIs(a, 0);
    if Carrier(ws) < 32 {
      AvailBits(TMP_REGS, ws, Carrier(ws));
      TmpRegs(Carrier(ws));
      ZeroBit(Carrier(ws));
    } else if a != 0 {
      Pow2Of32();
      SomeBit(a, 32);
    }
  }

  /**
   * Builds the callable copy of a function whose first `patchLen` bytes will be overwritten; `granted` says whether
   * the code area has room for it.
   */
  method RelocateFunc(code: Text, func: int, patchLen: nat, granted: bool) returns (st: Status, text: seq<inst>)
    requires 0 <= func && func + patchLen + 3 < W64
    ensures st != BufferTooSmall && (st == NoMemory <==> !granted)
    ensures var ws := Take(code, func, (patchLen + 3) / 4);
      && (st == Ok <==> granted && AllAccepted(ws) && Carrier(ws) < 32)
      && (st == Ok ==> text == Trampoline(ws, func))
    ensures 4 * |text| <= 1 + (4 * patchLen + 16) + 16 && (patchLen % 4 == 0 ==> 4 * |text| <= 4 * patchLen + 16)
  {
    hide Take, AllAccepted, Rewritten, JumpIndirect, Carrier, AvailAfter, LeastBit, Bit2Idx, EncodeMov;
    var maxCodeLen := patchLen * 4 + 16;
    text := [];
    if !granted { return NoMemory, []; }
    var r := new Relocation(code, maxCodeLen);
    st := r.RelocateCode(func, patchLen);
    ghost var ws := Take(code, func, (patchLen + 3) / 4);
    RewrittenLength(ws, func);
    CarrierIs(ws);
    if st != Ok { return Unsupported, []; }
    if r.avail == 0 { return Unsupported, []; }
    FindsCarrier(ws);
    var regno := Bit2Idx(LeastBit(r.avail));
    text := r.out + JumpIndirect(regno, r.srcP);
  }

  lemma FindsCarrier(ws: seq<inst>)
    requires 0 < AvailAfter(TMP_REGS, ws) < W32
    ensures LeastBit(AvailAfter(TMP_REGS, ws)) > 0
    ensures Bit2Idx(LeastBit(AvailAfter(TMP_REGS, ws))) == Carrier(ws)
  {
    hide AvailAfter, LeastBit, Bit2Idx, LowestMarked;
    LeastBitScans(AvailAfter(TMP_REGS, ws));
  }

  /** Every register of x9 to x15 below the carrier is noted by some word; all are if there is no carrier. */
  lemma LeastCarrier(ws: seq<inst>, r: nat)
    requires 9 <= r <= 15 && r < Carrier(ws)
    ensures exists i :: 0 <= i < |ws| && Notes(ws[i], r)
  {
    hide Bit, AvailAfter, Notes;
    AvailBits(TMP_REGS, ws, r);
    LowestMarkedIs(AvailAfter(TMP_REGS, ws), 0);
    TmpRegs(r);
  }

  /**
   * The trampoline: from any state it arrives at the end of the prefix, with the state the original prefix leaves
   * except for the carrier register, provided that the ADRPs of the prefix start pages.
   */
  lemma TrampolinePreserves(effect: Effect, c0: Text, func: int, ws: seq<inst>, c1: Text, q: int, c: Core)
    requires AllAccepted(ws) && Placed(c0, func, ws) && 0 <= func && func + 4 * |ws| < W64
    requires Carrier(ws) < 32 && Placed(c1, q, Trampoline(ws, func)) && AdrpsOnPages(ws, func)
    ensures var s := Steps(effect, c0, Cpu(c, func), |ws|);
      s.pc == func + 4 * |ws| &&
      Steps(effect, c1, Cpu(c, q), |Rewritten(ws, func)| + 2) == Cpu(SetX(s.core, Carrier(ws), s.pc), s.pc)
  {
    hide AllAccepted, Placed, Rewritten, JumpIndirect, Carrier, AdrpsOnPages, Steps, InStep;
    var m := |Rewritten(ws, func)|;
    CarrierIs(ws);
    PlacedBoth(c1, q, Rewritten(ws, func), JumpIndirect(Carrier(ws), func + 4 * |ws|));
    InStepExactly(effect, c0, func, c1, q, ws, c);
    RunInStep(effect, c0, func, c1, q, ws, c);
    var core := Steps(effect, c0, Cpu(c, func), |ws|).core;
    JumpRun(effect, c1, core, q + 4 * m, Carrier(ws), func + 4 * |ws|);
    StepsSum(effect, c1, Cpu(c, q), m, 2);
  }

  // ---- registers the prefix writes ---------------------------------------------------------------------------

  /** The general registers an accepted word writes, by its class. */
  predicate Writes(w: inst, r: nat) {
    if And(w, 0xffc0_0000) == 0xa900_0000 then false
    else if IsStp(w) then Rn(w) == r
    else if IsCmp(w) then false
    else Rd(w) == r || (IsLdrWriteBack(w) && Rn(w) == r)
  }

  /** A store pair notes its base even when it does not update it, and nothing else is noted but not written. */
  lemma WritesNoted(w: inst, r: nat)
    requires Writes(w, r)
    ensures Notes(w, r) || (IsLdrWriteBack(w) && Rn(w) == r)
  {
    hide And;
  }

  /** The prefix writes the carrier exactly when it updates the carrier as the base of a load with write-back. */
  lemma CarrierWritten(ws: seq<inst>)
    requires AllAccepted(ws) && Carrier(ws) < 32
    ensures (exists i :: 0 <= i < |ws| && Writes(ws[i], Carrier(ws))) <==>
      (exists i :: 0 <= i < |ws| && IsLdrWriteBack(ws[i]) && Rn(ws[i]) == Carrier(ws))
  {
    hide Carrier, Notes, Writes, Accepts, IsLdrWriteBack;
    CarrierIs(ws);
    var k := Carrier(ws);
    forall i | 0 <= i < |ws|
      ensures Writes(ws[i], k) <==> IsLdrWriteBack(ws[i]) && Rn(ws[i]) == k
    {
      if Writes(ws[i], k) { WritesNoted(ws[i], k); }
      if IsLdrWriteBack(ws[i]) && Rn(ws[i]) == k { BaseWritten(ws[i]); }
    }
  }

  lemma BaseWritten(w: inst)
    requires IsLdrWriteBack(w)
    ensures Writes(w, Rn(w))
  {
    hide And;
    WriteBackIs(w);
    StpIs(w);
    CmpIs(w);
  }

  /** Each instruction changes only the registers it writes. */
  ghost predicate ChangesOnlyWritten(effect: Effect) {
    forall w, c, r {:trigger GetX(effect(w, c), r)} :: Accepts(w) && !Writes(w, r) ==>
      GetX(effect(w, c), r) == GetX(c, r)
  }

  lemma ExecKeeps(effect: Effect, code: Text, w: inst, pc: int, c: Core, r: nat)
    requires ChangesOnlyWritten(effect) && Accepts(w) && !Writes(w, r)
    ensures GetX(Exec(effect, code, w, pc, c), r) == GetX(c, r)
  {
    if IsMovz(w) || IsMovk(w) || IsAdrp(w) {
      TargetWritten(w);
    } else {
      AdrpMask(w);
      hide Accepts, IsStp, IsCmp, IsMoveOrLoad, Writes, IsMovz, IsMovk, IsLdrLiteral, IsAdrp;
      CopiedFromAccepted(w);
    }
    hide Writes, Accepts, IsMovz, IsMovk, IsLdrLiteral, IsAdrp, Insert, PageAddress;
  }

  lemma CopiedFromAccepted(w: inst)
    requires Accepts(w) && !IsAdrp(w)
    ensures !IsLdrLiteral(w) && !IsBr(w)
  {
    hide IsStp, IsCmp, IsMoveOrLoad, IsLdrLiteral, IsBr;
    AdrpMask(w);
    CopiedStaysPut(w);
  }

  lemma TargetWritten(w: inst)
    requires IsMovz(w) || IsMovk(w) || IsAdrp(w)
    ensures Writes(w, Rd(w)) && !IsLdrLiteral(w)
  {
    hide And;
    assert Class(w) == 0x52 || Class(w) == 0x72 || Class(w) % 32 == 0x10;
    StpIs(w);
    CmpIs(w);
  }

  /** Unless a load updates it as its base, the original prefix leaves the carrier as it found it. */
  lemma {:induction false} CarrierKept(effect: Effect, c0: Text, pc: int, ws: seq<inst>, c: Core, k: nat)
    requires ChangesOnlyWritten(effect) && AllAccepted(ws) && Placed(c0, pc, ws)
    requires forall i :: 0 <= i < |ws| ==> !Writes(ws[i], k)
    ensures GetX(Steps(effect, c0, Cpu(c, pc), |ws|).core, k) == GetX(c, k)
    decreases |ws|
  {
    hide ChangesOnlyWritten, Accepts, Writes, Placed, Exec, Step;
    if ws != [] {
      PlacedBoth(c0, pc, [ws[0]], ws[1..]) by { assert [ws[0]] + ws[1..] == ws; }
      assert forall i :: 0 <= i < |ws[1..]| ==> ws[1..][i] == ws[i + 1];
      OriginalWord(effect, c0, pc, ws[0], c);
      ExecKeeps(effect, c0, ws[0], pc, c, k);
      CarrierKept(effect, c0, pc + 4, ws[1..], Exec(effect, c0, ws[0], pc, c), k);
    }
  }

  /** ldr x0, [x9], 8 */
  const LDR_POST_X9: inst := 0xf840_8520

  /** The relocator accepts that load and then carries the return address in its updated base. */
  lemma BaseClobbered()
    ensures AllAccepted([LDR_POST_X9]) && Carrier([LDR_POST_X9]) == 9 && Writes(LDR_POST_X9, 9)
  {
    hide And, Notes, Writes, Bit, AvailAfter;
    var w, ws := LDR_POST_X9, [LDR_POST_X9];
    PostIndexed();
    BaseWritten(w);
    NotedTarget(w);
    hide IsLdrWriteBack, IsStp, IsCmp, IsMoveOrLoad;
    CarrierIs(ws);
    AvailBits(TMP_REGS, ws, 9);
    TmpRegs(9);
    LowestMarkedIs(AvailAfter(TMP_REGS, ws), 0);
  }

  lemma NotedTarget(w: inst)
    requires IsLdrWriteBack(w)
    ensures forall r: nat :: Notes(w, r) <==> Rd(w) == r
  {
    hide And;
    WriteBackIs(w);
    StpIs(w);
    CmpIs(w);
  }

  lemma PostIndexed()
    ensures IsLdrWriteBack(LDR_POST_X9)
  {
    hide And, Pow2;
    var v := LDR_POST_X9 % 0x8000_0000;
    Pow2Table();
    BigPowers();
    MaskedTop(LDR_POST_X9, 31, 1, 0x3fe0_0400);
    MaskedTop(v, 21, 9, 0x400);
    MaskedTop(v % 0x20_0000, 10, 1, 0);
    AndZero(v % 0x20_0000 % 0x400);
  }

  /** adrp x0, 0: accepted, and four bytes into a page its replacement is four too high. */
  lemma AdrpOffPage()
    ensures Accepts(0x9000_0000) && AdrpValue(0x9000_0000, 4) == 4 && PageAddress(0x9000_0000, 4) == 0
  {
    hide And, AdrpValue;
    AdrpMask(0x9000_0000);
    AdrpDisplacement(0x9000_0000, 4);
  }

  /** The code and the return jump always fit in the block that is allocated, one byte and a jump longer. */
  lemma AllocationFits(ws: seq<inst>, patchLen: nat, pc: int)
    requires |ws| == (patchLen + 3) / 4
    ensures 4 * |Rewritten(ws, pc)| + 16 <= 1 + (4 * patchLen + 16) + 16
  {
    hide Rewritten;
    RewrittenLength(ws, pc);
  }

  /** They keep to the length that is asserted, for every accepted prefix, iff words are whole. */
  lemma FitsExactly(patchLen: nat, pc: int)
    ensures var n := (patchLen + 3) / 4;
      (forall ws :: |ws| == n && AllAccepted(ws) ==> 4 * |Rewritten(ws, pc)| + 16 <= 4 * patchLen + 16) <==>
      patchLen % 4 == 0
  {
    hide Rewritten, AllAccepted;
    var n := (patchLen + 3) / 4;
    if patchLen % 4 == 0 {
      forall ws | |ws| == n && AllAccepted(ws) ensures 4 * |Rewritten(ws, pc)| + 16 <= 4 * patchLen + 16 {
        RewrittenLength(ws, pc);
      }
    } else {
      var ws := AllAdrp(n, pc);
    }
  }

  lemma {:induction false} AllAdrp(n: nat, pc: int) returns (ws: seq<inst>)
    ensures |ws| == n && AllAccepted(ws) && |Rewritten(ws, pc)| == 4 * n
    decreases n
  {
    ws := [];
    if n > 0 {
      hide Accepts, Translate;
      var rest := AllAdrp(n - 1, pc + 4);
      ws := [0x9000_0000] + rest;
      assert ws[1..] == rest;
      OneAdrp(pc);
      assert forall i :: 0 < i < n ==> ws[i] == rest[i - 1];
    }
  }

  lemma OneAdrp(pc: int)
    ensures Accepts(0x9000_0000) && |Translate(0x9000_0000, pc)| == 4
  {
    hide And, AdrpValue, Load64;
    AdrpMask(0x9000_0000);
  }
}
