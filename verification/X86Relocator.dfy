/** The x86-64 relocator: it copies whole instructions and rewrites the position-dependent ones. */
module X86Relocator {
  import opened Words
  import opened Bytes
  import opened BistroStatus
  import opened X86Isa

  /** The instructions that can be moved, with the REX prefixes the relocator knows for each. */
  predicate Accepts(d: Decoded) {
    match d.insn
    case Push(_) => d.rex == 0 || d.rex == 0x41
    case Pop(_) => d.rex == 0 || d.rex == 0x41
    case SubImm(r, _) => d.rex == 0x48 && r == RSP
    case MovReg(dst, src) => d.rex == 0x48 && dst == RBP && src == RSP
    case Store(_, _, _, _, _) => d.rex == 0x48
    case MovImm(_, _) => d.rex == 0
    case CmpMem(_, _) => d.rex == 0
    case Jcc(_, _) => d.rex == 0
    case _ => false
  }

  /**
   * The movable instructions by their bytes, and how long each is; 0 where none starts. In order: push or pop; the
   * same with REX.B; sub imm32, %rsp; mov %rsp, %rbp; a 64-bit store through SIB with an 8-bit or a 32-bit
   * displacement; mov imm32 to a register; cmpl imm32, disp32(%rip); a short conditional jump.
   */
  function KnownLength(code: Memory, p: int): nat {
    var a, b, c := At(code, p), At(code, p + 1), At(code, p + 2);
    if 0x50 <= a <= 0x5F then 1
    else if a == 0x41 && 0x50 <= b <= 0x5F then 2
    else if a == 0x48 && b == 0x81 && c == 0xEC then 7
    else if a == 0x48 && b == 0x89 && c == 0xE5 then 3
    else if a == 0x48 && b == 0x89 && c / 64 == 1 && c % 8 == 4 then 5
    else if a == 0x48 && b == 0x89 && c / 64 == 2 && c % 8 == 4 then 8
    else if 0xB8 <= a <= 0xBF then 5
    else if a == 0x81 && b == 0x3D then 10
    else if 0x70 <= a <= 0x7F then 2
    else 0
  }

  /** push rax; movabs rax, addr; cmp dword [rax], imm; pop rax. */
  function CompareCode(addr: nat, imm: nat): (bs: seq<byte>)
    ensures |bs| == 18
  {
    [0x50, 0x48, 0xB8] + Le64(addr) + [0x81, 0x38] + Le32(imm) + [0x58]
  }

  /** jcc +2; jmp +14; jmp [rip]; then the 64-bit target. */
  function BranchCode(cc: nat, target: nat): (bs: seq<byte>)
    requires cc < 16
    ensures |bs| == 18
  {
    [0x70 + cc, 2, 0xEB, 0x0E, 0xFF, 0x25, 0, 0, 0, 0] + Le64(target)
  }

  /** What replaces the instruction at `p`. */
  function Translation(code: Memory, p: int): seq<byte> {
    var d := Decode(code, p);
    match d.insn
    case CmpMem(addr, imm) => CompareCode(addr, imm)
    case Jcc(cc, target) => if cc < 16 then BranchCode(cc, target) else []
    case _ => Peek(code, p, d.len)
  }

  /** The operand of the compare and the target of the jump at `p`: both count from the end of the instruction. */
  function CompareOperand(code: Memory, p: int): word { Wrap(p + 10 + Signed32(U32(code, p + 2))) }

  function ShortTarget(code: Memory, p: int): word { Wrap(p + 2 + Signed8(At(code, p + 1))) }

  /** What is written for the instruction at `p`, by its bytes. */
  function Replacement(code: Memory, p: int): seq<byte> {
    var a := At(code, p);
    if a == 0x81 then CompareCode(CompareOperand(code, p), U32(code, p + 6))
    else if 0x70 <= a <= 0x7F then BranchCode(a - 0x70, ShortTarget(code, p))
    else Peek(code, p, KnownLength(code, p))
  }

  /** Exactly those instructions are accepted, at those lengths, and so replaced; the jumps are among them. */
  lemma KnownBytes(code: Memory, p: int)
    ensures Accepts(Decode(code, p)) <==> KnownLength(code, p) > 0
    ensures KnownLength(code, p) > 0 ==> Decode(code, p).len == KnownLength(code, p)
    ensures KnownLength(code, p) > 0 ==> Translation(code, p) == Replacement(code, p)
    ensures KnownLength(code, p) > 0 ==>
      var insn := Decode(code, p).insn;
      (insn.Jcc? <==> 0x70 <= At(code, p) <= 0x7F) && (insn.Jcc? ==> insn.target == ShortTarget(code, p))
  {
    hide Peek, U32, U64, Signed8, Signed32, CompareCode, BranchCode;
  }

  lemma DecodeFacts(code: Memory, p: int)
    ensures Decode(code, p).len > 0
    ensures Decode(code, p).insn.Jcc? ==> Decode(code, p).insn.cc < 16 && Decode(code, p).insn.target < W64
    ensures Decode(code, p).insn.CmpMem? ==> Decode(code, p).insn.addr < W64 && Decode(code, p).insn.imm < W32
  {
  }

  /** The bytes from `p` to `end` are whole movable instructions. */
  ghost predicate Prefix(code: Memory, p: int, end: int)
    decreases end - p
  {
    p == end ||
    (p < end && Accepts(Decode(code, p)) && Decode(code, p).len > 0 && Prefix(code, p + Decode(code, p).len, end))
  }

  /** Their replacement. */
  ghost function Moved(code: Memory, p: int, end: int): seq<byte>
    requires Prefix(code, p, end)
    decreases end - p
  {
    if p == end then [] else Translation(code, p) + Moved(code, p + Decode(code, p).len, end)
  }

  /** No branch in the prefix goes below `bound`. */
  ghost predicate JumpsPast(code: Memory, p: int, end: int, bound: int)
    requires Prefix(code, p, end)
    decreases end - p
  {
    p == end ||
    ((Decode(code, p).insn.Jcc? ==> Decode(code, p).insn.target >= bound) &&
     JumpsPast(code, p + Decode(code, p).len, end, bound))
  }

  /** The bound after an instruction: a branch lowers it to its target. */
  function Lowered(insn: Insn, bound: int): int {
    if insn.Jcc? then Min(insn.target, bound) else bound
  }

  /** The lowest branch target in the prefix, or the highest address. */
  ghost function Lowest(code: Memory, p: int, end: int): int
    requires Prefix(code, p, end)
    decreases end - p
  {
    if p == end then W64 - 1
    else Lowered(Decode(code, p).insn, Lowest(code, p + Decode(code, p).len, end))
  }

  lemma {:induction false} LowestIs(code: Memory, p: int, end: int, bound: int)
    requires Prefix(code, p, end) && bound < W64
    ensures bound <= Lowest(code, p, end) <==> JumpsPast(code, p, end, bound)
    decreases end - p
  {
    hide Decode, Accepts;
    if p < end { LowestIs(code, p + Decode(code, p).len, end, bound); }
  }

  /** Two prefixes in a row are one. */
  lemma {:induction false} Append(code: Memory, p: int, q: int, end: int)
    requires Prefix(code, p, q) && Prefix(code, q, end)
    ensures Prefix(code, p, end) && p <= q <= end
    ensures Moved(code, p, end) == Moved(code, p, q) + Moved(code, q, end)
    ensures Lowest(code, p, end) == Min(Lowest(code, p, q), Lowest(code, q, end)) && Lowest(code, q, end) < W64
    decreases q - p
  {
    hide Decode, Accepts, Translation;
    LowestBound(code, q, end);
    if p < q { Append(code, p + Decode(code, p).len, q, end); }
  }

  lemma {:induction false} LowestBound(code: Memory, p: int, end: int)
    requires Prefix(code, p, end)
    ensures Lowest(code, p, end) < W64
    decreases end - p
  {
    hide Decode, Accepts;
    if p < end { LowestBound(code, p + Decode(code, p).len, end); }
  }

  lemma Single(code: Memory, p: int)
    requires Accepts(Decode(code, p))
    ensures var e := p + Decode(code, p).len;
      e > p && Prefix(code, p, e) && Moved(code, p, e) == Translation(code, p) &&
      Lowest(code, p, e) == Lowered(Decode(code, p).insn, W64 - 1)
  {
    DecodeFacts(code, p);
    hide Decode, Accepts, Translation;
    var e := p + Decode(code, p).len;
    assert Prefix(code, e, e);
    assert Moved(code, e, e) == [];
  }

  /** Where the walk from `p` stops: the first boundary at or past `limit`, or an unmovable instruction. */
  ghost function Stop(code: Memory, p: int, limit: int): int
    decreases limit - p
  {
    if p >= limit || !Accepts(Decode(code, p)) || Decode(code, p).len == 0 then p
    else Stop(code, p + Decode(code, p).len, limit)
  }

  lemma {:induction false} StopIs(code: Memory, p: int, limit: int)
    ensures Prefix(code, p, Stop(code, p, limit)) && p <= Stop(code, p, limit)
    decreases limit - p
  {
    hide Decode, Accepts;
    if p < limit && Accepts(Decode(code, p)) && Decode(code, p).len > 0 {
      StopIs(code, p + Decode(code, p).len, limit);
    }
  }

  /**
   * The prefix that covers `[src, limit)` can be moved: it consists of whole movable instructions, ends below
   * the top of the address space, holds no branch into itself, and its replacement fits in `room` bytes.
   */
  ghost predicate Movable(code: Memory, src: int, limit: int, room: nat) {
    var end := Stop(code, src, limit);
    limit <= end < W64 && Prefix(code, src, end) && JumpsPast(code, src, end, end) &&
    |Moved(code, src, end)| <= room
  }

  /** A prefix that runs past its lowest target, or past the buffer, cannot be completed. */
  lemma StaysUnmovable(code: Memory, src: int, q: int, limit: int, room: nat)
    requires Prefix(code, src, q) && Stop(code, src, limit) == Stop(code, q, limit)
    requires q > Lowest(code, src, q) || |Moved(code, src, q)| > room
    ensures !Movable(code, src, limit, room)
  {
    hide Decode, Accepts, Prefix, Moved, Lowest, JumpsPast, Stop;
    var end := Stop(code, src, limit);
    StopIs(code, q, limit);
    Append(code, src, q, end);
    if end < W64 { LowestIs(code, src, end, end); }
  }

  lemma EmptyPrefix(code: Memory, src: int)
    ensures Prefix(code, src, src) && Moved(code, src, src) == [] && Lowest(code, src, src) == W64 - 1
    ensures forall bound :: JumpsPast(code, src, src, bound)
  {
  }

  /** One round of the walk: either the prefix grows by an instruction or it is unmovable. */
  lemma Onward(code: Memory, src: int, at: int, limit: int, room: nat)
    requires Prefix(code, src, at) && at < limit && Stop(code, src, limit) == Stop(code, at, limit)
    ensures !Accepts(Decode(code, at)) ==> !Movable(code, src, limit, room)
    ensures Accepts(Decode(code, at)) ==>
      var e := at + Decode(code, at).len;
      e > at && Prefix(code, src, e) && Moved(code, src, e) == Moved(code, src, at) + Translation(code, at) &&
      Lowest(code, src, e) == Lowered(Decode(code, at).insn, Lowest(code, src, at)) &&
      Stop(code, src, limit) == Stop(code, e, limit) &&
      (e > Lowest(code, src, e) || |Moved(code, src, e)| > room ==> !Movable(code, src, limit, room))
  {
    if Accepts(Decode(code, at)) {
      hide Decode, Accepts, Prefix, Moved, Lowest, JumpsPast, Translation, Movable;
      Single(code, at);
      var e := at + Decode(code, at).len;
      Append(code, src, at, e);
      LowestBound(code, src, at);
      if e > Lowest(code, src, e) || |Moved(code, src, e)| > room { StaysUnmovable(code, src, e, limit, room); }
    } else {
      hide Decode, Accepts, Prefix, Moved, Lowest, JumpsPast;
    }
  }

  lemma Finished(code: Memory, src: int, q: int, limit: int, room: nat)
    requires Prefix(code, src, q) && q >= limit && Stop(code, src, limit) == Stop(code, q, limit)
    requires q <= Lowest(code, src, q) && |Moved(code, src, q)| <= room
    ensures q == Stop(code, src, limit) && Movable(code, src, limit, room)
  {
    hide Decode, Accepts, Prefix, Moved, Lowest, JumpsPast;
    LowestBound(code, src, q);
    LowestIs(code, src, q, q);
  }

  /** The relocation context: the source cursor, the lowest branch target so far, and what was written. */
  class Relocation {
    const code: Memory
    const room: nat
    var srcP: int
    var srcEnd: int
    var out: seq<byte>

    constructor (code: Memory, room: nat)
      ensures this.code == code && this.room == room
    {
      this.code := code;
      this.room := room;
      srcP, srcEnd, out := 0, 0, [];
    }

    method NextByte() returns (b: byte)
      modifies this`srcP
      ensures b == At(code, old(srcP)) && srcP == old(srcP) + 1
    {
      b := At(code, srcP);
      srcP := srcP + 1;
    }

    method NextWord() returns (v: nat)
      modifies this`srcP
      ensures v == U32(code, old(srcP)) && srcP == old(srcP) + 4
    {
      v := U32(code, srcP);
      srcP := srcP + 4;
    }

    /** The rest of a 64-bit register store, after its REX prefix and opcode. */
    method ReadStore(start: int) returns (found: bool, copy: seq<byte>)
      requires srcP == start + 2 && At(code, start) == 0x48 && At(code, start + 1) == 0x89
      modifies this`srcP
      ensures found <==> Accepts(Decode(code, start))
      ensures found ==> srcP == start + Decode(code, start).len && copy == Translation(code, start)
      ensures !Decode(code, start).insn.Jcc?
    {
      hide Peek, U32, U64, Signed8, Signed32, CompareCode, BranchCode;
      found, copy := false, [];
      var modrm := NextByte();
      if modrm == 0xE5 {
        found, copy := true, Peek(code, start, srcP - start);
      } else if modrm / 64 != 3 && modrm % 8 == 4 {
        var sib := NextByte();
        if modrm / 64 == 1 {
          var disp8 := NextByte();
          found, copy := true, Peek(code, start, srcP - start);
        } else if modrm / 64 == 2 {
          var disp32 := NextWord();
          found, copy := true, Peek(code, start, srcP - start);
        }
      }
    }

    /** The rest of a 64-bit group 1 instruction: only a subtraction from the stack pointer is recognised. */
    method ReadSub(start: int) returns (found: bool, copy: seq<byte>)
      requires srcP == start + 2 && At(code, start) == 0x48 && At(code, start + 1) == 0x81
      modifies this`srcP
      ensures found <==> Accepts(Decode(code, start))
      ensures found ==> srcP == start + Decode(code, start).len && copy == Translation(code, start)
      ensures !Decode(code, start).insn.Jcc?
    {
      hide Peek, U32, U64, Signed8, Signed32, CompareCode, BranchCode;
      found, copy := false, [];
      var modrm := NextByte();
      if modrm == 0xEC {
        var imm := NextWord();
        found, copy := true, Peek(code, start, srcP - start);
      }
    }

    /** The rest of a 32-bit group 1 instruction: only a compare with a rip-relative operand is recognised. */
    method ReadCompare(start: int) returns (found: bool, copy: seq<byte>)
      requires srcP == start + 1 && At(code, start) == 0x81
      modifies this`srcP
      ensures found <==> Accepts(Decode(code, start))
      ensures found ==> srcP == start + Decode(code, start).len && copy == Translation(code, start)
      ensures !Decode(code, start).insn.Jcc?
    {
      hide Peek, U32, U64, Signed8, Signed32, CompareCode, BranchCode;
      found, copy := false, [];
      var modrm := NextByte();
      if modrm == 0x3D {
        var disp := NextWord();
        var imm := NextWord();
        found, copy := true, CompareCode(Wrap(srcP + Signed32(disp)), imm);
      }
    }

    /** Reads one instruction; `copy` is what to write for it, and `found` says whether it was recognised. */
    method ReadOne() returns (found: bool, copy: seq<byte>)
      modifies this`srcP, this`srcEnd
      ensures found <==> Accepts(Decode(code, old(srcP)))
      ensures found ==> srcP == old(srcP) + Decode(code, old(srcP)).len && copy == Translation(code, old(srcP))
      ensures found ==> srcEnd == Lowered(Decode(code, old(srcP)).insn, old(srcEnd))
    {
      hide Peek, U32, U64, Signed8, Signed32, CompareCode, BranchCode;
      var start := srcP;
      found, copy := false, [];
      var rex := 0;
      var opcode := NextByte();
      if opcode / 16 == 4 {
        rex := opcode;
        opcode := NextByte();
      }
      if (rex == 0 || rex == 0x41) && opcode / 16 == 5 {
        found, copy := true, Peek(code, start, srcP - start);
      } else if rex == 0x48 && opcode == 0x81 {
        found, copy := ReadSub(start);
      } else if rex == 0x48 && opcode == 0x89 {
        found, copy := ReadStore(start);
      } else if rex == 0 && opcode / 8 == 0xB8 / 8 {
        var imm := NextWord();
        found, copy := true, Peek(code, start, srcP - start);
      } else if rex == 0 && opcode == 0x81 {
        found, copy := ReadCompare(start);
      } else if rex == 0 && 0x70 <= opcode <= 0x7F {
        var disp := NextByte();
        var target := Wrap(srcP + Signed8(disp));
        found, copy := true, BranchCode(opcode - 0x70, target);
        srcEnd := Min(srcEnd, target);
      }
    }

    method RelocateOne() returns (st: Status)
      modifies this
      ensures st != NoMemory && (st == Unsupported <==> !Accepts(Decode(code, old(srcP))))
      ensures st == Unsupported <==> KnownLength(code, old(srcP)) == 0
      ensures st == Ok ==> srcP == old(srcP) + KnownLength(code, old(srcP))
      ensures st == Ok ==> out == old(out) + Replacement(code, old(srcP))
      ensures st == BufferTooSmall <==>
        Accepts(Decode(code, old(srcP))) && |old(out)| + |Translation(code, old(srcP))| > room
      ensures st == Ok ==> srcP == old(srcP) + Decode(code, old(srcP)).len
      ensures st == Ok ==> out == old(out) + Translation(code, old(srcP))
      ensures st == Ok ==> srcEnd == Lowered(Decode(code, old(srcP)).insn, old(srcEnd))
      ensures st != Ok ==> out == old(out)
    {
      hide Decode, Accepts, Translation, KnownLength, Replacement;
      KnownBytes(code, srcP);
      var found, copy := ReadOne();
      if !found { return Unsupported; }
      if |out| + |copy| > room { return BufferTooSmall; }
      out := out + copy;
      return Ok;
    }

    /** Moves the shortest run of whole instructions that covers `minLength` bytes from `src`. */
    method RelocateCode(src: int, minLength: nat) returns (st: Status, dstLength: nat, srcLength: nat)
      requires 0 <= src < W64
      modifies this
      ensures st != NoMemory && (st == Ok <==> Movable(code, src, src + minLength, room))
      ensures st == Ok ==> src + srcLength == Stop(code, src, src + minLength) && srcLength >= minLength
      ensures st == Ok ==> out == Moved(code, src, src + srcLength) && dstLength == |out|
    {
      hide Decode, Accepts, Translation, Prefix, Moved, Lowest, JumpsPast, Stop, Movable;
      dstLength, srcLength := 0, 0;
      srcP, srcEnd, out := src, W64 - 1, [];
      var limit := src + minLength;
      EmptyPrefix(code, src);
      while srcP < limit
        invariant src <= srcP && Prefix(code, src, srcP) && out == Moved(code, src, srcP)
        invariant srcEnd == Lowest(code, src, srcP) && srcP <= srcEnd
        invariant Stop(code, src, limit) == Stop(code, srcP, limit)
        invariant |out| <= room
        decreases limit - srcP
      {
        ghost var at := srcP;
        st := RelocateOne();
        Onward(code, src, at, limit, room);
        if st != Ok { return; }
        if srcP > srcEnd { return Unsupported, 0, 0; }
      }
      Finished(code, src, srcP, limit, room);
      return Ok, |out|, srcP - src;
    }
  }
}
