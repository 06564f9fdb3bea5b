/**
 * Word-addressed memory in 16-byte paragraphs: `lo[a]` is the word at the 16-aligned address `a`, `hi[a]` the word
 * at `a + 8`. Chunk `p` has its prev_foot and head in paragraph `p`, its list links in paragraph `p + 16`, its
 * children in paragraph `p + 32`, and its parent and bin index in paragraph `p + 48`.
 */
module Memory {

  datatype Mem = Mem(lo: map<int, int>, hi: map<int, int>)

  function Lo(m: Mem, a: int): int { if a in m.lo then m.lo[a] else 0 }
  function Hi(m: Mem, a: int): int { if a in m.hi then m.hi[a] else 0 }

  function SetLo(m: Mem, a: int, v: int): Mem { m.(lo := m.lo[a := v]) }
  function SetHi(m: Mem, a: int, v: int): Mem { m.(hi := m.hi[a := v]) }

  /** The word at any multiple of eight. */
  function SetWord(m: Mem, w: int, v: int): Mem { if w % 16 == 0 then SetLo(m, w, v) else SetHi(m, w - 8, v) }
  function GetWord(m: Mem, w: int): int { if w % 16 == 0 then Lo(m, w) else Hi(m, w - 8) }

  function Foot(m: Mem, p: int): int { Lo(m, p) }
  function Head(m: Mem, p: int): int { Hi(m, p) }
  function Fd(m: Mem, p: int): int { Lo(m, p + 16) }
  function Bk(m: Mem, p: int): int { Hi(m, p + 16) }
  function Kid(m: Mem, p: int, right: bool): int { if right then Hi(m, p + 32) else Lo(m, p + 32) }
  function Parent(m: Mem, p: int): int { Lo(m, p + 48) }
  function Index(m: Mem, p: int): int { Hi(m, p + 48) }

  function SetFoot(m: Mem, p: int, v: int): Mem { SetLo(m, p, v) }
  function SetHead(m: Mem, p: int, v: int): Mem { SetHi(m, p, v) }
  function SetFd(m: Mem, p: int, v: int): Mem { SetLo(m, p + 16, v) }
  function SetBk(m: Mem, p: int, v: int): Mem { SetHi(m, p + 16, v) }
  function SetKid(m: Mem, p: int, right: bool, v: int): Mem {
    if right then SetHi(m, p + 32, v) else SetLo(m, p + 32, v)
  }
  function SetParent(m: Mem, p: int, v: int): Mem { SetLo(m, p + 48, v) }
  function SetIndex(m: Mem, p: int, v: int): Mem { SetHi(m, p + 48, v) }

  /** The size part of a head word (the three low bits are flags). */
  function SizeOf(head: int): int { head - head % 8 }

  /** The links of chunk `x` are the same in both memories. */
  ghost predicate SameLinks(m: Mem, m': Mem, x: int) {
    && Fd(m, x) == Fd(m', x) && Bk(m, x) == Bk(m', x)
    && Kid(m, x, false) == Kid(m', x, false) && Kid(m, x, true) == Kid(m', x, true)
    && Parent(m, x) == Parent(m', x) && Index(m, x) == Index(m', x)
  }

  /** Two chunks do not share a link paragraph. */
  predicate Apart(x: int, y: int) {
    x + 64 <= y || y + 64 <= x
  }
}
