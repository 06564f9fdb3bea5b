/** Bytes in memory and their little-endian grouping. */
module Bytes {
  import opened Words

  type byte = x: int | 0 <= x < 256

  /** Memory by byte address; a byte that is not listed is 0. */
  type Memory = map<int, byte>

  function At(m: Memory, a: int): byte { if a in m then m[a] else 0 }

  /** Memory after `bs` is copied to `a`. */
  function Poke(m: Memory, a: int, bs: seq<byte>): Memory
    decreases |bs|
  {
    if bs == [] then m else Poke(m[a := bs[0]], a + 1, bs[1..])
  }

  ghost predicate Held(m: Memory, a: int, bs: seq<byte>) {
    forall i {:trigger bs[i]} :: 0 <= i < |bs| ==> At(m, a + i) == bs[i]
  }

  lemma HeldAt(m: Memory, a: int, bs: seq<byte>, i: nat)
    requires Held(m, a, bs) && i < |bs|
    ensures At(m, a + i) == bs[i]
  {
  }

  /** A copy lands on its own bytes and on no other. */
  lemma {:induction false} PokeAt(m: Memory, a: int, bs: seq<byte>, x: int)
    ensures At(Poke(m, a, bs), x) == if a <= x < a + |bs| then bs[x - a] else At(m, x)
    decreases |bs|
  {
    if bs != [] { PokeAt(m[a := bs[0]], a + 1, bs[1..], x); }
  }

  lemma PokeHeld(m: Memory, a: int, bs: seq<byte>)
    ensures Held(Poke(m, a, bs), a, bs)
  {
    forall i | 0 <= i < |bs| ensures At(Poke(m, a, bs), a + i) == bs[i] { PokeAt(m, a, bs, a + i); }
  }

  lemma HeldPart(m: Memory, a: int, bs: seq<byte>, i: nat, j: nat)
    requires Held(m, a, bs) && i <= j <= |bs|
    ensures Held(m, a + i, bs[i..j])
  {
    forall k | 0 <= k < j - i ensures At(m, a + i + k) == bs[i..j][k] { assert bs[i..j][k] == bs[i + k]; }
  }

  /** The `n` bytes at `a`. */
  function Peek(m: Memory, a: int, n: nat): (bs: seq<byte>)
    decreases n
    ensures |bs| == n && Held(m, a, bs)
  {
    if n == 0 then [] else Peek(m, a, n - 1) + [At(m, a + n - 1)]
  }

  function U32(m: Memory, a: int): nat {
    At(m, a) + 0x100 * At(m, a + 1) + 0x1_0000 * At(m, a + 2) + 0x100_0000 * At(m, a + 3)
  }

  function U64(m: Memory, a: int): nat { U32(m, a) + W32 * U32(m, a + 4) }

  function Le32(v: nat): (bs: seq<byte>)
    ensures |bs| == 4
  {
    [v % 0x100, v / 0x100 % 0x100, v / 0x1_0000 % 0x100, v / 0x100_0000 % 0x100]
  }

  function Le64(v: nat): (bs: seq<byte>)
    ensures |bs| == 8
  {
    Le32(v % W32) + Le32(v / W32)
  }

  function Signed8(b: byte): int { if b < 0x80 then b else b - 0x100 }
  function Signed32(v: nat): int { if v < 0x8000_0000 then v else v - W32 }

  /** A 32-bit value is the sum of its bytes. */
  lemma Digits32(v: nat)
    requires v < W32
    ensures v == v % 0x100 + 0x100 * (v / 0x100 % 0x100) + 0x1_0000 * (v / 0x1_0000 % 0x100) +
      0x100_0000 * (v / 0x100_0000 % 0x100)
  {
    var q := v / 0x1_0000;
    assert v / 0x100_0000 == q / 0x100 && q < 0x1_0000;
    assert q == q % 0x100 + 0x100 * (q / 0x100);
    assert v / 0x100 == v / 0x100 % 0x100 + 0x100 * q;
    assert v == v % 0x100 + 0x100 * (v / 0x100);
  }

  /** A 32-bit value written little-endian reads back. */
  lemma U32Held(m: Memory, a: int, v: nat)
    requires v < W32 && Held(m, a, Le32(v))
    ensures U32(m, a) == v
  {
    hide At, Held;
    var bs := Le32(v);
    HeldAt(m, a, bs, 0);
    HeldAt(m, a, bs, 1);
    HeldAt(m, a, bs, 2);
    HeldAt(m, a, bs, 3);
    Digits32(v);
  }

  /** A 64-bit value written little-endian reads back. */
  lemma U64Held(m: Memory, a: int, v: nat)
    requires v < W64 && Held(m, a, Le64(v))
    ensures U64(m, a) == v
  {
    HeldPart(m, a, Le64(v), 0, 4);
    HeldPart(m, a, Le64(v), 4, 8);
    assert Le64(v)[0..4] == Le32(v % W32) && Le64(v)[4..8] == Le32(v / W32);
    U32Held(m, a, v % W32);
    U32Held(m, a + 4, v / W32);
  }

  /** Reading a signed 32-bit field that was stored in two's complement. */
  lemma SignedField(d: int)
    requires -0x8000_0000 <= d < 0x8000_0000
    ensures 0 <= d % W32 < W32 && Signed32(d % W32) == d
  {
  }
}
