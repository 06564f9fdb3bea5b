/** Machine words as unbounded integers with explicit widths. */
module Words {

  const W32 := 0x1_0000_0000
  const W64 := 0x1_0000_0000_0000_0000

  /** The bytes of the small-bin headers in the allocator state. */
  const BIN_HEADERS := 544

  function Pow2(k: nat): (r: nat)
    ensures r >= 1
  {
    if k == 0 then 1 else 2 * Pow2(k - 1)
  }

  lemma Pow2Step(k: nat)
    ensures Pow2(k + 1) == 2 * Pow2(k)
  {
  }

  lemma Pow2Zero()
    ensures Pow2(0) == 1
  {
  }

  lemma {:induction false} Pow2Sum(j: nat, k: nat)
    ensures Pow2(j) * Pow2(k) == Pow2(j + k)
  {
    if j > 0 {
      Pow2Sum(j - 1, k);
      assert Pow2(j) == 2 * Pow2(j - 1) && Pow2(j + k) == 2 * Pow2(j - 1 + k);
    }
  }

  lemma Pow2Table()
    ensures Pow2(0) == 1 && Pow2(1) == 2 && Pow2(2) == 4 && Pow2(3) == 8
    ensures Pow2(4) == 16 && Pow2(5) == 32 && Pow2(6) == 64 && Pow2(7) == 128
    ensures Pow2(8) == 256 && Pow2(9) == 512 && Pow2(10) == 1024 && Pow2(11) == 2048
    ensures Pow2(12) == 4096 && Pow2(13) == 8192 && Pow2(14) == 16384 && Pow2(15) == 32768
    ensures Pow2(16) == 65536
  {
  }

  lemma Pow2Of64()
    ensures Pow2(63) == W64 / 2 && Pow2(64) == W64
  {
    Pow2Table();
    hide Pow2;
    Pow2Sum(16, 16);
    Pow2Sum(32, 32);
    Pow2Step(63);
  }

  function Min(x: int, y: int): int { if x < y then x else y }

  /** A 64-bit left shift: bits that leave the word are lost. */
  function Shl64(x: nat, k: nat): nat {
    x * Pow2(k) % W64
  }

  /** Unsigned 64-bit subtraction. */
  function Sub64(x: int, y: int): nat {
    (x - y) % W64
  }

  /** `x` rounded up to a multiple of 16, which is align_as_chunk on LP64. */
  function Align16(x: int): (r: int)
    ensures r % 16 == 0 && x <= r < x + 16
  {
    (x + 15) / 16 * 16
  }
}

/** Size classes of the allocator and the branch-free computation of a tree bin. */
module BinIndex {
  import opened Words

  const NTREEBINS := 32
  const MIN_LARGE_SIZE := 256

  /** The bit of weight `m` of a word (the C mask `x & m`, `m` a power of two). */
  function MaskBit(x: nat, m: nat): nat
    requires m > 0
  {
    if x / m % 2 == 1 then m else 0
  }

  function Sub32(x: nat, y: nat): nat {
    (x - y) % W32
  }

  function Shl32(x: nat, k: nat): nat {
    x * Pow2(k) % W32
  }

  /** The shift-and-mask computation of floor(log2(x)) for 0 < x <= 0xFFFF. */
  function HighBit16(x: nat): nat
    requires 0 < x <= 0xFFFF
  {
    var n0 := MaskBit(Sub32(x, 0x100) / 0x10000, 8);
    var y0 := Shl32(x, n0);
    var k0 := MaskBit(Sub32(y0, 0x1000) / 0x10000, 4);
    var y1 := Shl32(y0, k0);
    var k1 := MaskBit(Sub32(y1, 0x4000) / 0x10000, 2);
    var y2 := Shl32(y1, k1);
    (14 - (n0 + k0 + k1) + y2 / 0x8000) % W32
  }

  /** The tree bin of a chunk size (compute_tree_index, portable branch). */
  function TreeIndex(s: nat): nat {
    var x := s / 256;
    if x == 0 then 0
    else if x > 0xFFFF then NTREEBINS - 1
    else
      var k := HighBit16(x);
      2 * k + s / Pow2(k + 7) % 2
  }

  /** The smallest size held by bin `i` (minsize_for_tree_index). */
  function MinSize(i: nat): nat {
    Pow2(i / 2 + 8) + if i % 2 == 1 then Pow2(i / 2 + 7) else 0
  }

  /** How many size bits are still undecided inside bin `i`. */
  function FreeBits(i: nat): nat {
    if i == NTREEBINS - 1 then 64 else i / 2 + 7
  }

  /** First size of the power-of-two range that bin `i` divides in halves. */
  function RangeBase(i: nat): nat {
    if i == NTREEBINS - 1 then 0 else MinSize(i)
  }

  /** The shift that moves the first undecided bit of bin `i` to the sign bit. */
  function LeftShift(i: nat): (k: nat)
    requires i < NTREEBINS
  {
    if i == NTREEBINS - 1 then 0 else 63 - (i / 2 + 6)
  }

  lemma BorrowMask(y: nat, t: nat, m: nat)
    requires y <= 0xFFFF && t <= 0xFFFF && m in {2, 4, 8}
    ensures MaskBit(Sub32(y, t) / 0x10000, m) == if y < t then m else 0
  {
    if y < t {
      assert Sub32(y, t) == W32 + y - t;
      assert Sub32(y, t) / 0x10000 == 0xFFFF;
    } else {
      assert Sub32(y, t) == y - t;
    }
  }

  lemma ShiftSmall(y: nat, k: nat)
    requires y < 0x1_0000 && k in {0, 2, 4, 8}
    ensures Shl32(y, k) == y * (if k == 0 then 1 else if k == 2 then 4 else if k == 4 then 16 else 256)
  {
    assert Pow2(2) == 4 && Pow2(4) == 16 && Pow2(8) == 256;
  }

  /** One halving step: shift up by `m` bits unless the word already reaches `t`. */
  lemma Normalise(y: nat, t: nat, m: nat) returns (k: nat, y': nat)
    requires y <= 0xFFFF && (t, m) in {(0x100, 8), (0x1000, 4), (0x4000, 2)}
    ensures k == MaskBit(Sub32(y, t) / 0x10000, m) && y' == Shl32(y, k)
    ensures k == if y < t then m else 0
    ensures y' == if y >= t then y else if m == 8 then 256 * y else if m == 4 then 16 * y else 4 * y
  {
    BorrowMask(y, t, m);
    k := if y < t then m else 0;
    ShiftSmall(y, k);
    y' := Shl32(y, k);
  }

  lemma HighBit16IsLog(x: nat)
    requires 0 < x <= 0xFFFF
    ensures HighBit16(x) < 16
    ensures Pow2(HighBit16(x)) <= x < Pow2(HighBit16(x) + 1)
  {
    hide Shl32, MaskBit, Sub32, Pow2;
    var n0, y0 := Normalise(x, 0x100, 8);
    var k, y2 := NormaliseTwice(y0);
    assert HighBit16(x) == 14 - (n0 + k) + y2 / 0x8000;
    NormalisedLog(x, n0 + k, y2);
  }

  /** The second and third halving steps together. */
  lemma NormaliseTwice(y: nat) returns (k: nat, y': nat)
    requires 0x100 <= y <= 0xFFFF
    ensures var k0 := MaskBit(Sub32(y, 0x1000) / 0x10000, 4);
      var k1 := MaskBit(Sub32(Shl32(y, k0), 0x4000) / 0x10000, 2);
      k == k0 + k1 && y' == Shl32(Shl32(y, k0), k1)
    ensures k in {0, 2, 4, 6} && y' == y * Scale(k) && 0x4000 <= y' <= 0xFFFF
  {
    hide Shl32, MaskBit, Sub32, Pow2;
    var k0, y1 := Normalise(y, 0x1000, 4);
    var k1, y2 := Normalise(y1, 0x4000, 2);
    k, y' := k0 + k1, y2;
  }

  /** 2 to the power of an even `n` up to 14. */
  function Scale(n: nat): nat {
    if n == 0 then 1 else if n == 2 then 4 else if n == 4 then 16 else if n == 6 then 64
    else if n == 8 then 256 else if n == 10 then 1024 else if n == 12 then 4096 else 16384
  }

  lemma NormalisedLog(x: nat, n: nat, y: nat)
    requires n % 2 == 0 && n <= 14 && 0x4000 <= y <= 0xFFFF && y == x * Scale(n)
    ensures Pow2(14 - n + y / 0x8000) <= x < Pow2(15 - n + y / 0x8000)
  {
    Pow2Table();
    if n == 0 {} else if n == 2 {} else if n == 4 {} else if n == 6 {}
    else if n == 8 {} else if n == 10 {} else if n == 12 {} else {}
  }

  lemma Pow2Plus7(k: nat)
    ensures Pow2(k + 7) == 128 * Pow2(k) && Pow2(k + 8) == 256 * Pow2(k)
  {
    hide Pow2;
    Pow2Step(k); Pow2Step(k + 1); Pow2Step(k + 2); Pow2Step(k + 3);
    Pow2Step(k + 4); Pow2Step(k + 5); Pow2Step(k + 6); Pow2Step(k + 7);
  }

  lemma QuotientIs(s: nat, d: nat, q: nat)
    requires d > 0 && q * d <= s < (q + 1) * d
    ensures s / d == q
  {
    var q' := s / d;
    assert q' * d <= s < (q' + 1) * d;
    MulLess(q, q' + 1, d);
    MulLess(q', q + 1, d);
  }

  lemma MulLess(a: nat, b: nat, d: nat)
    requires d > 0 && a * d < b * d
    ensures a < b
  {
  }

  /** Every large size lies in the range of the bin the bit tricks assign to it. */
  lemma TreeIndexInRange(s: nat)
    requires MIN_LARGE_SIZE <= s < W64
    ensures TreeIndex(s) < NTREEBINS
    ensures MinSize(TreeIndex(s)) <= s
    ensures TreeIndex(s) < NTREEBINS - 1 ==> s < MinSize(TreeIndex(s) + 1)
  {
    hide Pow2, HighBit16, MinSize;
    var x := s / 256;
    if x > 0xFFFF {
      OddBin(15); Pow2Table();
    } else {
      HighBit16IsLog(x);
      var k := HighBit16(x);
      SecondBit(s, k, Pow2(k));
    }
  }

  lemma SecondBit(s: nat, k: nat, q: nat)
    requires q == Pow2(k) && q <= s / 256 && s / 256 < Pow2(k + 1)
    ensures MinSize(2 * k + s / Pow2(k + 7) % 2) <= s < MinSize(2 * k + s / Pow2(k + 7) % 2 + 1)
    ensures s / Pow2(k + 7) % 2 < 2
  {
    hide Pow2, MinSize;
    Pow2Step(k);
    var d := 128 * q;
    assert 2 * d <= s < 4 * d;
    Pow2Plus7(k);
    if s < 3 * d { QuotientIs(s, d, 2); EvenBin(k); } else { QuotientIs(s, d, 3); OddBin(k); }
  }

  lemma MinSizeOf(i: nat, k: nat)
    requires i == 2 * k || i == 2 * k + 1
    ensures MinSize(i) == Pow2(k + 8) + if i == 2 * k then 0 else Pow2(k + 7)
  {
    hide Pow2;
  }

  lemma EvenBin(k: nat)
    ensures MinSize(2 * k) == 256 * Pow2(k) && MinSize(2 * k + 1) == 384 * Pow2(k)
  {
    hide Pow2, MinSize;
    Pow2Plus7(k);
    MinSizeOf(2 * k, k);
    MinSizeOf(2 * k + 1, k);
  }

  lemma OddBin(k: nat)
    ensures MinSize(2 * k + 1) == 384 * Pow2(k) && MinSize(2 * k + 2) == 512 * Pow2(k)
  {
    hide Pow2, MinSize;
    EvenBin(k);
    Pow2Step(k);
    Pow2Plus7(k + 1);
    MinSizeOf(2 * k + 2, k + 1);
  }

  /** Below the last bin, bin `i` spans a power-of-two range that ends where bin `i + 1` starts. */
  lemma BinSpan(i: nat)
    ensures MinSize(i + 1) == MinSize(i) + Pow2(i / 2 + 7)
    ensures MinSize(i) == (if i % 2 == 0 then 2 else 3) * Pow2(i / 2 + 7)
  {
    hide Pow2, MinSize;
    var k := i / 2;
    Pow2Plus7(k);
    if i % 2 == 0 { EvenBin(k); } else { OddBin(k); }
  }

  lemma {:induction false} MinSizeMonotone(i: nat, j: nat)
    requires i <= j
    ensures MinSize(i) <= MinSize(j)
    decreases j - i
  {
    hide MinSize;
    if i < j {
      BinSpan(i);
      MinSizeMonotone(i + 1, j);
    }
  }

  /** Bins are ordered: every size of a lower bin is below every size of a higher one. */
  lemma BinsOrdered(s: nat, t: nat)
    requires MIN_LARGE_SIZE <= s < W64 && MIN_LARGE_SIZE <= t < W64
    requires TreeIndex(s) < TreeIndex(t)
    ensures s < t
  {
    hide MinSize, TreeIndex;
    TreeIndexInRange(s);
    TreeIndexInRange(t);
    MinSizeMonotone(TreeIndex(s) + 1, TreeIndex(t));
  }

  /** A large size lies in the power-of-two range that its bin divides in halves. */
  lemma BinRange(s: nat)
    requires MIN_LARGE_SIZE <= s < W64
    ensures TreeIndex(s) < NTREEBINS
    ensures RangeBase(TreeIndex(s)) <= s < RangeBase(TreeIndex(s)) + Pow2(FreeBits(TreeIndex(s)))
  {
    hide MinSize, TreeIndex, Pow2;
    TreeIndexInRange(s);
    var i := TreeIndex(s);
    BinSpan(i);
    if i == NTREEBINS - 1 { Pow2Of64(); }
  }

  /** `key` is the offset of `s` in a range with `k` undecided bits, scaled to 64 bits. */
  ghost predicate KeyAt(key: nat, s: nat, lo: nat, k: nat) {
    k <= 64 && lo <= s < lo + Pow2(k) && key == (s - lo) * Pow2(64 - k)
  }

  /** The search key `s << leftshift(i)` is the offset of `s` in its bin, scaled to 64 bits. */
  lemma KeyOfSize(s: nat, i: nat)
    requires MIN_LARGE_SIZE <= s < W64 && i == TreeIndex(s)
    ensures i < NTREEBINS && LeftShift(i) == 64 - FreeBits(i)
    ensures RangeBase(i) <= s < RangeBase(i) + Pow2(FreeBits(i))
    ensures KeyAt(Shl64(s, LeftShift(i)), s, RangeBase(i), FreeBits(i))
  {
    hide MinSize, TreeIndex, Pow2;
    BinRange(s);
    BinSpan(i);
    if i == NTREEBINS - 1 {
      Pow2Zero();
    } else {
      var w, c, r := Pow2(FreeBits(i)), Pow2(LeftShift(i)), s - RangeBase(i);
      Pow2Sum(FreeBits(i), LeftShift(i));
      Pow2Of64();
      ScaledRemainder(s, r, w, c, if i % 2 == 0 then 2 else 3);
    }
  }

  lemma ScaledRemainder(s: nat, r: nat, w: nat, c: nat, m: nat)
    requires c > 0 && w * c == W64 && s == m * w + r && r < w
    ensures s * c % W64 == r * c
  {
    assert s * c == m * W64 + r * c by {
      assert (m * w + r) * c == m * w * c + r * c;
      assert m * w * c == m * (w * c);
    }
    assert 0 <= r * c < W64 by {
      assert r * c < w * c by { MulLess'(r, w, c); }
    }
    RemainderOf(m, r * c);
  }

  lemma MulLess'(a: nat, b: nat, d: nat)
    requires d > 0 && a < b
    ensures a * d < b * d
  {
  }

  lemma RemainderOf(m: nat, x: nat)
    requires x < W64
    ensures (m * W64 + x) % W64 == x
  {
  }

  /** The top bit of the key says which half holds the size; shifting gives the key inside that half. */
  lemma KeyStep(s: nat, lo: nat, k: nat, key: nat)
    requires 0 < k && KeyAt(key, s, lo, k)
    ensures key < W64 && (key / (W64 / 2) == 1) == (s >= lo + Pow2(k - 1))
    ensures KeyAt(Shl64(key, 1), s, if s >= lo + Pow2(k - 1) then lo + Pow2(k - 1) else lo, k - 1)
  {
    hide Pow2, Shl64;
    var w, c, d := Pow2(k - 1), Pow2(64 - k), s - lo;
    Pow2Step(64 - k);
    Pow2Sum(k - 1, 64 - k);
    Pow2Of64();
    Pow2Step(k - 1);
    KeyArith(d, w, c, key);
    ShlOne(key);
    var h := if s >= lo + w then lo + w else lo;
    MulEq(if d >= w then d - w else d, s - h, 2 * c, Pow2(64 - (k - 1)));
  }

  lemma MulEq(a: nat, b: nat, x: nat, y: nat)
    requires a == b && x == y
    ensures a * x == b * y
  {
  }

  lemma ShlOne(x: nat)
    ensures Shl64(x, 1) == 2 * x % W64
  {
    Pow2One();
    hide Pow2;
  }

  lemma KeyArith(d: nat, w: nat, c: nat, key: nat)
    requires w * c == W64 / 2 && d < 2 * w && key == d * c
    ensures key < W64 && (key / (W64 / 2) == 1 <==> d >= w)
    ensures 2 * key % W64 == (if d >= w then d - w else d) * (2 * c)
  {
    if d >= w {
      var e := d - w;
      assert key == w * c + e * c;
      Doubled(e, c);
      MulLess'(e, w, c);
      RemainderOf(1, e * (2 * c));
    } else {
      Doubled(d, c);
      MulLess'(d, w, c);
      RemainderOf(0, d * (2 * c));
    }
  }

  lemma Doubled(e: nat, c: nat)
    ensures 2 * (e * c) == e * (2 * c)
  {
  }

  lemma Pow2One()
    ensures Pow2(1) == 2
  {
  }
}
