/** The 32-bit bin maps and the bit tricks that search them. Words are natural numbers read bit by bit. */
module BitMaps {
  import opened Words

  /** Bit `i` of `x`. */
  predicate Bit(x: nat, i: nat) {
    if i == 0 then x % 2 == 1 else Bit(x / 2, i - 1)
  }

  function And(x: nat, y: nat): nat {
    if x == 0 || y == 0 then 0
    else (if x % 2 == 1 && y % 2 == 1 then 1 else 0) + 2 * And(x / 2, y / 2)
  }

  function Or(x: nat, y: nat): nat
    decreases x + y
  {
    if x == 0 then y else if y == 0 then x
    else (if x % 2 == 1 || y % 2 == 1 then 1 else 0) + 2 * Or(x / 2, y / 2)
  }

  /** Two's complement negation and bitwise complement of an `n`-bit word. */
  function Neg(x: nat, n: nat): nat
    requires x <= Pow2(n)
  {
    (Pow2(n) - x) % Pow2(n)
  }

  function Not(x: nat, n: nat): nat
    requires x < Pow2(n)
  {
    Pow2(n) - 1 - x
  }

  // ---- single bits -------------------------------------------------------------------------------------

  lemma {:induction false} ZeroBit(i: nat)
    ensures !Bit(0, i)
  {
    if i > 0 { ZeroBit(i - 1); }
  }

  lemma {:induction false} AndBit(x: nat, y: nat, i: nat)
    ensures Bit(And(x, y), i) == (Bit(x, i) && Bit(y, i))
    decreases i
  {
    ZeroBit(i);
    if x != 0 && y != 0 && i > 0 {
      AndBit(x / 2, y / 2, i - 1);
    }
  }

  lemma {:induction false} OrBit(x: nat, y: nat, i: nat)
    ensures Bit(Or(x, y), i) == (Bit(x, i) || Bit(y, i))
    decreases i
  {
    ZeroBit(i);
    if x != 0 && y != 0 && i > 0 {
      OrBit(x / 2, y / 2, i - 1);
    }
  }

  lemma {:induction false} NotBit(x: nat, n: nat, i: nat)
    requires x < Pow2(n) && i < n
    ensures Bit(Not(x, n), i) == !Bit(x, i)
    decreases i
  {
    if i > 0 {
      NotBit(x / 2, n - 1, i - 1);
      assert Not(x, n) / 2 == Not(x / 2, n - 1);
    }
  }

  lemma {:induction false} PowerBit(k: nat, i: nat)
    ensures Bit(Pow2(k), i) == (k == i)
    decreases i
  {
    if k == 0 {
      if i > 0 { ZeroBit(i - 1); }
    } else if i > 0 {
      PowerBit(k - 1, i - 1);
    }
  }

  lemma {:induction false} AndBound(x: nat, y: nat)
    ensures And(x, y) <= x && And(x, y) <= y
  {
    if x != 0 && y != 0 { AndBound(x / 2, y / 2); }
  }

  lemma {:induction false} OrBound(x: nat, y: nat, n: nat)
    requires x < Pow2(n) && y < Pow2(n)
    ensures Or(x, y) < Pow2(n)
    decreases n
  {
    if x != 0 && y != 0 { OrBound(x / 2, y / 2, n - 1); }
  }

  lemma {:induction false} SomeBit(x: nat, n: nat)
    requires 0 < x < Pow2(n)
    ensures exists i :: 0 <= i < n && Bit(x, i)
    decreases n
  {
    if x % 2 == 1 {
      assert Bit(x, 0);
    } else {
      SomeBit(x / 2, n - 1);
      var i :| 0 <= i < n - 1 && Bit(x / 2, i);
      assert Bit(x, i + 1);
    }
  }

  // ---- marking and clearing ------------------------------------------------------------------------------

  function Idx2Bit(i: nat): nat {
    Pow2(i)
  }

  function Mark(m: nat, i: nat): nat {
    Or(m, Idx2Bit(i))
  }

  function Unmark(m: nat, i: nat): nat
    requires i < 32
  {
    Pow2Below(i, 32);
    And(m, Not(Idx2Bit(i), 32))
  }

  lemma {:induction false} Pow2Below(i: nat, n: nat)
    requires i < n
    ensures Pow2(i) < Pow2(n)
    decreases n
  {
    if i < n - 1 { Pow2Below(i, n - 1); }
  }

  /** Marking and clearing bin `i` changes that bit and no other. */
  lemma MarkEffect(m: nat, i: nat)
    requires i < 32 && m < W32
    ensures Mark(m, i) < W32 && Unmark(m, i) < W32
    ensures forall j :: 0 <= j < 32 ==> Bit(Mark(m, i), j) == (i == j || Bit(m, j))
    ensures forall j :: 0 <= j < 32 ==> Bit(Unmark(m, i), j) == (i != j && Bit(m, j))
  {
    hide Bit, And, Or, Not, Pow2;
    Pow2Below(i, 32);
    Pow2Of32();
    OrBound(m, Idx2Bit(i), 32);
    AndBound(m, Not(Idx2Bit(i), 32));
    forall j | 0 <= j < 32
      ensures Bit(Mark(m, i), j) == (i == j || Bit(m, j))
      ensures Bit(Unmark(m, i), j) == (i != j && Bit(m, j))
    {
      PowerBit(i, j);
      NotBit(Idx2Bit(i), 32, j);
      OrBit(m, Idx2Bit(i), j);
      AndBit(m, Not(Idx2Bit(i), 32), j);
    }
  }

  lemma Pow2Of32()
    ensures Pow2(32) == W32
  {
    Pow2Table();
    hide Pow2;
    Pow2Sum(16, 16);
  }

  // ---- searching ------------------------------------------------------------------------------------------

  /** The lowest marked index at or above `from`: the linear scan that the bit tricks replace. */
  function LowestMarked(m: nat, from: nat): nat
    requires from <= 32
    decreases 32 - from
  {
    if from == 32 || Bit(m, from) then from else LowestMarked(m, from + 1)
  }

  lemma {:induction false} LowestMarkedIs(m: nat, from: nat)
    requires from <= 32
    ensures from <= LowestMarked(m, from) <= 32
    ensures forall j :: from <= j < LowestMarked(m, from) ==> !Bit(m, j)
    ensures LowestMarked(m, from) < 32 ==> Bit(m, LowestMarked(m, from))
    decreases 32 - from
  {
    hide Bit;
    if from < 32 && !Bit(m, from) {
      LowestMarkedIs(m, from + 1);
    }
  }

  /** Isolates the least set bit (least_bit). */
  function LeastBit(x: nat): nat
    requires x < W32
  {
    Pow2Of32();
    And(x, Neg(x, 32))
  }

  lemma {:induction false} AndComplement(x: nat, n: nat)
    requires x < Pow2(n)
    ensures And(x, Not(x, n)) == 0
    decreases n
  {
    if n > 0 {
      AndComplement(x / 2, n - 1);
      assert Not(x, n) / 2 == Not(x / 2, n - 1);
      assert Not(x, n) % 2 == 1 - x % 2;
    }
  }

  lemma {:induction false} LeastBitIs(x: nat, n: nat, i: nat)
    requires x < Pow2(n) && i < n && Bit(x, i)
    requires forall j :: 0 <= j < i ==> !Bit(x, j)
    ensures x > 0 && And(x, Pow2(n) - x) == Pow2(i)
    decreases n
  {
    ZeroBit(i);
    var y := Pow2(n) - x;
    if i == 0 {
      AndComplement(x / 2, n - 1);
      assert y / 2 == Not(x / 2, n - 1);
    } else {
      assert !Bit(x, 0);
      forall j | 0 <= j < i - 1 ensures !Bit(x / 2, j) {
        assert !Bit(x, j + 1);
      }
      LeastBitIs(x / 2, n - 1, i - 1);
      assert y / 2 == Pow2(n - 1) - x / 2;
    }
  }

  function Shr(x: nat, k: nat): nat {
    if k == 0 then x else Shr(x / 2, k - 1)
  }

  /** The index of a single set bit (compute_bit2idx, portable branch, whose five steps use b = 4, 3, 2, 1, 0). */
  function Bit2Idx(x: nat): nat
    requires x > 0
  {
    HalvingSteps(x - 1, 4)
  }

  function HalvingSteps(y: nat, b: nat): nat
    requires b <= 4
    decreases b
  {
    Pow2Table();
    var k := And(Shr(y, Pow2(b) - b), Pow2(b));
    k + if b == 0 then Shr(y, k) else HalvingSteps(Shr(y, k), b - 1)
  }

  lemma {:induction false} OnesShifted(i: nat, h: nat)
    requires h <= i
    ensures Shr(Pow2(i) - 1, h) == Pow2(i - h) - 1
  {
    if h > 0 {
      assert (Pow2(i) - 1) / 2 == Pow2(i - 1) - 1;
      OnesShifted(i - 1, h - 1);
    }
  }

  lemma {:induction false} OnesBit(i: nat, h: nat)
    ensures Bit(Pow2(i) - 1, h) == (h < i)
    decreases h
  {
    if i == 0 {
      ZeroBit(h);
    } else if h > 0 {
      assert (Pow2(i) - 1) / 2 == Pow2(i - 1) - 1;
      OnesBit(i - 1, h - 1);
    }
  }

  lemma {:induction false} ShrBit(x: nat, k: nat, b: nat)
    ensures Bit(Shr(x, k), b) == Bit(x, k + b)
  {
    if k > 0 { ShrBit(x / 2, k - 1, b); }
  }

  lemma {:induction false} MaskOne(x: nat, b: nat)
    ensures And(x, Pow2(b)) == if Bit(x, b) then Pow2(b) else 0
    decreases b
  {
    if x == 0 {
      ZeroBit(b);
    } else if b > 0 {
      MaskOne(x / 2, b - 1);
    } else {
      assert And(x / 2, 0) == 0;
    }
  }

  /** On a run of `i` ones the halving steps add up to `i`. */
  lemma {:induction false} HalvingStepsCount(i: nat, b: nat)
    requires b <= 4 && i <= 2 * Pow2(b)
    ensures HalvingSteps(Pow2(i) - 1, b) == i
    decreases b
  {
    hide And, Bit, Shr;
    Pow2Table();
    var h := Pow2(b);
    MaskOne(Shr(Pow2(i) - 1, h - b), b);
    ShrBit(Pow2(i) - 1, h - b, b);
    OnesBit(i, h);
    var k := if i > h then h else 0;
    OnesShifted(i, k);
    if b > 0 { HalvingStepsCount(i - k, b - 1); }
  }

  lemma Bit2IdxIs(i: nat)
    requires i < 32
    ensures Bit2Idx(Pow2(i)) == i
  {
    Pow2Table();
    HalvingStepsCount(i, 4);
  }

  // ---- the searches used by the allocator ---------------------------------------------------------------

  /** All bits above the least set bit of `x` (left_bits). */
  function LeftBits(x: nat): nat
    requires x < W32
  {
    Pow2Of32();
    var y := 2 * x % W32;
    Or(y, Neg(y, 32))
  }

  lemma {:induction false} HighOnesBit(k: nat, n: nat, j: nat)
    requires k <= n
    ensures Pow2(k) <= Pow2(n) && Bit(Pow2(n) - Pow2(k), j) == (k <= j < n)
    decreases j, n
  {
    if k == 0 {
      OnesBit(n, j);
    } else {
      HighOnesBit(k - 1, n - 1, if j > 0 then j - 1 else 0);
      assert (Pow2(n) - Pow2(k)) / 2 == Pow2(n - 1) - Pow2(k - 1);
    }
  }

  lemma LeftBitsIs(i: nat, j: nat)
    requires i < 32 && j < 32
    ensures Pow2(i) < W32 && LeftBits(Pow2(i)) < W32 && Bit(LeftBits(Pow2(i)), j) == (i < j)
  {
    hide Bit, Or, Pow2;
    Pow2Of32();
    Pow2Below(i, 32);
    Pow2Step(i);
    if i == 31 {
      ZeroBit(j);
      OrZero();
    } else {
      Pow2Below(i + 1, 32);
      HighOnesBit(i + 1, 32, j);
      OrBit(Pow2(i + 1), Neg(Pow2(i + 1), 32), j);
      OrBound(Pow2(i + 1), Neg(Pow2(i + 1), 32), 32);
      PowerBit(i + 1, j);
    }
  }

  lemma OrZero()
    ensures Or(0, 0) == 0
  {
  }

  /** The least-bit trick finds the same bin as a linear scan from bin 0. */
  lemma LeastBitScans(m: nat)
    requires 0 < m < W32
    ensures LowestMarked(m, 0) < 32 && LeastBit(m) > 0
    ensures Bit2Idx(LeastBit(m)) == LowestMarked(m, 0)
  {
    hide Bit, And, Bit2Idx, Pow2;
    var i := LowestMarked(m, 0);
    LowestMarkedIs(m, 0);
    Pow2Of32();
    SomeBit(m, 32);
    LeastBitIs(m, 32, i);
    Bit2IdxIs(i);
  }

  /** Masking with left_bits and taking the least bit finds the first marked bin above `i`. */
  lemma LeftBitsScan(m: nat, i: nat)
    requires i < 32 && m < W32
    ensures Pow2(i) < W32
    ensures var x := And(LeftBits(Pow2(i)), m);
            && x < W32
            && (x == 0) == (LowestMarked(m, i + 1) == 32)
            && (x != 0 ==> LeastBit(x) > 0 && Bit2Idx(LeastBit(x)) == LowestMarked(m, i + 1))
  {
    hide Bit, And, Bit2Idx, Pow2, LeftBits, LeastBit;
    LeftBitsIs(i, 0);
    var x := And(LeftBits(Pow2(i)), m);
    AndBound(LeftBits(Pow2(i)), m);
    forall j | 0 <= j < 32 ensures Bit(x, j) == (i < j && Bit(m, j)) {
      LeftBitsIs(i, j);
      AndBit(LeftBits(Pow2(i)), m, j);
    }
    LowestMarkedIs(m, i + 1);
    LowestMarkedIs(x, 0);
    if x == 0 {
      ZeroBit(LowestMarked(m, i + 1));
    } else {
      LeastBitScans(x);
    }
  }

  /** A 32-bit left shift. */
  function Shl(x: nat, k: nat): nat
    decreases k
  {
    if k == 0 then x else Shl(2 * x % W32, k - 1)
  }

  lemma {:induction false} TrimBit(x: nat, n: nat, i: nat)
    requires i < n
    ensures Bit(x % Pow2(n), i) == Bit(x, i)
    decreases i
  {
    if i > 0 {
      HalfRem(x, Pow2(n - 1));
      TrimBit(x / 2, n - 1, i - 1);
    } else {
      HalfRem(x, Pow2(n - 1));
    }
  }

  lemma HalfRem(x: nat, p: nat)
    requires p > 0
    ensures x % (2 * p) / 2 == x / 2 % p && x % (2 * p) % 2 == x % 2
  {
    var q, r := x / 2 / p, x / 2 % p;
    assert x / 2 == q * p + r;
    assert x == q * (2 * p) + (2 * r + x % 2);
    RemainderIs(x, 2 * p, q, 2 * r + x % 2);
  }

  lemma RemainderIs(x: int, d: int, q: int, r: int)
    requires d > 0 && x == q * d + r && 0 <= r < d
    ensures x % d == r
  {
    MultipleIsZero(x / d - q, d, r - x % d) by { assert x == (x / d) * d + x % d; }
  }

  lemma MultipleIsZero(e: int, d: int, y: int)
    requires d > 0 && e * d == y && -d < y < d
    ensures y == 0
  {
    assert e >= 1 ==> e * d >= d;
    assert e <= -1 ==> e * d <= -d;
  }

  lemma {:induction false} ShlBit(x: nat, k: nat, b: nat)
    requires b < 32
    ensures Bit(Shl(x, k), b) == (k <= b && Bit(x, b - k))
    decreases k
  {
    if k > 0 {
      var y := 2 * x % W32;
      ShlBit(y, k - 1, b);
      if k <= b + 1 {
        Pow2Of32();
        TrimBit(2 * x, 32, b - (k - 1));
      }
    }
  }

  lemma {:induction false} ShlBound(x: nat, k: nat)
    requires x < W32
    ensures Shl(x, k) < W32
    decreases k
  {
    if k > 0 { ShlBound(2 * x % W32, k - 1); }
  }

  lemma {:induction false} ShrBound(x: nat, k: nat)
    ensures Shr(x, k) <= x
  {
    if k > 0 { ShrBound(x / 2, k - 1); }
  }

  /**
   * The search for a larger small bin: shifting down and up again, masking and taking the least bit is a linear scan.
   */
  lemma ShiftedScan(m: nat, i: nat)
    requires i < 31 && m < W32
    ensures Pow2(i) < W32
    ensures var y := Shr(m, i);
            var x := And(Shl(y, i), LeftBits(Pow2(i)));
            && y < W32 && x < W32 && (Bit(y, 0) <==> Bit(m, i)) && (Bit(y, 1) <==> Bit(m, i + 1))
            && (!Bit(y, 0) && y != 0 ==> x != 0) && (y == 0 ==> forall j :: i <= j < 32 ==> !Bit(m, j))
            && (x != 0 ==> LeastBit(x) > 0 && Bit2Idx(LeastBit(x)) == LowestMarked(m, i + 1) < 32)
  {
    hide Bit, And, Bit2Idx, Pow2, LeftBits, LeastBit, Shr, Shl;
    LeftBitsIs(i, 0);
    var y := Shr(m, i);
    var x := And(Shl(y, i), LeftBits(Pow2(i)));
    ShrBound(m, i);
    ShlBound(y, i);
    AndBound(Shl(y, i), LeftBits(Pow2(i)));
    ShrBit(m, i, 0);
    ShrBit(m, i, 1);
    forall j | 0 <= j < 32 ensures Bit(x, j) == (i < j && Bit(m, j)) {
      LeftBitsIs(i, j);
      AndBit(Shl(y, i), LeftBits(Pow2(i)), j);
      ShlBit(y, i, j);
      if i <= j { ShrBit(m, i, j - i); }
    }
    LowestMarkedIs(m, i + 1);
    LowestMarkedIs(x, 0);
    if y == 0 { forall j | i <= j < 32 ensures !Bit(m, j) { ShrBit(m, i, j - i); ZeroBit(j - i); } }
    if x == 0 {
      if y != 0 && !Bit(y, 0) { SomeAbove(m, i, y); ZeroBit(LowestMarked(m, i + 1)); }
    } else {
      LeastBitScans(x);
    }
  }

  lemma SomeAbove(m: nat, i: nat, y: nat)
    requires y == Shr(m, i) && m < W32 && y != 0 && !Bit(y, 0) && i < 32
    ensures exists j :: i < j < 32 && Bit(m, j)
  {
    hide Bit, Shr, Pow2;
    Pow2Of32();
    ShrBound(m, i);
    SomeBit(y, 32);
    var b :| 0 <= b < 32 && Bit(y, b);
    ShrBit(m, i, b);
    if i + b >= 32 {
      if i + b > 32 { Pow2Below(32, i + b); }
      HighClear(m, i + b);
    }
  }

  lemma {:induction false} HighClear(m: nat, b: nat)
    requires m < Pow2(b)
    ensures !Bit(m, b)
    decreases b
  {
    if b > 0 { HighClear(m / 2, b - 1); }
  }

  /** The test of two neighbouring bits, and the choice between them. */
  lemma LowPair(y: nat)
    requires y < W32
    ensures y < Pow2(32) && (And(y, 3) != 0 <==> Bit(y, 0) || Bit(y, 1))
    ensures And(Not(y, 32), 1) == if Bit(y, 0) then 0 else 1
  {
    Pow2Of32();
    AndBound(y, 3);
    AndBit(y, 3, 0);
    AndBit(y, 3, 1);
    OnesBit(2, 0);
    OnesBit(2, 1);
    if And(y, 3) != 0 { SomeBit(And(y, 3), 2); } else { ZeroBit(0); ZeroBit(1); }
    NotBit(y, 32, 0);
    MaskOne(Not(y, 32), 0);
  }

  /** The power-of-two test of internal_memalign. */
  lemma {:induction false} OnlyPowerOfTwo(x: nat)
    requires x > 0 && And(x, x - 1) == 0
    ensures exists k: nat :: x == Pow2(k)
  {
    if x % 2 == 0 {
      var y := x / 2;
      assert (x - 1) / 2 == y - 1 && (x - 1) % 2 == 1;
      assert And(x, x - 1) == 2 * And(y, y - 1);
      OnlyPowerOfTwo(y);
      var k: nat :| y == Pow2(k);
      assert x == Pow2(k + 1);
    } else if x == 1 {
      assert x == Pow2(0);
    } else {
      var y := x / 2;
      assert (x - 1) / 2 == y && (x - 1) % 2 == 0;
      assert And(x, x - 1) == 2 * And(y, y);
      AndSelf(y);
    }
  }

  lemma {:induction false} AndSelf(x: nat)
    ensures And(x, x) == x
  {
    if x > 0 { AndSelf(x / 2); }
  }
}
