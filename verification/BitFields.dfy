/** Masks and shifted fields of a word, as quotients and remainders. */
module BitFields {
  import opened Words
  import opened BitMaps

  lemma {:induction false} AndZero(x: nat)
    ensures And(x, 0) == 0
  {
  }

  /** The part of a word below bit `k`. */
  function Low(x: nat, k: nat): nat { x % Pow2(k) }

  /** A right shift is a division. */
  lemma {:induction false} ShrQuotient(x: nat, k: nat)
    ensures Shr(x, k) == x / Pow2(k)
    decreases k
  {
    if k > 0 {
      ShrQuotient(x / 2, k - 1);
      QuotientTwice(x, Pow2(k - 1));
    }
  }

  lemma HalfParts(x: nat, k: nat)
    requires k > 0
    ensures Low(x, k) / 2 == Low(x / 2, k - 1) && Low(x, k) % 2 == x % 2 && Shr(x, k) == Shr(x / 2, k - 1)
  {
    HalfRem(x, Pow2(k - 1));
  }

  /** A mask of `n` ones keeps the low `n` bits. */
  lemma {:induction false} AndOnes(x: nat, n: nat)
    ensures And(x, Pow2(n) - 1) == Low(x, n)
    decreases n
  {
    if n == 0 {
      AndZero(x);
      assert Low(x, 0) == 0;
    } else {
      hide And, Low, Shr;
      var p := Pow2(n - 1);
      assert (2 * p - 1) / 2 == p - 1 && (2 * p - 1) % 2 == 1;
      AndOnes(x / 2, n - 1);
      HalfParts(x, n);
      AndStep(x, 2 * p - 1);
    }
  }

  /** A mask with a field of `n` ones at bit `k` and a mask `m` below it. */
  lemma MaskTop(w: nat, k: nat, n: nat, m: nat)
    requires m < Pow2(k)
    ensures And(w, (Pow2(n) - 1) * Pow2(k) + m) == Low(Shr(w, k), n) * Pow2(k) + And(Low(w, k), m)
  {
    hide And, Shr, Pow2;
    var ones := Pow2(n) - 1;
    var mask := ones * Pow2(k) + m;
    RemainderIs(mask, Pow2(k), ones, m);
    QuotientIs(mask, Pow2(k), ones, m);
    ShrQuotient(mask, k);
    AndSplit(w, mask, k);
    AndOnes(Shr(w, k), n);
  }

  /** A conjunction splits at bit `k`. */
  lemma {:induction false} AndSplit(x: nat, y: nat, k: nat)
    ensures And(x, y) == And(Low(x, k), Low(y, k)) + Pow2(k) * And(Shr(x, k), Shr(y, k))
    decreases k
  {
    if k == 0 {
      assert Low(x, 0) == 0;
    } else {
      hide And, Low, Shr;
      AndSplit(x / 2, y / 2, k - 1);
      HalfParts(x, k);
      HalfParts(y, k);
      AndStep(x, y);
      AndStep(Low(x, k), Low(y, k));
      var a, b := And(Low(x / 2, k - 1), Low(y / 2, k - 1)), And(Shr(x / 2, k - 1), Shr(y / 2, k - 1));
      assert Pow2(k) == 2 * Pow2(k - 1);
      Doubled(a, b, Pow2(k - 1));
    }
  }

  lemma Doubled(a: int, b: int, p: int)
    ensures 2 * (a + p * b) == 2 * a + (2 * p) * b
  {
  }

  lemma AndStep(x: nat, y: nat)
    ensures And(x, y) == (if x % 2 == 1 && y % 2 == 1 then 1 else 0) + 2 * And(x / 2, y / 2)
  {
  }

  lemma QuotientTwice(x: nat, p: nat)
    requires p > 0
    ensures x / (2 * p) == x / 2 / p
  {
    var q, r := x / 2 / p, x / 2 % p;
    assert x / 2 == q * p + r;
    Doubled(r, p, q);
    assert x == q * (2 * p) + (2 * r + x % 2);
    QuotientIs(x, 2 * p, q, 2 * r + x % 2);
  }

  lemma QuotientIs(x: int, d: int, q: int, r: int)
    requires d > 0 && x == q * d + r && 0 <= r < d
    ensures x / d == q
  {
    RemainderIs(x, d, q, r);
    assert x == (x / d) * d + x % d;
    SameFactor(x / d, q, d);
  }

  lemma SameFactor(a: int, b: int, d: int)
    requires d > 0 && a * d == b * d
    ensures a == b
  {
    assert (a - b) * d == 0;
    assert a - b >= 1 ==> (a - b) * d >= d;
    assert a - b <= -1 ==> (a - b) * d <= -d;
  }

  /** A disjunction of fields that do not overlap is their sum. */
  lemma {:induction false} OrDisjoint(a: nat, k: nat, b: nat)
    requires b < Pow2(k)
    ensures Or(a * Pow2(k), b) == a * Pow2(k) + b
    decreases k
  {
    if k > 0 {
      var p := Pow2(k - 1);
      assert a * Pow2(k) == 2 * (a * p);
      OrDisjoint(a, k - 1, b / 2);
      OrStep(2 * (a * p), b);
    }
  }

  lemma OrStep(x: nat, y: nat)
    ensures Or(x, y) == (if x % 2 == 1 || y % 2 == 1 then 1 else 0) + 2 * Or(x / 2, y / 2)
  {
  }

  lemma BigPowers()
    ensures Pow2(17) == 0x2_0000 && Pow2(18) == 0x4_0000 && Pow2(19) == 0x8_0000 && Pow2(20) == 0x10_0000
    ensures Pow2(21) == 0x20_0000 && Pow2(22) == 0x40_0000 && Pow2(23) == 0x80_0000 && Pow2(24) == 0x100_0000
    ensures Pow2(31) == 0x8000_0000 && Pow2(32) == W32 && Pow2(33) == 0x2_0000_0000
  {
    Pow2Table();
    hide Pow2;
    Pow2Sum(16, 1);
    Pow2Sum(16, 2);
    Pow2Sum(16, 3);
    Pow2Sum(16, 4);
    Pow2Sum(16, 5);
    Pow2Sum(16, 6);
    Pow2Sum(16, 7);
    Pow2Sum(16, 8);
    Pow2Sum(16, 15);
    Pow2Sum(16, 16);
    Pow2Step(32);
  }
}
