/** Shifts, masks and bitwise or on natural numbers. */
module Bits {
  function Pow2(k: nat): (p: nat)
    ensures p > 0
  {
    if k == 0 then 1 else 2 * Pow2(k - 1)
  }

  /** A left shift. */
  function Shl(a: nat, k: nat): nat {
    if k == 0 then a else 2 * Shl(a, k - 1)
  }

  function Or(a: nat, b: nat): nat {
    if a == 0 && b == 0 then 0 else
      (if a % 2 == 1 || b % 2 == 1 then 1 else 0) + 2 * Or(a / 2, b / 2)
  }

  function And(a: nat, b: nat): nat {
    if a == 0 || b == 0 then 0 else
      (if a % 2 == 1 && b % 2 == 1 then 1 else 0) + 2 * And(a / 2, b / 2)
  }

  lemma {:induction false} OrZero(a: nat)
    ensures Or(a, 0) == a
  {
    if a > 0 {
      OrZero(a / 2);
    }
  }

  lemma {:induction false} ShlIsProduct(a: nat, k: nat)
    ensures Shl(a, k) == a * Pow2(k)
  {
    if k > 0 {
      ShlIsProduct(a, k - 1);
    }
  }

  lemma {:induction false} ShlTwice(a: nat, j: nat, k: nat)
    ensures Shl(a, k + j) == Shl(Shl(a, j), k)
  {
    if k > 0 {
      ShlTwice(a, j, k - 1);
    }
  }

  lemma {:induction false} ShlAdd(a: nat, b: nat, k: nat)
    ensures Shl(a, k) + Shl(b, k) == Shl(a + b, k)
  {
    if k > 0 {
      ShlAdd(a, b, k - 1);
    }
  }

  /** A field of `j` bits placed `k` bits up stays below the next one. */
  lemma {:induction false} ShlBound(a: nat, j: nat, k: nat)
    requires a < Pow2(j)
    ensures Shl(a, k) < Pow2(j + k)
  {
    if k > 0 {
      ShlBound(a, j, k - 1);
    }
  }

  /** Fields that do not overlap add up. */
  lemma {:induction false} OrDisjoint(a: nat, k: nat, b: nat)
    requires b < Pow2(k)
    ensures Or(Shl(a, k), b) == Shl(a, k) + b
  {
    if k == 0 {
      OrZero(a);
    } else {
      OrDisjoint(a, k - 1, b / 2);
      assert Shl(a, k) / 2 == Shl(a, k - 1) && Shl(a, k) % 2 == 0;
    }
  }

  /** The `k` low bits. */
  function Low(a: nat, k: nat): nat {
    if k == 0 then 0 else a % 2 + 2 * Low(a / 2, k - 1)
  }

  lemma {:induction false} AndKeepsLow(a: nat, k: nat)
    ensures And(a, Pow2(k) - 1) == Low(a, k)
  {
    if k > 0 {
      AndKeepsLow(a / 2, k - 1);
      assert (Pow2(k) - 1) % 2 == 1 && (Pow2(k) - 1) / 2 == Pow2(k - 1) - 1;
    }
  }

  lemma {:induction false} LowIsRemainder(a: nat, k: nat)
    ensures Low(a, k) == a % Pow2(k)
  {
    if k > 0 {
      LowIsRemainder(a / 2, k - 1);
      Halve(a, Pow2(k - 1));
    }
  }

  /** Masking with the low bits is the remainder. */
  lemma {:induction false} AndMask(a: nat, k: nat)
    ensures And(a, Pow2(k) - 1) == a % Pow2(k)
  {
    AndKeepsLow(a, k);
    LowIsRemainder(a, k);
  }

  /** A number that fits survives its mask, and every masked number fits. */
  lemma {:induction false} MaskFits(a: nat, k: nat)
    ensures And(a, Pow2(k) - 1) < Pow2(k) && (a < Pow2(k) ==> And(a, Pow2(k) - 1) == a)
  {
    AndKeepsLow(a, k);
    LowFits(a, k);
  }

  lemma {:induction false} LowFits(a: nat, k: nat)
    ensures Low(a, k) < Pow2(k) && (a < Pow2(k) ==> Low(a, k) == a)
  {
    if k > 0 {
      LowFits(a / 2, k - 1);
    }
  }

  /** A shifted number leaves room for everything below the shift. */
  lemma {:induction false} ShlOrder(a: nat, b: nat, k: nat)
    requires a < b
    ensures Shl(a, k) + Pow2(k) <= Shl(b, k)
  {
    if k > 0 {
      ShlOrder(a, b, k - 1);
    }
  }

  lemma {:induction false} ShlDivides(a: nat, k: nat, r: nat)
    requires r < Pow2(k)
    ensures (Shl(a, k) + r) / Pow2(k) == a && (Shl(a, k) + r) % Pow2(k) == r
  {
    ShlIsProduct(a, k);
    DivisionIsUnique(Shl(a, k) + r, Pow2(k), a, r);
  }

  lemma {:induction false} PowersMultiply(j: nat, k: nat)
    ensures Pow2(j) * Pow2(k) == Pow2(j + k)
  {
    if k > 0 {
      PowersMultiply(j, k - 1);
    }
  }

  lemma Halve(a: nat, m: nat)
    requires m > 0
    ensures a % (2 * m) == 2 * ((a / 2) % m) + a % 2
  {
    var q := (a / 2) / m;
    var r := (a / 2) % m;
    assert a == 2 * (q * m + r) + a % 2;
    assert a == (2 * m) * q + (2 * r + a % 2);
    DivisionIsUnique(a, 2 * m, q, 2 * r + a % 2);
  }

  lemma DivisionIsUnique(a: nat, m: nat, q: nat, r: nat)
    requires m > 0 && a == m * q + r && r < m
    ensures a / m == q && a % m == r
  {
    var d := a / m - q;
    assert m * d == r - a % m;
    assert d > 0 ==> m * d >= m;
    assert d < 0 ==> m * d + m <= 0;
  }
}
