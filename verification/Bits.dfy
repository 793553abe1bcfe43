/** Bitwise operations of unsigned machine words, on natural numbers, and the arithmetic
    they amount to when masks and shifted fields do not overlap. */
module Bits {

  function Pow2(k: nat): (p: nat)
    ensures p >= 1
  {
    if k == 0 then 1 else 2 * Pow2(k - 1)
  }

  /** The bitwise conjunction of two words. */
  function And(a: nat, b: nat): nat {
    if a == 0 || b == 0 then 0
    else 2 * And(a / 2, b / 2) + if a % 2 == 1 && b % 2 == 1 then 1 else 0
  }

  /** The bitwise disjunction of two words. */
  function Or(a: nat, b: nat): nat
    decreases a + b
  {
    if a == 0 && b == 0 then 0
    else 2 * Or(a / 2, b / 2) + if a % 2 == 1 || b % 2 == 1 then 1 else 0
  }

  /** Shifts that stay inside the word. */
  function Shl(a: nat, k: nat): nat { a * Pow2(k) }

  function Shr(a: nat, k: nat): nat {
    if k == 0 then a else Shr(a / 2, k - 1)
  }

  function LowMask(k: nat): nat { Pow2(k) - 1 }

  lemma {:induction false} ModDouble(a: nat, m: nat)
    requires m >= 1
    ensures a % (2 * m) == 2 * ((a / 2) % m) + a % 2 && a / (2 * m) == (a / 2) / m
  {
    var h := a / 2;
    var q, r := h / m, h % m;
    DoubleParts(m, q, r, a % 2);
    DivModUnique(a, 2 * m, q, 2 * r + a % 2);
  }

  lemma {:induction false} DoubleParts(m: nat, q: nat, r: nat, bit: nat)
    ensures 2 * (m * q + r) + bit == (2 * m) * q + (2 * r + bit)
  {
    assert (2 * m) * q == 2 * (m * q);
  }

  /** Shifting right is dividing. */
  lemma {:induction false} ShrIsDiv(a: nat, k: nat)
    ensures Shr(a, k) == a / Pow2(k)
  {
    if k > 0 {
      ShrIsDiv(a / 2, k - 1);
      ModDouble(a, Pow2(k - 1));
    }
  }

  lemma {:induction false} DivModUnique(a: nat, d: nat, q: nat, r: nat)
    requires d >= 1 && r < d && a == d * q + r
    ensures a / d == q && a % d == r
  {
    var q' := a / d;
    QuotientAtLeast(a, d, q);
    QuotientBelow(a, d, q + 1);
    assert q' == q;
  }

  lemma {:induction false} MulMonotone(d: nat, x: nat, y: nat)
    requires x <= y
    ensures d * x <= d * y
  {
  }

  lemma {:induction false} QuotientAtLeast(a: nat, d: nat, q: nat)
    requires d >= 1 && a >= d * q
    ensures a / d >= q
  {
    if a / d < q {
      MulMonotone(d, a / d + 1, q);
    }
  }

  lemma {:induction false} QuotientBelow(a: nat, d: nat, q: nat)
    requires d >= 1 && a < d * q
    ensures a / d < q
  {
    if a / d >= q {
      MulMonotone(d, q, a / d);
    }
  }

  /** Masking with `k` low ones is taking the remainder by 2^k. */
  lemma {:induction false} AndMask(a: nat, k: nat)
    ensures And(a, LowMask(k)) == a % Pow2(k) < Pow2(k)
  {
    if k > 0 {
      AndMask(a / 2, k - 1);
      ModDouble(a, Pow2(k - 1));
      assert LowMask(k) / 2 == LowMask(k - 1) && LowMask(k) % 2 == 1;
    }
  }

  lemma {:induction false} OrZero(b: nat)
    ensures Or(0, b) == b
  {
    if b > 0 {
      OrZero(b / 2);
    }
  }

  lemma {:induction false} OrCommutes(a: nat, b: nat)
    ensures Or(a, b) == Or(b, a)
    decreases a + b
  {
    if a > 0 || b > 0 {
      OrCommutes(a / 2, b / 2);
    }
  }

  /** Disjunction with a field shifted past the other operand is addition. */
  lemma {:induction false} OrDisjoint(a: nat, b: nat, k: nat)
    requires a < Pow2(k)
    ensures Or(a, Shl(b, k)) == a + b * Pow2(k)
  {
    if k == 0 {
      OrZero(b);
    } else {
      var half := b * Pow2(k - 1);
      assert b * Pow2(k) == 2 * half;
      OrDisjoint(a / 2, b, k - 1);
    }
  }

  lemma {:induction false} AndFits(a: nat, k: nat)
    requires a < Pow2(k)
    ensures And(a, LowMask(k)) == a
  {
    AndMask(a, k);
    DivModUnique(a, Pow2(k), 0, a);
  }

  /** Three masked fields of `k`, `m` and any width, packed side by side. */
  lemma {:induction false} PackThree(a: nat, b: nat, c: nat, k: nat, m: nat)
    requires a < Pow2(k) && b < Pow2(m)
    ensures Or(Or(And(a, LowMask(k)), Shl(And(b, LowMask(m)), k)), Shl(c, k + m))
         == (a + b * Pow2(k)) + c * Pow2(k + m)
  {
    var low := a + b * Pow2(k);
    assert Or(And(a, LowMask(k)), Shl(And(b, LowMask(m)), k)) == low by {
      AndFits(a, k);
      AndFits(b, m);
      OrDisjoint(a, b, k);
    }
    assert low < Pow2(k + m) by {
      Pow2Sum(k, m);
      TwoFieldsFit(a, b, Pow2(k), Pow2(m));
    }
    OrDisjoint(low, c, k + m);
  }

  /** A masked field put above the low bits of another word. */
  lemma {:induction false} PackTwo(a: nat, c: nat, k: nat, m: nat)
    requires a < Pow2(k)
    ensures Or(Shl(And(a, LowMask(k)), m), And(c, LowMask(m))) == c % Pow2(m) + a * Pow2(m)
  {
    var low, high := And(c, LowMask(m)), Shl(a, m);
    assert And(a, LowMask(k)) == a by { AndFits(a, k); }
    assert low == c % Pow2(m) < Pow2(m) by { AndMask(c, m); }
    assert Or(high, low) == Or(low, high) by { OrCommutes(high, low); }
    OrDisjoint(low, a, m);
  }

  lemma {:induction false} Pow2Sum(k: nat, m: nat)
    ensures Pow2(k + m) == Pow2(k) * Pow2(m)
  {
    if m > 0 {
      Pow2Sum(k, m - 1);
    }
  }

  lemma {:induction false} TwoFieldsFit(a: nat, b: nat, x: nat, y: nat)
    requires a < x && b < y
    ensures a + b * x < x * y
  {
    MulMonotone(x, b + 1, y);
  }
}
