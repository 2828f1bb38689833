/** Bitwise operations of unsigned C integers, on natural numbers of any width. */
module Bits {
  function Pow2(k: nat): nat
    ensures Pow2(k) > 0
  {
    if k == 0 then 1 else 2 * Pow2(k - 1)
  }

  // x & y
  function And(x: nat, y: nat): nat {
    if x == 0 || y == 0 then 0
    else 2 * And(x / 2, y / 2) + (if x % 2 == 1 && y % 2 == 1 then 1 else 0)
  }

  // x | y
  function Or(x: nat, y: nat): nat {
    if x == 0 then y else if y == 0 then x
    else 2 * Or(x / 2, y / 2) + (if x % 2 == 1 || y % 2 == 1 then 1 else 0)
  }

  // x ^ y
  function Xor(x: nat, y: nat): nat {
    if x == 0 then y else if y == 0 then x
    else 2 * Xor(x / 2, y / 2) + (if x % 2 == y % 2 then 0 else 1)
  }

  // x >> k
  function Shr(x: nat, k: nat): nat {
    if k == 0 then x else Shr(x / 2, k - 1)
  }

  // x << k, without a width
  function Shl(x: nat, k: nat): nat {
    if k == 0 then x else 2 * Shl(x, k - 1)
  }

  // The k lowest bits of x.
  function Low(x: nat, k: nat): nat {
    if k == 0 then 0 else 2 * Low(x / 2, k - 1) + x % 2
  }

  lemma {:induction false} Pow2Monotone(a: nat, b: nat)
    requires a < b
    ensures 2 * Pow2(a) <= Pow2(b)
  {
    if a + 1 < b {
      Pow2Monotone(a, b - 1);
    }
  }

  lemma {:induction false} ShlIsMul(x: nat, k: nat)
    ensures Shl(x, k) == x * Pow2(k)
  {
    if k > 0 {
      ShlIsMul(x, k - 1);
      assert 2 * (x * Pow2(k - 1)) == x * (2 * Pow2(k - 1));
    }
  }

  lemma {:induction false} Split(x: nat, k: nat)
    ensures x == Shl(Shr(x, k), k) + Low(x, k)
    ensures Low(x, k) < Pow2(k)
  {
    if k > 0 {
      Split(x / 2, k - 1);
    }
  }

  lemma DivModUnique(x: nat, m: nat, q: nat, r: nat)
    requires m > 0 && x == q * m + r && r < m
    ensures x / m == q && x % m == r
  {
    var q' := x / m;
    assert x == q' * m + x % m;
    if q < q' {
      MulStep(q, q', m);
    } else if q' < q {
      MulStep(q', q, m);
    }
  }

  lemma {:induction false} MulStep(a: nat, b: nat, m: nat)
    requires a < b
    ensures a * m + m <= b * m
  {
    assert b * m == (b - 1) * m + m;
    if a + 1 < b {
      MulStep(a, b - 1, m);
    }
  }

  // Shifting is division and the low bits are the remainder.
  lemma ShrLowAreDivMod(x: nat, k: nat)
    ensures Shr(x, k) == x / Pow2(k) && Low(x, k) == x % Pow2(k)
  {
    Split(x, k);
    ShlIsMul(Shr(x, k), k);
    DivModUnique(x, Pow2(k), Shr(x, k), Low(x, k));
  }

  lemma {:induction false} AndIsLow(x: nat, k: nat)
    ensures And(x, Pow2(k) - 1) == Low(x, k)
  {
    if k > 0 {
      AndIsLow(x / 2, k - 1);
      assert (Pow2(k) - 1) / 2 == Pow2(k - 1) - 1;
      if x == 0 {
        LowZero(k);
      }
    }
  }

  lemma {:induction false} LowZero(k: nat)
    ensures Low(0, k) == 0 && Shr(0, k) == 0
  {
    if k > 0 {
      LowZero(k - 1);
    }
  }

  // Masking with 2^k - 1 is the remainder modulo 2^k.
  lemma AndLowMask(x: nat, k: nat)
    ensures And(x, Pow2(k) - 1) == x % Pow2(k)
  {
    AndIsLow(x, k);
    ShrLowAreDivMod(x, k);
  }

  // Masking with m << k looks only at the bits from k on.
  lemma {:induction false} AndHighMask(x: nat, m: nat, k: nat)
    ensures And(x, Shl(m, k)) == Shl(And(Shr(x, k), m), k)
  {
    if k > 0 {
      AndHighMask(x / 2, m, k - 1);
      if x == 0 || Shl(m, k) == 0 {
        LowZero(k);
        ShlZero(m, k);
      }
    }
  }

  lemma {:induction false} ShlZero(m: nat, k: nat)
    ensures Shl(m, k) == 0 <==> m == 0
  {
    if k > 0 {
      ShlZero(m, k - 1);
    }
  }

  lemma {:induction false} LowSmall(x: nat, k: nat)
    requires x < Pow2(k)
    ensures Low(x, k) == x
  {
    if k > 0 {
      LowSmall(x / 2, k - 1);
    }
  }

  // Masking with j ones above k zeros clears the k low bits of a number of at most k + j bits.
  lemma MaskField(x: nat, k: nat, j: nat)
    requires x / Pow2(k) < Pow2(j)
    ensures And(x, Shl(Pow2(j) - 1, k)) == x / Pow2(k) * Pow2(k)
  {
    var q := Shr(x, k);
    ShrLowAreDivMod(x, k);
    LowSmall(q, j);
    AndIsLow(q, j);
    AndHighMask(x, Pow2(j) - 1, k);
    ShlIsMul(q, k);
  }

  // The operations stay within the width of their operands.
  lemma {:induction false} Width(x: nat, y: nat, k: nat)
    requires x < Pow2(k) && y < Pow2(k)
    ensures Or(x, y) < Pow2(k) && Xor(x, y) < Pow2(k)
  {
    if k > 0 {
      Width(x / 2, y / 2, k - 1);
    }
  }

  lemma {:induction false} XorTwice(x: nat, y: nat)
    ensures Xor(Xor(x, y), y) == x
  {
    if x == 0 {
      XorSelf(y);
    } else if y > 0 {
      XorTwice(x / 2, y / 2);
      var h := Xor(x / 2, y / 2);
      assert Xor(x, y) / 2 == h;
      if Xor(x, y) == 0 {
        assert Xor(h, y / 2) == x / 2 && h == 0;
      }
    }
  }

  lemma {:induction false} XorSelf(x: nat)
    ensures Xor(x, x) == 0
  {
    if x > 0 {
      XorSelf(x / 2);
    }
  }
}
