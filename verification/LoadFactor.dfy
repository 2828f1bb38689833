/**
 The arithmetic of the hash table's size: how many buckets a rehash asks for, when it happens and
 what it costs.  The source compares floats; here the thresholds are the exact fractions
 3/4 and 1/10, and the rehash factor 2 / (1/10 + 3/4) is 40/17.
 */
module LoadFactor {
  import opened Bits

  const SIZE_MAX_PLUS_1: nat := 0x1_0000_0000_0000_0000
  const HASHTABLE_MIN_SIZE: nat := 16

  // An entry takes at least 32 bytes of a 64-bit address space.
  const MAX_ENTRIES: nat := 0x0800_0000_0000_0000

  // ---- next_power2 -------------------------------------------------------------------------------

  function Smear(s: nat, k: nat): nat {
    Or(s, Shr(s, k))
  }

  // On 64-bit size_t: s-- and s++ wrap around.
  function NextPower2(s: nat): nat
    requires s < SIZE_MAX_PLUS_1
  {
    var s0 := (s + SIZE_MAX_PLUS_1 - 1) % SIZE_MAX_PLUS_1;
    var s6 := Smear(Smear(Smear(Smear(Smear(Smear(s0, 1), 2), 4), 8), 16), 32);
    (s6 + 1) % SIZE_MAX_PLUS_1
  }

  ghost predicate IsPow2(b: nat) {
    exists k: nat :: Pow2(k) == b
  }

  lemma {:induction false} ShrOr(x: nat, y: nat, k: nat)
    ensures Shr(Or(x, y), k) == Or(Shr(x, k), Shr(y, k))
  {
    if k > 0 {
      assert Or(x, y) / 2 == Or(x / 2, y / 2);
      ShrOr(x / 2, y / 2, k - 1);
    }
  }

  lemma {:induction false} ShrShr(x: nat, a: nat, b: nat)
    ensures Shr(Shr(x, a), b) == Shr(x, a + b)
  {
    if a > 0 {
      ShrShr(x / 2, a - 1, b);
    }
  }

  // Or-ing k ones into the k low bits.
  lemma {:induction false} OrOnes(x: nat, k: nat)
    ensures Or(x, Pow2(k) - 1) == Shl(Shr(x, k), k) + Pow2(k) - 1
  {
    if k > 0 {
      OrOnes(x / 2, k - 1);
      assert (Pow2(k) - 1) / 2 == Pow2(k - 1) - 1;
      if x == 0 {
        LowZero(k);
        ShlZero(0, k);
      }
    }
  }

  lemma {:induction false} OnesAppend(a: nat, b: nat)
    ensures Shl(Pow2(a) - 1, b) + Pow2(b) - 1 == Pow2(a + b) - 1
  {
    if b > 0 {
      OnesAppend(a, b - 1);
    }
  }

  lemma {:induction false} ShrOnes(a: nat, b: nat)
    requires b <= a
    ensures Shr(Pow2(a) - 1, b) == Pow2(a - b) - 1
  {
    if b > 0 {
      assert (Pow2(a) - 1) / 2 == Pow2(a - 1) - 1;
      ShrOnes(a - 1, b - 1);
    }
  }

  lemma {:induction false} ShrOnesAway(a: nat, b: nat)
    requires a <= b
    ensures Shr(Pow2(a) - 1, b) == 0
  {
    ShrShr(Pow2(a) - 1, a, b - a);
    ShrOnes(a, a);
    LowZero(b - a);
  }

  // x has n bits, and the f highest of them are ones.
  ghost predicate TopOnes(x: nat, n: nat, f: nat) {
    if f < n then Shr(x, n - f) == Pow2(f) - 1 else x == Pow2(n) - 1
  }

  // Each smearing step doubles the ones at the top.
  lemma SmearDoubles(x: nat, n: nat, f: nat)
    requires f > 0 && TopOnes(x, n, f)
    ensures TopOnes(Smear(x, f), n, 2 * f)
  {
    if f >= n {
      ShrOnesAway(n, f);
    } else {
      var g := n - f;
      if 2 * f < n {
        var m := n - 2 * f;
        ShrOr(x, Shr(x, f), m);
        ShrShr(x, f, m);
        ShrShr(x, m, f);
        OrOnes(Shr(x, m), f);
        OnesAppend(f, f);
      } else {
        ShrShr(x, g, f - g);
        ShrOnes(f, f - g);
        OrOnes(x, g);
        OnesAppend(f, g);
      }
    }
  }

  lemma SmearAll(x: nat, n: nat)
    requires n <= 64 && TopOnes(x, n, 1)
    ensures Smear(Smear(Smear(Smear(Smear(Smear(x, 1), 2), 4), 8), 16), 32) == Pow2(n) - 1
  {
    hide Smear;
    SmearDoubles(x, n, 1);
    var x1 := Smear(x, 1);
    SmearDoubles(x1, n, 2);
    var x2 := Smear(x1, 2);
    SmearDoubles(x2, n, 4);
    var x3 := Smear(x2, 4);
    SmearDoubles(x3, n, 8);
    var x4 := Smear(x3, 8);
    SmearDoubles(x4, n, 16);
    SmearDoubles(Smear(x4, 16), n, 32);
  }

  // The number of bits of x: its highest bit is the first of the ones.
  lemma {:induction false} BitLength(x: nat) returns (n: nat)
    ensures TopOnes(x, n, 1) && x < Pow2(n) && (n > 0 ==> Pow2(n - 1) <= x)
  {
    if x == 0 {
      n := 0;
    } else {
      var m := BitLength(x / 2);
      n := m + 1;
      if m == 0 {
        assert x == 1 && Pow2(1) == 2;
      } else {
        assert Shr(x, m) == Shr(x / 2, m - 1);
        if m == 1 {
          assert Shr(x / 2, 0) == x / 2 == 1;
        }
      }
    }
  }

  lemma Pow2Of64()
    ensures Pow2(59) == MAX_ENTRIES && Pow2(63) == SIZE_MAX_PLUS_1 / 2 && Pow2(64) == SIZE_MAX_PLUS_1
  {
    assert Pow2(8) == 0x100;
    assert Pow2(16) == 0x1_0000;
    assert Pow2(24) == 0x100_0000;
    assert Pow2(32) == 0x1_0000_0000;
    assert Pow2(40) == 0x100_0000_0000;
    assert Pow2(48) == 0x1_0000_0000_0000;
    assert Pow2(56) == 0x100_0000_0000_0000;
    assert Pow2(59) == MAX_ENTRIES;
    assert Pow2(61) == 4 * MAX_ENTRIES;
    assert Pow2(63) == 16 * MAX_ENTRIES;
  }

  lemma {:induction false} Pow2Less(a: nat, b: nat)
    requires Pow2(a) < Pow2(b)
    ensures a < b
  {
    if b <= a {
      if b < a {
        Pow2Monotone(b, a);
      }
    }
  }

  // For 1 <= s <= 2^63 the result is the least power of two that is at least s.
  lemma NextPower2IsLeast(s: nat) returns (k: nat)
    requires 1 <= s <= SIZE_MAX_PLUS_1 / 2
    ensures NextPower2(s) == Pow2(k) && s <= Pow2(k) && forall j: nat :: s <= Pow2(j) ==> k <= j
    ensures NextPower2(s) < 2 * s
  {
    k := BitLength(s - 1);
    SmearedPower(s, k);
    if k > 0 {
      Pow2Doubles(k - 1);
    }
    forall j: nat | s <= Pow2(j)
      ensures k <= j
    {
      if k > 0 {
        Pow2Less(k - 1, j);
      }
    }
  }

  lemma SmearedPower(s: nat, k: nat)
    requires 1 <= s <= SIZE_MAX_PLUS_1 / 2 && TopOnes(s - 1, k, 1) && (k > 0 ==> Pow2(k - 1) < s)
    ensures NextPower2(s) == Pow2(k)
  {
    hide Smear, TopOnes;
    Pow2Of64();
    hide Pow2;
    if k > 0 {
      Pow2Less(k - 1, 63);
    }
    SmearAll(s - 1, k);
    if k < 64 {
      Pow2Monotone(k, 64);
    }
  }

  lemma Pow2Doubles(k: nat)
    ensures Pow2(k + 1) == 2 * Pow2(k)
  {
  }

  // The decrement wraps around, every bit is set already, and the increment wraps back.
  lemma NextPower2OfZero()
    ensures NextPower2(0) == 0
  {
    Pow2Of64();
    ShrOnes(64, 63);
    assert Pow2(1) == 2;
    SmearAll(SIZE_MAX_PLUS_1 - 1, 64);
  }

  // ---- Buckets ------------------------------------------------------------------------------------

  // hash & (size - 1), with size_t wrap-around.
  function GetIndex(hash: nat, size: nat): nat {
    And(hash, (size + SIZE_MAX_PLUS_1 - 1) % SIZE_MAX_PLUS_1)
  }

  // For a power of two masking is the remainder.
  lemma IndexIsModulo(hash: nat, size: nat)
    requires IsPow2(size) && size < SIZE_MAX_PLUS_1
    ensures GetIndex(hash, size) == hash % size < size
  {
    var k: nat :| Pow2(k) == size;
    AndLowMask(hash, k);
    hide And, Pow2, IsPow2;
    assert (size + SIZE_MAX_PLUS_1 - 1) % SIZE_MAX_PLUS_1 == size - 1;
  }

  predicate TooFull(n: nat, b: nat) {
    4 * n > 3 * b
  }

  predicate TooEmpty(n: nat, b: nat) {
    10 * n < b
  }

  // The number of buckets a rehash of n entries asks for.
  function RehashSize(n: nat): nat
    requires n <= MAX_ENTRIES
  {
    NextPower2(40 * n / 17)
  }

  // A rehash of n >= 1 entries lands the load in (17/80, 1/2].
  lemma RehashLoad(n: nat)
    requires 1 <= n <= MAX_ENTRIES
    ensures var p := RehashSize(n); IsPow2(p) && p < SIZE_MAX_PLUS_1 && 2 * n <= p && 17 * p < 80 * n
    ensures !TooFull(n, RehashSize(n)) && !TooEmpty(n, RehashSize(n))
  {
    var k := NextPower2IsLeast(40 * n / 17);
    assert Pow2(k) == RehashSize(n);
  }

  // Of all powers of two it is the least that is at least 40 n / 17, rounded down.
  lemma RehashIsLeast(n: nat) returns (k: nat)
    requires 1 <= n <= MAX_ENTRIES
    ensures RehashSize(n) == Pow2(k) && 40 * n < 17 * (Pow2(k) + 1)
    ensures forall j: nat | 40 * n < 17 * (Pow2(j) + 1) :: k <= j
  {
    hide Pow2, NextPower2;
    k := NextPower2IsLeast(40 * n / 17);
    forall j: nat | 40 * n < 17 * (Pow2(j) + 1)
      ensures k <= j
    {
      assert 40 * n / 17 <= Pow2(j);
    }
  }

  lemma RehashOfNone()
    ensures RehashSize(0) == 0
  {
    NextPower2OfZero();
  }

  // Growing at least doubles the table; from the empty table of no buckets it makes two.
  lemma GrowthDoubles(n: nat, b: nat)
    requires 1 <= n <= MAX_ENTRIES && TooFull(n, b) && (IsPow2(b) || b == 0)
    ensures RehashSize(n) >= 2 * b && RehashSize(n) >= 2
  {
    RehashLoad(n);
    if IsPow2(b) {
      var i: nat, j: nat :| Pow2(i) == b && Pow2(j) == RehashSize(n);
      Pow2Less(i, j);
      Pow2Monotone(i, j);
    }
  }

  lemma SomeBuckets(n: nat, b: nat)
    requires n > 0 && !TooFull(n, b)
    ensures b > 0
  {
  }

  // ---- What rehashing costs -------------------------------------------------------------------------

  // 80 times the number of relinked entries that the operations so far have paid for in advance:
  // three for every set beyond half load, one for every removal below 17/80.
  function Credit(n: nat, b: nat): nat {
    (if 2 * n > b then 240 * n - 120 * b else 0) + (if 80 * n < 17 * b then 17 * b - 80 * n else 0)
  }

  lemma RehashSpendsAll(n: nat)
    requires n <= MAX_ENTRIES
    ensures Credit(n, RehashSize(n)) == 0
  {
    if n == 0 {
      RehashOfNone();
    } else {
      RehashLoad(n);
    }
  }

  // A set that makes the table grow relinks the n - 1 entries that were there before it.
  lemma GrowthIsPaid(n: nat, b: nat)
    requires 1 <= n <= MAX_ENTRIES && TooFull(n, b)
    ensures 80 * (n - 1) + Credit(n, RehashSize(n)) <= Credit(n - 1, b) + 240
  {
    RehashSpendsAll(n);
  }

  // A table that shrinks relinks the n entries that are left; the removals before have paid for all of them.
  lemma ShrinkIsPaid(n: nat, b: nat)
    requires n <= MAX_ENTRIES && TooEmpty(n, b)
    ensures 80 * n + Credit(n, RehashSize(n)) <= Credit(n, b)
  {
    RehashSpendsAll(n);
  }

  lemma OtherSteps(n: nat, b: nat, m: nat)
    requires m <= n
    ensures Credit(n + 1, b) <= Credit(n, b) + 240
    ensures Credit(n - m, b) <= Credit(n, b) + 80 * m
  {
  }
}
