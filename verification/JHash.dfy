/** Jenkins' hash of an array of 32-bit words: its mixing steps lose nothing. */
module JHash {
  import Bits

  type Word = x: int | 0 <= x < 0x1_0000_0000

  datatype Abc = Abc(a: Word, b: Word, c: Word)

  const JHASH_INITVAL: Word := 0xDEADBEEF

  // uint32_t arithmetic wraps around.
  function Add(x: Word, y: Word): Word {
    (x + y) % 0x1_0000_0000
  }

  function Sub(x: Word, y: Word): Word {
    (x - y) % 0x1_0000_0000
  }

  function Xor(x: Word, y: Word): Word {
    WordWidth(x, y);
    Bits.Xor(x, y)
  }

  // Rotation to the left.
  function Rot(x: Word, k: nat): Word
    requires 0 < k < 32
  {
    var high, low := Bits.Shl(x, k) % 0x1_0000_0000, Bits.Shr(x, 32 - k);
    Bits.ShrLowAreDivMod(x, 32 - k);
    ShiftFits(x, 32 - k);
    WordWidth(high, low);
    Bits.Or(high, low)
  }

  lemma ShiftFits(x: Word, k: nat)
    ensures x / Bits.Pow2(k) <= x
  {
  }

  lemma WordWidth(x: Word, y: Word)
    ensures Bits.Or(x, y) < 0x1_0000_0000 && Bits.Xor(x, y) < 0x1_0000_0000
  {
    Pow2Of32();
    Bits.Width(x, y, 32);
  }

  lemma Pow2Of32()
    ensures Bits.Pow2(32) == 0x1_0000_0000
  {
    assert Bits.Pow2(8) == 0x100;
    assert Bits.Pow2(16) == 0x1_0000;
    assert Bits.Pow2(24) == 0x100_0000;
  }

  // ---- JHASH_MIX -----------------------------------------------------------------------------

  // One line of the macro: x -= z; x ^= rot(z, r); z += y.
  function MixX(x: Word, z: Word, r: nat): Word
    requires 0 < r < 32
  {
    Xor(Sub(x, z), Rot(z, r))
  }

  function Line1(t: Abc, r: nat): Abc
    requires 0 < r < 32
  {
    Abc(MixX(t.a, t.c, r), t.b, Add(t.c, t.b))
  }

  function Line2(t: Abc, r: nat): Abc
    requires 0 < r < 32
  {
    Abc(Add(t.a, t.c), MixX(t.b, t.a, r), t.c)
  }

  function Line3(t: Abc, r: nat): Abc
    requires 0 < r < 32
  {
    Abc(t.a, Add(t.b, t.a), MixX(t.c, t.b, r))
  }

  function Mix(t: Abc): Abc {
    Line3(Line2(Line1(Line3(Line2(Line1(t, 4), 6), 8), 16), 19), 4)
  }

  // The lines undone: z -= y; x ^= rot(z, r); x += z.
  function UnmixX(x: Word, z: Word, r: nat): Word
    requires 0 < r < 32
  {
    Add(Xor(x, Rot(z, r)), z)
  }

  function Unline1(t: Abc, r: nat): Abc
    requires 0 < r < 32
  {
    Abc(UnmixX(t.a, Sub(t.c, t.b), r), t.b, Sub(t.c, t.b))
  }

  function Unline2(t: Abc, r: nat): Abc
    requires 0 < r < 32
  {
    Abc(Sub(t.a, t.c), UnmixX(t.b, Sub(t.a, t.c), r), t.c)
  }

  function Unline3(t: Abc, r: nat): Abc
    requires 0 < r < 32
  {
    Abc(t.a, Sub(t.b, t.a), UnmixX(t.c, Sub(t.b, t.a), r))
  }

  function Unmix(t: Abc): Abc {
    Unline1(Unline2(Unline3(Unline1(Unline2(Unline3(t, 4), 19), 16), 8), 6), 4)
  }

  // ---- JHASH_FINAL ---------------------------------------------------------------------------

  // One line of the macro: x ^= y; x -= rot(y, r).
  function FinalX(x: Word, y: Word, r: nat): Word
    requires 0 < r < 32
  {
    Sub(Xor(x, y), Rot(y, r))
  }

  function UnfinalX(x: Word, y: Word, r: nat): Word
    requires 0 < r < 32
  {
    Xor(Add(x, Rot(y, r)), y)
  }

  function Final(t: Abc): Abc {
    var c1 := FinalX(t.c, t.b, 14);
    var a1 := FinalX(t.a, c1, 11);
    var b1 := FinalX(t.b, a1, 25);
    var c2 := FinalX(c1, b1, 16);
    var a2 := FinalX(a1, c2, 4);
    var b2 := FinalX(b1, a2, 14);
    Abc(a2, b2, FinalX(c2, b2, 24))
  }

  function Unfinal(t: Abc): Abc {
    var c2 := UnfinalX(t.c, t.b, 24);
    var b1 := UnfinalX(t.b, t.a, 14);
    var a1 := UnfinalX(t.a, c2, 4);
    var c1 := UnfinalX(c2, b1, 16);
    var b0 := UnfinalX(b1, a1, 25);
    var a0 := UnfinalX(a1, c1, 11);
    Abc(a0, b0, UnfinalX(c1, b0, 14))
  }

  // ---- Nothing is lost -------------------------------------------------------------------------

  lemma AddSub(x: Word, y: Word)
    ensures Add(Sub(x, y), y) == x && Sub(Add(x, y), y) == x
  {
  }

  lemma MixXInverse(x: Word, z: Word, r: nat)
    requires 0 < r < 32
    ensures UnmixX(MixX(x, z, r), z, r) == x && MixX(UnmixX(x, z, r), z, r) == x
  {
    Bits.XorTwice(Sub(x, z), Rot(z, r));
    Bits.XorTwice(x, Rot(z, r));
    AddSub(x, z);
    AddSub(Xor(x, Rot(z, r)), z);
  }

  lemma FinalXInverse(x: Word, y: Word, r: nat)
    requires 0 < r < 32
    ensures UnfinalX(FinalX(x, y, r), y, r) == x && FinalX(UnfinalX(x, y, r), y, r) == x
  {
    AddSub(Xor(x, y), Rot(y, r));
    AddSub(x, Rot(y, r));
    Bits.XorTwice(x, y);
    Bits.XorTwice(Add(x, Rot(y, r)), y);
  }

  lemma LinesInverse(t: Abc, r: nat)
    requires 0 < r < 32
    ensures Unline1(Line1(t, r), r) == t && Line1(Unline1(t, r), r) == t
    ensures Unline2(Line2(t, r), r) == t && Line2(Unline2(t, r), r) == t
    ensures Unline3(Line3(t, r), r) == t && Line3(Unline3(t, r), r) == t
  {
    hide MixX, UnmixX;
    MixXInverse(t.a, t.c, r);
    MixXInverse(t.b, t.a, r);
    MixXInverse(t.c, t.b, r);
    MixXInverse(t.a, Sub(t.c, t.b), r);
    MixXInverse(t.b, Sub(t.a, t.c), r);
    MixXInverse(t.c, Sub(t.b, t.a), r);
    AddSub(t.c, t.b);
    AddSub(t.a, t.c);
    AddSub(t.b, t.a);
  }

  // JHASH_MIX is a bijection on triples of words, with Unmix as its inverse.
  lemma MixBijective(t: Abc)
    ensures Unmix(Mix(t)) == t && Mix(Unmix(t)) == t
  {
    hide Line1, Line2, Line3, Unline1, Unline2, Unline3;
    var m1 := Line1(t, 4);
    var m2 := Line2(m1, 6);
    var m3 := Line3(m2, 8);
    var m4 := Line1(m3, 16);
    var m5 := Line2(m4, 19);
    LinesInverse(t, 4);
    LinesInverse(m1, 6);
    LinesInverse(m2, 8);
    LinesInverse(m3, 16);
    LinesInverse(m4, 19);
    LinesInverse(m5, 4);
    var u1 := Unline3(t, 4);
    var u2 := Unline2(u1, 19);
    var u3 := Unline1(u2, 16);
    var u4 := Unline3(u3, 8);
    var u5 := Unline2(u4, 6);
    LinesInverse(u1, 19);
    LinesInverse(u2, 16);
    LinesInverse(u3, 8);
    LinesInverse(u4, 6);
    LinesInverse(u5, 4);
  }

  // JHASH_FINAL is a bijection too, with Unfinal as its inverse.
  lemma FinalBijective(t: Abc)
    ensures Unfinal(Final(t)) == t && Final(Unfinal(t)) == t
  {
    FinalUndone(t);
    UnfinalUndone(t);
  }

  lemma FinalUndone(t: Abc)
    ensures Unfinal(Final(t)) == t
  {
    hide FinalX, UnfinalX;
    var c1 := FinalX(t.c, t.b, 14);
    var a1 := FinalX(t.a, c1, 11);
    var b1 := FinalX(t.b, a1, 25);
    var c2 := FinalX(c1, b1, 16);
    var a2 := FinalX(a1, c2, 4);
    var b2 := FinalX(b1, a2, 14);
    FinalXInverse(t.c, t.b, 14);
    FinalXInverse(t.a, c1, 11);
    FinalXInverse(t.b, a1, 25);
    FinalXInverse(c1, b1, 16);
    FinalXInverse(a1, c2, 4);
    FinalXInverse(b1, a2, 14);
    FinalXInverse(c2, b2, 24);
  }

  lemma UnfinalUndone(t: Abc)
    ensures Final(Unfinal(t)) == t
  {
    hide FinalX, UnfinalX;
    var c2 := UnfinalX(t.c, t.b, 24);
    var b1 := UnfinalX(t.b, t.a, 14);
    var a1 := UnfinalX(t.a, c2, 4);
    var c1 := UnfinalX(c2, b1, 16);
    var b0 := UnfinalX(b1, a1, 25);
    var a0 := UnfinalX(a1, c1, 11);
    FinalXInverse(t.c, t.b, 24);
    FinalXInverse(t.b, t.a, 14);
    FinalXInverse(t.a, c2, 4);
    FinalXInverse(c2, b1, 16);
    FinalXInverse(b1, a1, 25);
    FinalXInverse(a1, c1, 11);
    FinalXInverse(c1, b0, 14);
  }

  // ---- jhash32 ---------------------------------------------------------------------------------

  // The first n words of the key added to the state; the code only adds up to three.
  function AddWords(t: Abc, k: seq<Word>): Abc {
    Abc(if |k| > 0 then Add(t.a, k[0]) else t.a,
        if |k| > 1 then Add(t.b, k[1]) else t.b,
        if |k| > 2 then Add(t.c, k[2]) else t.c)
  }

  // The state after the whole key.
  function Absorb(t: Abc, k: seq<Word>): Abc
    decreases |k|
  {
    if |k| > 3 then Absorb(Mix(AddWords(t, k[..3])), k[3..])
    else if |k| > 0 then Final(AddWords(t, k))
    else t
  }

  function InitialState(length: nat, initval: Word): Abc {
    var v := Add(Add(JHASH_INITVAL, length * 4 % 0x1_0000_0000), initval);
    Abc(v, v, v)
  }

  function Internal(k: seq<Word>, initval: Word): Abc {
    Absorb(InitialState(|k|, initval), k)
  }

  method Jhash32(key: seq<Word>, initval: Word) returns (hash: Word)
    requires |key| < 0x1_0000_0000
    ensures hash == Internal(key, initval).c
  {
    var length := |key|;
    var k := 0;
    var v := Add(Add(JHASH_INITVAL, length * 4 % 0x1_0000_0000), initval);
    var a, b, c := v, v, v;
    while length > 3
      invariant length == |key| - k >= 0
      invariant Absorb(Abc(a, b, c), key[k..]) == Internal(key, initval)
    {
      assert AddWords(Abc(a, b, c), key[k..][..3]) == Abc(Add(a, key[k]), Add(b, key[k + 1]), Add(c, key[k + 2]));
      assert key[k..][3..] == key[k + 3..];
      a, b, c := Add(a, key[k]), Add(b, key[k + 1]), Add(c, key[k + 2]);
      a, b, c := JhashMix(a, b, c);
      length := length - 3;
      k := k + 3;
    }
    ghost var before := Abc(a, b, c);
    if length == 3 {
      c := Add(c, key[k + 2]);
    }
    if length >= 2 {
      b := Add(b, key[k + 1]);
    }
    if length >= 1 {
      a := Add(a, key[k]);
      assert Abc(a, b, c) == AddWords(before, key[k..]);
      a, b, c := JhashFinal(a, b, c);
    }
    hash := c;
  }

  method JhashMix(a0: Word, b0: Word, c0: Word) returns (a: Word, b: Word, c: Word)
    ensures Abc(a, b, c) == Mix(Abc(a0, b0, c0))
  {
    hide Rot, Add, Sub, Xor;
    a, b, c := a0, b0, c0;
    a := Sub(a, c);  a := Xor(a, Rot(c, 4));   c := Add(c, b);
    b := Sub(b, a);  b := Xor(b, Rot(a, 6));   a := Add(a, c);
    c := Sub(c, b);  c := Xor(c, Rot(b, 8));   b := Add(b, a);
    a := Sub(a, c);  a := Xor(a, Rot(c, 16));  c := Add(c, b);
    b := Sub(b, a);  b := Xor(b, Rot(a, 19));  a := Add(a, c);
    c := Sub(c, b);  c := Xor(c, Rot(b, 4));   b := Add(b, a);
  }

  method JhashFinal(a0: Word, b0: Word, c0: Word) returns (a: Word, b: Word, c: Word)
    ensures Abc(a, b, c) == Final(Abc(a0, b0, c0))
  {
    hide Rot, Add, Sub, Xor;
    a, b, c := a0, b0, c0;
    c := Xor(c, b);  c := Sub(c, Rot(b, 14));
    a := Xor(a, c);  a := Sub(a, Rot(c, 11));
    b := Xor(b, a);  b := Sub(b, Rot(a, 25));
    c := Xor(c, b);  c := Sub(c, Rot(b, 16));
    a := Xor(a, c);  a := Sub(a, Rot(c, 4));
    b := Xor(b, a);  b := Sub(b, Rot(a, 14));
    c := Xor(c, b);  c := Sub(c, Rot(b, 24));
  }

  // Different states stay different, whatever the rest of the key is.
  lemma {:induction false} AbsorbInjective(t: Abc, u: Abc, k: seq<Word>)
    requires t != u
    ensures Absorb(t, k) != Absorb(u, k)
    decreases |k|
  {
    hide Mix, Unmix, Final, Unfinal;
    var block := if |k| > 3 then k[..3] else k;
    AddWordsInjective(t, u, block);
    MixBijective(AddWords(t, block));
    MixBijective(AddWords(u, block));
    FinalBijective(AddWords(t, block));
    FinalBijective(AddWords(u, block));
    if |k| > 3 {
      AbsorbInjective(Mix(AddWords(t, block)), Mix(AddWords(u, block)), k[3..]);
    }
  }

  lemma AddWordsInjective(t: Abc, u: Abc, k: seq<Word>)
    requires t != u
    ensures AddWords(t, k) != AddWords(u, k)
  {
    if |k| > 0 {
      AddSub(t.a, k[0]);
      AddSub(u.a, k[0]);
    }
    if |k| > 1 {
      AddSub(t.b, k[1]);
      AddSub(u.b, k[1]);
    }
    if |k| > 2 {
      AddSub(t.c, k[2]);
      AddSub(u.c, k[2]);
    }
  }

  lemma AddDifferentWords(t: Abc, k: seq<Word>, l: seq<Word>)
    requires |k| == |l| <= 3 && k != l
    ensures AddWords(t, k) != AddWords(t, l)
  {
    var i :| 0 <= i < |k| && k[i] != l[i];
    if i == 0 {
      assert Add(t.a, k[0]) != Add(t.a, l[0]);
    } else if i == 1 {
      assert Add(t.b, k[1]) != Add(t.b, l[1]);
    } else {
      assert Add(t.c, k[2]) != Add(t.c, l[2]);
    }
    hide Add;
  }

  // The keys agree outside the three words of block j.
  predicate DifferOnlyInBlock(k: seq<Word>, l: seq<Word>, j: nat) {
    |k| == |l| && k != l && forall i | 0 <= i < |k| && !(3 * j <= i < 3 * j + 3) :: k[i] == l[i]
  }

  // Two keys of the same length that differ in one block never reach the same internal state.
  lemma {:induction false} OneBlockNeverCollides(t: Abc, k: seq<Word>, l: seq<Word>, j: nat)
    requires DifferOnlyInBlock(k, l, j)
    ensures Absorb(t, k) != Absorb(t, l)
    decreases |k|
  {
    hide Mix, Unmix, Final, Unfinal, AddWords;
    if |k| > 3 {
      var k1, l1 := AddWords(t, k[..3]), AddWords(t, l[..3]);
      if j == 0 {
        assert k[3..] == l[3..];
        assert k == k[..3] + k[3..] && l == l[..3] + l[3..];
        AddDifferentWords(t, k[..3], l[..3]);
        MixBijective(k1);
        MixBijective(l1);
        AbsorbInjective(Mix(k1), Mix(l1), k[3..]);
      } else {
        assert k[..3] == l[..3];
        assert k == k[..3] + k[3..] && l == l[..3] + l[3..];
        OneBlockNeverCollides(Mix(k1), k[3..], l[3..], j - 1);
      }
    } else {
      AddDifferentWords(t, k, l);
      FinalBijective(AddWords(t, k));
      FinalBijective(AddWords(t, l));
    }
  }

  lemma KeysInOneBlock(k: seq<Word>, l: seq<Word>, j: nat, initval: Word)
    requires DifferOnlyInBlock(k, l, j)
    ensures Internal(k, initval) != Internal(l, initval)
  {
    OneBlockNeverCollides(InitialState(|k|, initval), k, l, j);
  }
}
