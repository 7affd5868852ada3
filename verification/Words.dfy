/** Unsigned 64-bit words as integers, with the wrap-around of C written out.
    Exclusive-or and right shift are defined bit by bit, so every law about
    them is an ordinary induction. */
module Words {

  const MODULUS: int := 0x1_0000_0000_0000_0000
  const SIZE_MAX: int := MODULUS - 1

  type Word = x: int | 0 <= x < MODULUS

  function Wrap(x: int): Word {
    x % MODULUS
  }

  function Pow2(n: nat): (p: nat)
    ensures p >= 1
  {
    if n == 0 then 1 else 2 * Pow2(n - 1)
  }

  function Xor(a: nat, b: nat): nat {
    if a == 0 && b == 0 then 0 else 2 * Xor(a / 2, b / 2) + (a + b) % 2
  }

  function Shr(a: nat, k: nat): nat {
    if k == 0 then a else Shr(a / 2, k - 1)
  }

  // ---------- arithmetic modulo 2^64 ----------

  lemma WrapUnique(x: int, r: int, k: int)
    requires 0 <= r < MODULUS && x == r + MODULUS * k
    ensures Wrap(x) == r
  {
  }

  lemma WrapSplit(x: int) returns (k: int)
    ensures x == Wrap(x) + MODULUS * k
  {
    k := x / MODULUS;
  }

  /** Multiplying by an odd constant loses nothing: its inverse undoes it. */
  lemma MulInverse(z: Word, c: int, inverse: int)
    requires (c * inverse) % MODULUS == 1
    ensures Wrap(Wrap(z * c) * inverse) == z
  {
    var k := WrapSplit(z * c);
    var t := (c * inverse) / MODULUS;
    assert c * inverse == 1 + MODULUS * t;
    calc {
      Wrap(z * c) * inverse;
      (z * c - MODULUS * k) * inverse;
      z * (c * inverse) - MODULUS * (k * inverse);
      z * (1 + MODULUS * t) - MODULUS * (k * inverse);
      z + MODULUS * (z * t - k * inverse);
    }
    WrapUnique(Wrap(z * c) * inverse, z, z * t - k * inverse);
  }

  lemma WrapAdd(a: int, b: int)
    ensures Wrap(Wrap(a) + b) == Wrap(a + b)
  {
    var k := WrapSplit(a);
    var j := WrapSplit(a + b);
    WrapUnique(Wrap(a) + b, Wrap(a + b), j - k);
  }

  // ---------- bits ----------

  lemma {:induction false} XorComm(a: nat, b: nat)
    ensures Xor(a, b) == Xor(b, a)
  {
    if a != 0 || b != 0 {
      XorComm(a / 2, b / 2);
    }
  }

  lemma {:induction false} XorZero(a: nat)
    ensures Xor(a, 0) == a && Xor(0, a) == a
  {
    if a != 0 {
      XorZero(a / 2);
    }
  }

  lemma {:induction false} XorSelf(a: nat)
    ensures Xor(a, a) == 0
  {
    if a != 0 {
      XorSelf(a / 2);
    }
  }

  lemma {:induction false} XorAssoc(a: nat, b: nat, c: nat)
    ensures Xor(Xor(a, b), c) == Xor(a, Xor(b, c))
    decreases a + b + c
  {
    if a == 0 {
      XorZero(b);
      XorZero(Xor(b, c));
    } else if b == 0 {
      XorZero(a);
      XorZero(c);
    } else if c == 0 {
      XorZero(Xor(a, b));
      XorZero(b);
    } else {
      XorAssoc(a / 2, b / 2, c / 2);
      XorNestHalves(a, b, c);
      XorNestHalves(b, c, a);
      XorNestParity(a, b, c);
      XorNestParity(b, c, a);
      XorComm(Xor(b, c), a);
      XorComm(Xor(b / 2, c / 2), a / 2);
      HalvesAgree(Xor(Xor(a, b), c), Xor(a, Xor(b, c)));
    }
  }

  lemma XorNestHalves(a: nat, b: nat, c: nat)
    ensures Xor(Xor(a, b), c) / 2 == Xor(Xor(a / 2, b / 2), c / 2)
  {
    XorHalf(a, b);
    XorHalf(Xor(a, b), c);
  }

  lemma XorNestParity(a: nat, b: nat, c: nat)
    ensures Xor(Xor(a, b), c) % 2 == (a + b + c) % 2
  {
    XorParity(a, b);
    XorParity(Xor(a, b), c);
    ParityShift(Xor(a, b), a + b, c);
  }

  lemma ParityShift(x: nat, y: nat, z: nat)
    requires x % 2 == y % 2
    ensures (x + z) % 2 == (y + z) % 2
  {
  }

  lemma HalvesAgree(x: nat, y: nat)
    requires x / 2 == y / 2 && x % 2 == y % 2
    ensures x == y
  {
  }

  lemma XorHalf(a: nat, b: nat)
    ensures Xor(a, b) / 2 == Xor(a / 2, b / 2)
  {
  }

  lemma XorParity(a: nat, b: nat)
    ensures Xor(a, b) % 2 == (a + b) % 2
  {
  }

  /** One unfolding, also where both words are zero. */
  lemma XorStep(a: nat, b: nat)
    ensures Xor(a, b) == 2 * Xor(a / 2, b / 2) + (a + b) % 2
    ensures Xor(a, b) / 2 == Xor(a / 2, b / 2)
    ensures Xor(a, b) % 2 == (a + b) % 2
  {
  }

  lemma {:induction false} ShrXor(a: nat, b: nat, k: nat)
    ensures Shr(Xor(a, b), k) == Xor(Shr(a, k), Shr(b, k))
  {
    if k > 0 {
      XorStep(a, b);
      ShrXor(a / 2, b / 2, k - 1);
    }
  }

  lemma {:induction false} ShrShr(a: nat, j: nat, k: nat)
    ensures Shr(Shr(a, j), k) == Shr(a, j + k)
  {
    if j > 0 {
      ShrShr(a / 2, j - 1, k);
    }
  }

  lemma {:induction false} ShrVanishes(a: nat, k: nat)
    requires a < Pow2(k)
    ensures Shr(a, k) == 0
  {
    if k > 0 {
      ShrVanishes(a / 2, k - 1);
    }
  }

  lemma {:induction false} ShrShrinks(a: nat, k: nat)
    ensures Shr(a, k) <= a
  {
    if k > 0 {
      ShrShrinks(a / 2, k - 1);
    }
  }

  lemma {:induction false} XorBound(a: nat, b: nat, n: nat)
    requires a < Pow2(n) && b < Pow2(n)
    ensures Xor(a, b) < Pow2(n)
  {
    if n > 0 {
      XorStep(a, b);
      XorBound(a / 2, b / 2, n - 1);
    }
  }

  lemma ModulusIsPow2()
    ensures Pow2(64) == MODULUS
  {
    Pow2Is16();
    Pow2Add(16, 16);
    Pow2Add(32, 32);
  }

  lemma Pow2Is16()
    ensures Pow2(16) == 0x1_0000
  {
    assert Pow2(4) == 16;
    Pow2Add(4, 4);
    Pow2Add(8, 8);
  }

  lemma {:induction false} Pow2Add(j: nat, k: nat)
    ensures Pow2(j + k) == Pow2(j) * Pow2(k)
  {
    if j > 0 {
      Pow2Add(j - 1, k);
      assert Pow2(j + k) == 2 * (Pow2(j - 1) * Pow2(k));
      assert 2 * (Pow2(j - 1) * Pow2(k)) == (2 * Pow2(j - 1)) * Pow2(k);
    }
  }

  function XorWord(a: Word, b: Word): Word {
    ModulusIsPow2();
    XorBound(a, b, 64);
    Xor(a, b)
  }

  function ShrWord(a: Word, k: nat): Word {
    ShrShrinks(a, k);
    Shr(a, k)
  }

  /** value ^ (value >> k) */
  function XorShift(z: Word, k: nat): Word {
    XorWord(z, ShrWord(z, k))
  }

  /** Undoes XorShift when 3 * k covers the word. */
  function UnXorShift(z: Word, k: nat): Word {
    XorWord(XorWord(z, ShrWord(z, k)), ShrWord(z, 2 * k))
  }

  /** value ^ (value >> k) is a bijection: both compositions telescope, and what
      is left over has been shifted out of the word. */
  lemma XorShiftInverse(z: Word, k: nat)
    requires 3 * k >= 64
    ensures UnXorShift(XorShift(z, k), k) == z
    ensures XorShift(UnXorShift(z, k), k) == z
  {
    var s1, s2 := Shr(z, k), Shr(z, 2 * k);
    assert Shr(z, 3 * k) == 0 by {
      ModulusIsPow2();
      ShrVanishes(z, 64);
      ShrShr(z, 64, 3 * k - 64);
      ShrVanishes(0, 3 * k - 64);
    }
    ShrShr(z, k, k);
    ShrShr(z, k, 2 * k);
    ShrShr(z, 2 * k, k);
    var x := Xor(z, s1);
    ShrXor(z, s1, k);
    ShrXor(z, s1, 2 * k);
    assert UnXorShift(XorShift(z, k), k) == Xor(Xor(x, Xor(s1, s2)), Xor(s2, 0));
    Telescope(z, s1, s2);
    var y := Xor(Xor(z, s1), s2);
    ShrXor(Xor(z, s1), s2, k);
    assert Shr(y, k) == Xor(Xor(s1, s2), 0);
    assert XorShift(UnXorShift(z, k), k) == Xor(y, Xor(Xor(s1, s2), 0));
  }

  lemma Telescope(z: nat, s1: nat, s2: nat)
    ensures Xor(Xor(Xor(z, s1), Xor(s1, s2)), Xor(s2, 0)) == z
    ensures Xor(Xor(Xor(z, s1), s2), Xor(Xor(s1, s2), 0)) == z
  {
    XorZero(s2);
    XorZero(Xor(s1, s2));
    XorAssoc(z, s1, Xor(s1, s2));
    XorAssoc(s1, s1, s2);
    XorSelf(s1);
    assert Xor(Xor(z, s1), Xor(s1, s2)) == Xor(z, s2);
    XorAssoc(z, s2, s2);
    XorSelf(s2);
    XorZero(z);
    XorAssoc(z, s1, s2);
    XorAssoc(z, Xor(s1, s2), Xor(s1, s2));
    XorSelf(Xor(s1, s2));
  }
}
