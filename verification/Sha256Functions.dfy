/** What the logical functions of section 4.1.2 of FIPS 180-4 do to each bit, and
    that words are loaded in big-endian order. */
module Sha256Functions {
  import opened Words
  import opened Words32
  import opened Sha256

  /** Bit i of a number, counted from the lowest. */
  ghost predicate Bit(x: nat, i: nat) {
    Shr(x, i) % 2 == 1
  }

  // ---------- operators, bit by bit ----------

  lemma {:induction false} BitwiseBit(table: (bool, bool) -> bool, a: nat, b: nat, n: nat, i: nat)
    requires i < n
    ensures Bit(Bitwise(table, a, b, n), i) == table(Bit(a, i), Bit(b, i))
  {
    var r := Bitwise(table, a, b, n);
    assert r / 2 == Bitwise(table, a / 2, b / 2, n - 1);
    if i > 0 {
      BitwiseBit(table, a / 2, b / 2, n - 1, i - 1);
    }
  }

  lemma AndOrBits(a: Word32, b: Word32, i: nat)
    requires i < 32
    ensures Bit(And(a, b), i) <==> Bit(a, i) && Bit(b, i)
    ensures Bit(Or(a, b), i) <==> Bit(a, i) || Bit(b, i)
  {
    BitwiseBit((x, y) => x && y, a, b, 32, i);
    BitwiseBit((x, y) => x || y, a, b, 32, i);
    hide Bit;
  }

  lemma ExclusiveNotBits(a: Word32, b: Word32, i: nat)
    requires i < 32
    ensures Bit(Exclusive(a, b), i) <==> Bit(a, i) != Bit(b, i)
    ensures Bit(Not(a), i) <==> !Bit(a, i)
  {
    BitwiseBit((x, y) => x != y, a, b, 32, i);
    BitwiseBit((x, y) => !x, a, a, 32, i);
    hide Bit;
  }

  lemma Exclusive3Bits(a: Word32, b: Word32, c: Word32, i: nat)
    requires i < 32
    ensures Bit(Exclusive3(a, b, c), i) <==> (Bit(a, i) != Bit(b, i)) != Bit(c, i)
  {
    ExclusiveNotBits(a, b, i);
    ExclusiveNotBits(Exclusive(a, b), c, i);
    hide Bit, Exclusive;
  }

  lemma RightBit(a: Word32, k: nat, i: nat)
    ensures Bit(Right(a, k), i) == Bit(a, i + k)
  {
    ShrShr(a, k, i);
  }

  lemma NoBitBeyond(a: Word32, i: nat)
    requires i >= 32
    ensures !Bit(a, i)
  {
    Pow2Is32();
    Pow2Add(32, i - 32);
    assert Pow2(i) == 0x1_0000_0000 * Pow2(i - 32);
    ShrVanishes(a, i);
  }

  lemma {:induction false} ShiftedBit(a: nat, k: nat, i: nat)
    ensures Bit(a * Pow2(k), i) <==> i >= k && Bit(a, i - k)
  {
    if k > 0 {
      var half := a * Pow2(k - 1);
      assert a * Pow2(k) == 2 * half;
      if i > 0 {
        ShiftedBit(a, k - 1, i - 1);
        assert (2 * half) / 2 == half;
      }
    }
  }

  lemma {:induction false} LowBit(low: nat, k: nat, n: nat, i: nat)
    requires i < n
    ensures Bit(low + Pow2(n) * k, i) == Bit(low, i)
  {
    var half := Pow2(n - 1) * k;
    assert Pow2(n) * k == 2 * half;
    if i > 0 {
      assert (low + 2 * half) / 2 == low / 2 + half;
      LowBit(low / 2, k, n - 1, i - 1);
    }
  }

  lemma LeftBit(a: Word32, k: nat, i: nat)
    requires i < 32
    ensures Bit(Left(a, k), i) <==> i >= k && Bit(a, i - k)
  {
    Pow2Is32();
    var x := a * Pow2(k);
    LowBit(x % 0x1_0000_0000, x / 0x1_0000_0000, 32, i);
    ShiftedBit(a, k, i);
    hide Bit;
  }

  /** A rotation moves every bit, modulo the width of the word. */
  lemma RotrBit(x: Word32, n: nat, i: nat)
    requires 0 < n < 32 && i < 32
    ensures Bit(Rotr(x, n), i) == Bit(x, (i + n) % 32)
  {
    hide Bit, Right, Left, Or, Rotr;
    AndOrBits(Right(x, n), Left(x, 32 - n), i);
    RightBit(x, n, i);
    LeftBit(x, 32 - n, i);
    RotrIs(x, n);
    Turned(i, n);
    if i + n >= 32 {
      NoBitBeyond(x, i + n);
    }
  }

  lemma RotrIs(x: Word32, n: nat)
    requires 0 < n < 32
    ensures Rotr(x, n) == Or(Right(x, n), Left(x, 32 - n))
  {
    hide Right, Left, Or;
  }

  lemma Turned(i: nat, n: nat)
    requires i < 32 && n < 32
    ensures (i + n) % 32 == if i + n < 32 then i + n else i + n - 32
  {
  }

  // ---------- section 4.1.2 ----------

  /** Ch takes each bit from its second or third argument as the first says. */
  lemma ChChooses(x: Word32, y: Word32, z: Word32, i: nat)
    requires i < 32
    ensures Bit(Ch(x, y, z), i) == if Bit(x, i) then Bit(y, i) else Bit(z, i)
  {
    AndOrBits(x, y, i);
    AndOrBits(Not(x), z, i);
    ExclusiveNotBits(x, x, i);
    ExclusiveNotBits(And(x, y), And(Not(x), z), i);
    hide Bit, And, Not, Exclusive, Or;
  }

  /** Maj takes the bit that at least two of its arguments have. */
  lemma MajIsMajority(x: Word32, y: Word32, z: Word32, i: nat)
    requires i < 32
    ensures Bit(Maj(x, y, z), i)
            <==> (Bit(x, i) && Bit(y, i)) || (Bit(x, i) && Bit(z, i)) || (Bit(y, i) && Bit(z, i))
  {
    AndOrBits(x, y, i);
    AndOrBits(x, z, i);
    AndOrBits(y, z, i);
    Exclusive3Bits(And(x, y), And(x, z), And(y, z), i);
    hide Bit, And, Exclusive3, Or;
  }

  /** Three bits of one word, rotated by the given distances, add up without carry. */
  ghost predicate Parity(x: Word32, i: nat, p: nat, q: nat, r: nat) {
    (Bit(x, (i + p) % 32) != Bit(x, (i + q) % 32)) != Bit(x, (i + r) % 32)
  }

  lemma BigSigmas(x: Word32, i: nat)
    requires i < 32
    ensures Bit(BigSigma0(x), i) <==> Parity(x, i, 2, 13, 22)
    ensures Bit(BigSigma1(x), i) <==> Parity(x, i, 6, 11, 25)
  {
    RotatedParity(x, i, 2, 13, 22);
    RotatedParity(x, i, 6, 11, 25);
    hide Bit, Rotr, Exclusive3;
  }

  lemma RotatedParity(x: Word32, i: nat, p: nat, q: nat, r: nat)
    requires i < 32 && 0 < p < 32 && 0 < q < 32 && 0 < r < 32
    ensures Bit(Exclusive3(Rotr(x, p), Rotr(x, q), Rotr(x, r)), i) <==> Parity(x, i, p, q, r)
  {
    RotrBit(x, p, i);
    RotrBit(x, q, i);
    RotrBit(x, r, i);
    Exclusive3Bits(Rotr(x, p), Rotr(x, q), Rotr(x, r), i);
    hide Bit, Rotr, Exclusive3;
  }

  lemma SmallSigmas(x: Word32, i: nat)
    requires i < 32
    ensures Bit(SmallSigma0(x), i) <==> (Bit(x, (i + 7) % 32) != Bit(x, (i + 18) % 32)) != Bit(x, i + 3)
    ensures Bit(SmallSigma1(x), i) <==> (Bit(x, (i + 17) % 32) != Bit(x, (i + 19) % 32)) != Bit(x, i + 10)
  {
    ShiftedParity(x, i, 7, 18, 3);
    ShiftedParity(x, i, 17, 19, 10);
    hide Bit, Rotr, Exclusive3, Right;
  }

  lemma ShiftedParity(x: Word32, i: nat, p: nat, q: nat, k: nat)
    requires i < 32 && 0 < p < 32 && 0 < q < 32
    ensures Bit(Exclusive3(Rotr(x, p), Rotr(x, q), Right(x, k)), i)
            <==> (Bit(x, (i + p) % 32) != Bit(x, (i + q) % 32)) != Bit(x, i + k)
  {
    RotrBit(x, p, i);
    RotrBit(x, q, i);
    RightBit(x, k, i);
    Exclusive3Bits(Rotr(x, p), Rotr(x, q), Right(x, k), i);
    hide Bit, Rotr, Exclusive3, Right;
  }

  // ---------- loading ----------

  lemma {:induction false} OrOfDisjoint(a: nat, b: nat, n: nat, k: nat)
    requires a * Pow2(k) + b < Pow2(n) && b < Pow2(k)
    ensures Bitwise((x, y) => x || y, a * Pow2(k), b, n) == a * Pow2(k) + b
  {
    if k == 0 {
      OrOfZero(a, n);
    } else if n > 0 {
      var high := a * Pow2(k - 1);
      assert a * Pow2(k) == 2 * high;
      OrOfDisjoint(a, b / 2, n - 1, k - 1);
      assert (2 * high) / 2 == high && (2 * high) % 2 == 0;
    }
  }

  lemma {:induction false} OrOfZero(a: nat, n: nat)
    requires a < Pow2(n)
    ensures Bitwise((x, y) => x || y, a, 0, n) == a
  {
    if n > 0 {
      OrOfZero(a / 2, n - 1);
    }
  }

  lemma Powers()
    ensures Pow2(8) == 0x100 && Pow2(16) == 0x1_0000 && Pow2(24) == 0x100_0000
  {
    assert Pow2(4) == 16;
    Pow2Add(4, 4);
    Pow2Add(8, 8);
    Pow2Add(8, 16);
  }

  lemma OrAdds(a: nat, k: nat, p: nat, b: nat)
    requires p == Pow2(k) && b < p && a * p + b < 0x1_0000_0000
    ensures 0 <= a * p < 0x1_0000_0000 && Or(a * p, b) == a * p + b
  {
    hide Pow2, Bitwise;
    Pow2Is32();
    OrOfDisjoint(a, b, 32, k);
  }

  lemma LeftOfByte(b: Byte)
    ensures Left(b, 24) == 0x100_0000 * b && Left(b, 16) == 0x1_0000 * b && Left(b, 8) == 0x100 * b
  {
    hide Pow2;
    Powers();
  }

  /** The first byte is the most significant one. */
  lemma LoadIsBigEndian(b0: Byte, b1: Byte, b2: Byte, b3: Byte)
    ensures Load(b0, b1, b2, b3) == 0x100_0000 * b0 + 0x1_0000 * b1 + 0x100 * b2 + b3
  {
    hide Or, Left, Pow2;
    Powers();
    LeftOfByte(b0);
    LeftOfByte(b1);
    LeftOfByte(b2);
    OrAdds(b0, 24, 0x100_0000, 0x1_0000 * b1);
    OrAdds(0x100 * b0 + b1, 16, 0x1_0000, 0x100 * b2);
    OrAdds(0x1_0000 * b0 + 0x100 * b1 + b2, 8, 0x100, b3);
  }
}
