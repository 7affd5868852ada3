/** 32-bit words as integers: sums wrap, and the logical operators are defined
    bit by bit. */
module Words32 {
  import opened Words

  type Word32 = x: int | 0 <= x < 0x1_0000_0000

  /** Applies a truth table to the n low bits of two numbers. */
  function Bitwise(table: (bool, bool) -> bool, a: nat, b: nat, n: nat): (r: nat)
    ensures r < Pow2(n)
  {
    if n == 0 then
      0
    else
      2 * Bitwise(table, a / 2, b / 2, n - 1) + if table(a % 2 == 1, b % 2 == 1) then 1 else 0
  }

  lemma Pow2Is32()
    ensures Pow2(32) == 0x1_0000_0000
  {
    Pow2Is16();
    Pow2Add(16, 16);
  }

  function And(a: Word32, b: Word32): Word32 {
    Pow2Is32();
    Bitwise((x, y) => x && y, a, b, 32)
  }

  function Or(a: Word32, b: Word32): Word32 {
    Pow2Is32();
    Bitwise((x, y) => x || y, a, b, 32)
  }

  function Exclusive(a: Word32, b: Word32): Word32 {
    Pow2Is32();
    Bitwise((x, y) => x != y, a, b, 32)
  }

  function Not(a: Word32): Word32 {
    Pow2Is32();
    Bitwise((x, y) => !x, a, a, 32)
  }

  function Add(a: Word32, b: Word32): Word32 {
    (a + b) % 0x1_0000_0000
  }

  function Right(a: Word32, k: nat): Word32 {
    ShrShrinks(a, k);
    Shr(a, k)
  }

  function Left(a: Word32, k: nat): Word32 {
    (a * Pow2(k)) % 0x1_0000_0000
  }

  lemma AddIsAssociative(a: Word32, b: Word32, c: Word32)
    ensures Add(Add(a, b), c) == Add(a, Add(b, c))
    ensures Add(a, b) == Add(b, a)
  {
  }
}
