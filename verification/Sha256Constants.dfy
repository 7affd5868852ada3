/** Where the constants of sections 4.2.2 and 5.3.3 of FIPS 180-4 come from: the
    fractional parts of the cube and square roots of the first primes, cut to
    32 bits. */
module Sha256Constants {
  import opened Words32
  import opened Sha256

  const ONE: nat := 0x1_0000_0000

  function Cube(r: nat): nat {
    r * r * r
  }

  function Square(r: nat): nat {
    r * r
  }

  /** The cube root of p, in units of 2^-32, rounded down, is whole * 2^32 + bits. */
  predicate CubeRoot(p: nat, whole: nat, bits: nat) {
    Cube(whole * ONE + bits) <= p * Cube(ONE) < Cube(whole * ONE + bits + 1)
  }

  predicate SquareRoot(p: nat, whole: nat, bits: nat) {
    Square(whole * ONE + bits) <= p * Square(ONE) < Square(whole * ONE + bits + 1)
  }

  /** No factor up to the square root of 311. */
  predicate PrimeBelow361(p: nat) {
    && 1 < p < 361
    && (p == 2 || p % 2 != 0) && (p == 3 || p % 3 != 0) && (p == 5 || p % 5 != 0) && (p == 7 || p % 7 != 0)
    && (p == 11 || p % 11 != 0) && (p == 13 || p % 13 != 0) && (p == 17 || p % 17 != 0)
  }

  lemma InitialHash()
    ensures PrimeBelow361(2) && SquareRoot(2, 1, INITIAL.a)
    ensures PrimeBelow361(3) && SquareRoot(3, 1, INITIAL.b)
    ensures PrimeBelow361(5) && SquareRoot(5, 2, INITIAL.c)
    ensures PrimeBelow361(7) && SquareRoot(7, 2, INITIAL.d)
    ensures PrimeBelow361(11) && SquareRoot(11, 3, INITIAL.e)
    ensures PrimeBelow361(13) && SquareRoot(13, 3, INITIAL.f)
    ensures PrimeBelow361(17) && SquareRoot(17, 4, INITIAL.g)
    ensures PrimeBelow361(19) && SquareRoot(19, 4, INITIAL.h)
  {
  }

  lemma Rows(i: nat)
    requires i < 16
    ensures |CONSTANTS| == 64 && |CONSTANTS1| == |CONSTANTS2| == |CONSTANTS3| == |CONSTANTS4| == 16
    ensures CONSTANTS[i] == CONSTANTS1[i] && CONSTANTS[16 + i] == CONSTANTS2[i]
    ensures CONSTANTS[32 + i] == CONSTANTS3[i] && CONSTANTS[48 + i] == CONSTANTS4[i]
  {
  }

  lemma Roots0To7()
    ensures |CONSTANTS1| == 16
    ensures PrimeBelow361(2) && CubeRoot(2, 1, CONSTANTS1[0])
    ensures PrimeBelow361(3) && CubeRoot(3, 1, CONSTANTS1[1])
    ensures PrimeBelow361(5) && CubeRoot(5, 1, CONSTANTS1[2])
    ensures PrimeBelow361(7) && CubeRoot(7, 1, CONSTANTS1[3])
    ensures PrimeBelow361(11) && CubeRoot(11, 2, CONSTANTS1[4])
    ensures PrimeBelow361(13) && CubeRoot(13, 2, CONSTANTS1[5])
    ensures PrimeBelow361(17) && CubeRoot(17, 2, CONSTANTS1[6])
    ensures PrimeBelow361(19) && CubeRoot(19, 2, CONSTANTS1[7])
  {
    hide CubeRoot;
    assert CONSTANTS1[0] == 0x428a2f98;
    IsCubeRoot(2, 1, 0x428a2f98);
    assert CONSTANTS1[1] == 0x71374491;
    IsCubeRoot(3, 1, 0x71374491);
    assert CONSTANTS1[2] == 0xb5c0fbcf;
    IsCubeRoot(5, 1, 0xb5c0fbcf);
    assert CONSTANTS1[3] == 0xe9b5dba5;
    IsCubeRoot(7, 1, 0xe9b5dba5);
    assert CONSTANTS1[4] == 0x3956c25b;
    IsCubeRoot(11, 2, 0x3956c25b);
    assert CONSTANTS1[5] == 0x59f111f1;
    IsCubeRoot(13, 2, 0x59f111f1);
    assert CONSTANTS1[6] == 0x923f82a4;
    IsCubeRoot(17, 2, 0x923f82a4);
    assert CONSTANTS1[7] == 0xab1c5ed5;
    IsCubeRoot(19, 2, 0xab1c5ed5);
  }

  lemma Roots8To15()
    ensures |CONSTANTS1| == 16
    ensures PrimeBelow361(23) && CubeRoot(23, 2, CONSTANTS1[8])
    ensures PrimeBelow361(29) && CubeRoot(29, 3, CONSTANTS1[9])
    ensures PrimeBelow361(31) && CubeRoot(31, 3, CONSTANTS1[10])
    ensures PrimeBelow361(37) && CubeRoot(37, 3, CONSTANTS1[11])
    ensures PrimeBelow361(41) && CubeRoot(41, 3, CONSTANTS1[12])
    ensures PrimeBelow361(43) && CubeRoot(43, 3, CONSTANTS1[13])
    ensures PrimeBelow361(47) && CubeRoot(47, 3, CONSTANTS1[14])
    ensures PrimeBelow361(53) && CubeRoot(53, 3, CONSTANTS1[15])
  {
    hide CubeRoot;
    assert CONSTANTS1[8] == 0xd807aa98;
    IsCubeRoot(23, 2, 0xd807aa98);
    assert CONSTANTS1[9] == 0x12835b01;
    IsCubeRoot(29, 3, 0x12835b01);
    assert CONSTANTS1[10] == 0x243185be;
    IsCubeRoot(31, 3, 0x243185be);
    assert CONSTANTS1[11] == 0x550c7dc3;
    IsCubeRoot(37, 3, 0x550c7dc3);
    assert CONSTANTS1[12] == 0x72be5d74;
    IsCubeRoot(41, 3, 0x72be5d74);
    assert CONSTANTS1[13] == 0x80deb1fe;
    IsCubeRoot(43, 3, 0x80deb1fe);
    assert CONSTANTS1[14] == 0x9bdc06a7;
    IsCubeRoot(47, 3, 0x9bdc06a7);
    assert CONSTANTS1[15] == 0xc19bf174;
    IsCubeRoot(53, 3, 0xc19bf174);
  }

  lemma Roots16To23()
    ensures |CONSTANTS2| == 16
    ensures PrimeBelow361(59) && CubeRoot(59, 3, CONSTANTS2[0])
    ensures PrimeBelow361(61) && CubeRoot(61, 3, CONSTANTS2[1])
    ensures PrimeBelow361(67) && CubeRoot(67, 4, CONSTANTS2[2])
    ensures PrimeBelow361(71) && CubeRoot(71, 4, CONSTANTS2[3])
    ensures PrimeBelow361(73) && CubeRoot(73, 4, CONSTANTS2[4])
    ensures PrimeBelow361(79) && CubeRoot(79, 4, CONSTANTS2[5])
    ensures PrimeBelow361(83) && CubeRoot(83, 4, CONSTANTS2[6])
    ensures PrimeBelow361(89) && CubeRoot(89, 4, CONSTANTS2[7])
  {
    hide CubeRoot;
    assert CONSTANTS2[0] == 0xe49b69c1;
    IsCubeRoot(59, 3, 0xe49b69c1);
    assert CONSTANTS2[1] == 0xefbe4786;
    IsCubeRoot(61, 3, 0xefbe4786);
    assert CONSTANTS2[2] == 0x0fc19dc6;
    IsCubeRoot(67, 4, 0x0fc19dc6);
    assert CONSTANTS2[3] == 0x240ca1cc;
    IsCubeRoot(71, 4, 0x240ca1cc);
    assert CONSTANTS2[4] == 0x2de92c6f;
    IsCubeRoot(73, 4, 0x2de92c6f);
    assert CONSTANTS2[5] == 0x4a7484aa;
    IsCubeRoot(79, 4, 0x4a7484aa);
    assert CONSTANTS2[6] == 0x5cb0a9dc;
    IsCubeRoot(83, 4, 0x5cb0a9dc);
    assert CONSTANTS2[7] == 0x76f988da;
    IsCubeRoot(89, 4, 0x76f988da);
  }

  lemma Roots24To31()
    ensures |CONSTANTS2| == 16
    ensures PrimeBelow361(97) && CubeRoot(97, 4, CONSTANTS2[8])
    ensures PrimeBelow361(101) && CubeRoot(101, 4, CONSTANTS2[9])
    ensures PrimeBelow361(103) && CubeRoot(103, 4, CONSTANTS2[10])
    ensures PrimeBelow361(107) && CubeRoot(107, 4, CONSTANTS2[11])
    ensures PrimeBelow361(109) && CubeRoot(109, 4, CONSTANTS2[12])
    ensures PrimeBelow361(113) && CubeRoot(113, 4, CONSTANTS2[13])
    ensures PrimeBelow361(127) && CubeRoot(127, 5, CONSTANTS2[14])
    ensures PrimeBelow361(131) && CubeRoot(131, 5, CONSTANTS2[15])
  {
    hide CubeRoot;
    assert CONSTANTS2[8] == 0x983e5152;
    IsCubeRoot(97, 4, 0x983e5152);
    assert CONSTANTS2[9] == 0xa831c66d;
    IsCubeRoot(101, 4, 0xa831c66d);
    assert CONSTANTS2[10] == 0xb00327c8;
    IsCubeRoot(103, 4, 0xb00327c8);
    assert CONSTANTS2[11] == 0xbf597fc7;
    IsCubeRoot(107, 4, 0xbf597fc7);
    assert CONSTANTS2[12] == 0xc6e00bf3;
    IsCubeRoot(109, 4, 0xc6e00bf3);
    assert CONSTANTS2[13] == 0xd5a79147;
    IsCubeRoot(113, 4, 0xd5a79147);
    assert CONSTANTS2[14] == 0x06ca6351;
    IsCubeRoot(127, 5, 0x06ca6351);
    assert CONSTANTS2[15] == 0x14292967;
    IsCubeRoot(131, 5, 0x14292967);
  }

  lemma Roots32To39()
    ensures |CONSTANTS3| == 16
    ensures PrimeBelow361(137) && CubeRoot(137, 5, CONSTANTS3[0])
    ensures PrimeBelow361(139) && CubeRoot(139, 5, CONSTANTS3[1])
    ensures PrimeBelow361(149) && CubeRoot(149, 5, CONSTANTS3[2])
    ensures PrimeBelow361(151) && CubeRoot(151, 5, CONSTANTS3[3])
    ensures PrimeBelow361(157) && CubeRoot(157, 5, CONSTANTS3[4])
    ensures PrimeBelow361(163) && CubeRoot(163, 5, CONSTANTS3[5])
    ensures PrimeBelow361(167) && CubeRoot(167, 5, CONSTANTS3[6])
    ensures PrimeBelow361(173) && CubeRoot(173, 5, CONSTANTS3[7])
  {
    hide CubeRoot;
    assert CONSTANTS3[0] == 0x27b70a85;
    IsCubeRoot(137, 5, 0x27b70a85);
    assert CONSTANTS3[1] == 0x2e1b2138;
    IsCubeRoot(139, 5, 0x2e1b2138);
    assert CONSTANTS3[2] == 0x4d2c6dfc;
    IsCubeRoot(149, 5, 0x4d2c6dfc);
    assert CONSTANTS3[3] == 0x53380d13;
    IsCubeRoot(151, 5, 0x53380d13);
    assert CONSTANTS3[4] == 0x650a7354;
    IsCubeRoot(157, 5, 0x650a7354);
    assert CONSTANTS3[5] == 0x766a0abb;
    IsCubeRoot(163, 5, 0x766a0abb);
    assert CONSTANTS3[6] == 0x81c2c92e;
    IsCubeRoot(167, 5, 0x81c2c92e);
    assert CONSTANTS3[7] == 0x92722c85;
    IsCubeRoot(173, 5, 0x92722c85);
  }

  lemma Roots40To47()
    ensures |CONSTANTS3| == 16
    ensures PrimeBelow361(179) && CubeRoot(179, 5, CONSTANTS3[8])
    ensures PrimeBelow361(181) && CubeRoot(181, 5, CONSTANTS3[9])
    ensures PrimeBelow361(191) && CubeRoot(191, 5, CONSTANTS3[10])
    ensures PrimeBelow361(193) && CubeRoot(193, 5, CONSTANTS3[11])
    ensures PrimeBelow361(197) && CubeRoot(197, 5, CONSTANTS3[12])
    ensures PrimeBelow361(199) && CubeRoot(199, 5, CONSTANTS3[13])
    ensures PrimeBelow361(211) && CubeRoot(211, 5, CONSTANTS3[14])
    ensures PrimeBelow361(223) && CubeRoot(223, 6, CONSTANTS3[15])
  {
    hide CubeRoot;
    assert CONSTANTS3[8] == 0xa2bfe8a1;
    IsCubeRoot(179, 5, 0xa2bfe8a1);
    assert CONSTANTS3[9] == 0xa81a664b;
    IsCubeRoot(181, 5, 0xa81a664b);
    assert CONSTANTS3[10] == 0xc24b8b70;
    IsCubeRoot(191, 5, 0xc24b8b70);
    assert CONSTANTS3[11] == 0xc76c51a3;
    IsCubeRoot(193, 5, 0xc76c51a3);
    assert CONSTANTS3[12] == 0xd192e819;
    IsCubeRoot(197, 5, 0xd192e819);
    assert CONSTANTS3[13] == 0xd6990624;
    IsCubeRoot(199, 5, 0xd6990624);
    assert CONSTANTS3[14] == 0xf40e3585;
    IsCubeRoot(211, 5, 0xf40e3585);
    assert CONSTANTS3[15] == 0x106aa070;
    IsCubeRoot(223, 6, 0x106aa070);
  }

  lemma Roots48To55()
    ensures |CONSTANTS4| == 16
    ensures PrimeBelow361(227) && CubeRoot(227, 6, CONSTANTS4[0])
    ensures PrimeBelow361(229) && CubeRoot(229, 6, CONSTANTS4[1])
    ensures PrimeBelow361(233) && CubeRoot(233, 6, CONSTANTS4[2])
    ensures PrimeBelow361(239) && CubeRoot(239, 6, CONSTANTS4[3])
    ensures PrimeBelow361(241) && CubeRoot(241, 6, CONSTANTS4[4])
    ensures PrimeBelow361(251) && CubeRoot(251, 6, CONSTANTS4[5])
    ensures PrimeBelow361(257) && CubeRoot(257, 6, CONSTANTS4[6])
    ensures PrimeBelow361(263) && CubeRoot(263, 6, CONSTANTS4[7])
  {
    hide CubeRoot;
    assert CONSTANTS4[0] == 0x19a4c116;
    IsCubeRoot(227, 6, 0x19a4c116);
    assert CONSTANTS4[1] == 0x1e376c08;
    IsCubeRoot(229, 6, 0x1e376c08);
    assert CONSTANTS4[2] == 0x2748774c;
    IsCubeRoot(233, 6, 0x2748774c);
    assert CONSTANTS4[3] == 0x34b0bcb5;
    IsCubeRoot(239, 6, 0x34b0bcb5);
    assert CONSTANTS4[4] == 0x391c0cb3;
    IsCubeRoot(241, 6, 0x391c0cb3);
    assert CONSTANTS4[5] == 0x4ed8aa4a;
    IsCubeRoot(251, 6, 0x4ed8aa4a);
    assert CONSTANTS4[6] == 0x5b9cca4f;
    IsCubeRoot(257, 6, 0x5b9cca4f);
    assert CONSTANTS4[7] == 0x682e6ff3;
    IsCubeRoot(263, 6, 0x682e6ff3);
  }

  lemma Roots56To63()
    ensures |CONSTANTS4| == 16
    ensures PrimeBelow361(269) && CubeRoot(269, 6, CONSTANTS4[8])
    ensures PrimeBelow361(271) && CubeRoot(271, 6, CONSTANTS4[9])
    ensures PrimeBelow361(277) && CubeRoot(277, 6, CONSTANTS4[10])
    ensures PrimeBelow361(281) && CubeRoot(281, 6, CONSTANTS4[11])
    ensures PrimeBelow361(283) && CubeRoot(283, 6, CONSTANTS4[12])
    ensures PrimeBelow361(293) && CubeRoot(293, 6, CONSTANTS4[13])
    ensures PrimeBelow361(307) && CubeRoot(307, 6, CONSTANTS4[14])
    ensures PrimeBelow361(311) && CubeRoot(311, 6, CONSTANTS4[15])
  {
    hide CubeRoot;
    assert CONSTANTS4[8] == 0x748f82ee;
    IsCubeRoot(269, 6, 0x748f82ee);
    assert CONSTANTS4[9] == 0x78a5636f;
    IsCubeRoot(271, 6, 0x78a5636f);
    assert CONSTANTS4[10] == 0x84c87814;
    IsCubeRoot(277, 6, 0x84c87814);
    assert CONSTANTS4[11] == 0x8cc70208;
    IsCubeRoot(281, 6, 0x8cc70208);
    assert CONSTANTS4[12] == 0x90befffa;
    IsCubeRoot(283, 6, 0x90befffa);
    assert CONSTANTS4[13] == 0xa4506ceb;
    IsCubeRoot(293, 6, 0xa4506ceb);
    assert CONSTANTS4[14] == 0xbef9a3f7;
    IsCubeRoot(307, 6, 0xbef9a3f7);
    assert CONSTANTS4[15] == 0xc67178f2;
    IsCubeRoot(311, 6, 0xc67178f2);
  }

  lemma IsCubeRoot(p: nat, whole: nat, bits: nat)
    requires Cube(whole * ONE + bits) <= p * Cube(ONE) < Cube(whole * ONE + bits + 1)
    ensures CubeRoot(p, whole, bits)
  {
  }
}
