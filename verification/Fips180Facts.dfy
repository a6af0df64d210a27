/** The constants of `Fips180`, against what FIPS 180-4 says of them (sections 4.2.2 and 5.3.3): the
    first 32 bits of the fractional parts of roots of the first primes.
 */
module Fips180Facts {
  import opened Fips180

  /** A square root, cut after 32 bits of its fraction. */
  predicate SquareRoot(p: nat, whole: nat, frac: nat) {
    var m := whole * 0x1_0000_0000 + frac;
    m * m <= p * 0x1_0000_0000_0000_0000 < (m + 1) * (m + 1)
  }

  predicate CubeRoot(p: nat, whole: nat, frac: nat) {
    var m := whole * 0x1_0000_0000 + frac;
    m * m * m <= p * 0x1_0000_0000_0000_0000_0000_0000 < (m + 1) * (m + 1) * (m + 1)
  }

  /** The initial hash values, of the square roots of the first eight primes. */
  lemma InitialValues()
    ensures SquareRoot(2, 1, H0[0] as nat)
    ensures SquareRoot(3, 1, H0[1] as nat)
    ensures SquareRoot(5, 2, H0[2] as nat)
    ensures SquareRoot(7, 2, H0[3] as nat)
    ensures SquareRoot(11, 3, H0[4] as nat)
    ensures SquareRoot(13, 3, H0[5] as nat)
    ensures SquareRoot(17, 4, H0[6] as nat)
    ensures SquareRoot(19, 4, H0[7] as nat)
  {
    assert H0[0] as nat == 0x6a09e667;
    assert H0[1] as nat == 0xbb67ae85;
    assert H0[2] as nat == 0x3c6ef372;
    assert H0[3] as nat == 0xa54ff53a;
    assert H0[4] as nat == 0x510e527f;
    assert H0[5] as nat == 0x9b05688c;
    assert H0[6] as nat == 0x1f83d9ab;
    assert H0[7] as nat == 0x5be0cd19;
  }

  /** The round constants of the first eight primes, of their cube roots. */
  lemma Roots0()
    ensures CubeRoot(2, 1, KRow(0)[0] as nat)
    ensures CubeRoot(3, 1, KRow(0)[1] as nat)
    ensures CubeRoot(5, 1, KRow(0)[2] as nat)
    ensures CubeRoot(7, 1, KRow(0)[3] as nat)
    ensures CubeRoot(11, 2, KRow(0)[4] as nat)
    ensures CubeRoot(13, 2, KRow(0)[5] as nat)
    ensures CubeRoot(17, 2, KRow(0)[6] as nat)
    ensures CubeRoot(19, 2, KRow(0)[7] as nat)
  {
    var k := KRow(0);
    assert k[0] as nat == 0x428a2f98;
    assert k[1] as nat == 0x71374491;
    assert k[2] as nat == 0xb5c0fbcf;
    assert k[3] as nat == 0xe9b5dba5;
    assert k[4] as nat == 0x3956c25b;
    assert k[5] as nat == 0x59f111f1;
    assert k[6] as nat == 0x923f82a4;
    assert k[7] as nat == 0xab1c5ed5;
  }

  /** The round constants of the second eight primes, of their cube roots. */
  lemma Roots1()
    ensures CubeRoot(23, 2, KRow(1)[0] as nat)
    ensures CubeRoot(29, 3, KRow(1)[1] as nat)
    ensures CubeRoot(31, 3, KRow(1)[2] as nat)
    ensures CubeRoot(37, 3, KRow(1)[3] as nat)
    ensures CubeRoot(41, 3, KRow(1)[4] as nat)
    ensures CubeRoot(43, 3, KRow(1)[5] as nat)
    ensures CubeRoot(47, 3, KRow(1)[6] as nat)
    ensures CubeRoot(53, 3, KRow(1)[7] as nat)
  {
    var k := KRow(1);
    assert k[0] as nat == 0xd807aa98;
    assert k[1] as nat == 0x12835b01;
    assert k[2] as nat == 0x243185be;
    assert k[3] as nat == 0x550c7dc3;
    assert k[4] as nat == 0x72be5d74;
    assert k[5] as nat == 0x80deb1fe;
    assert k[6] as nat == 0x9bdc06a7;
    assert k[7] as nat == 0xc19bf174;
  }

  /** The round constants of the third eight primes, of their cube roots. */
  lemma Roots2()
    ensures CubeRoot(59, 3, KRow(2)[0] as nat)
    ensures CubeRoot(61, 3, KRow(2)[1] as nat)
    ensures CubeRoot(67, 4, KRow(2)[2] as nat)
    ensures CubeRoot(71, 4, KRow(2)[3] as nat)
    ensures CubeRoot(73, 4, KRow(2)[4] as nat)
    ensures CubeRoot(79, 4, KRow(2)[5] as nat)
    ensures CubeRoot(83, 4, KRow(2)[6] as nat)
    ensures CubeRoot(89, 4, KRow(2)[7] as nat)
  {
    var k := KRow(2);
    assert k[0] as nat == 0xe49b69c1;
    assert k[1] as nat == 0xefbe4786;
    assert k[2] as nat == 0x0fc19dc6;
    assert k[3] as nat == 0x240ca1cc;
    assert k[4] as nat == 0x2de92c6f;
    assert k[5] as nat == 0x4a7484aa;
    assert k[6] as nat == 0x5cb0a9dc;
    assert k[7] as nat == 0x76f988da;
  }

  /** The round constants of the fourth eight primes, of their cube roots. */
  lemma Roots3()
    ensures CubeRoot(97, 4, KRow(3)[0] as nat)
    ensures CubeRoot(101, 4, KRow(3)[1] as nat)
    ensures CubeRoot(103, 4, KRow(3)[2] as nat)
    ensures CubeRoot(107, 4, KRow(3)[3] as nat)
    ensures CubeRoot(109, 4, KRow(3)[4] as nat)
    ensures CubeRoot(113, 4, KRow(3)[5] as nat)
    ensures CubeRoot(127, 5, KRow(3)[6] as nat)
    ensures CubeRoot(131, 5, KRow(3)[7] as nat)
  {
    var k := KRow(3);
    assert k[0] as nat == 0x983e5152;
    assert k[1] as nat == 0xa831c66d;
    assert k[2] as nat == 0xb00327c8;
    assert k[3] as nat == 0xbf597fc7;
    assert k[4] as nat == 0xc6e00bf3;
    assert k[5] as nat == 0xd5a79147;
    assert k[6] as nat == 0x06ca6351;
    assert k[7] as nat == 0x14292967;
  }

  /** The round constants of the fifth eight primes, of their cube roots. */
  lemma Roots4()
    ensures CubeRoot(137, 5, KRow(4)[0] as nat)
    ensures CubeRoot(139, 5, KRow(4)[1] as nat)
    ensures CubeRoot(149, 5, KRow(4)[2] as nat)
    ensures CubeRoot(151, 5, KRow(4)[3] as nat)
    ensures CubeRoot(157, 5, KRow(4)[4] as nat)
    ensures CubeRoot(163, 5, KRow(4)[5] as nat)
    ensures CubeRoot(167, 5, KRow(4)[6] as nat)
    ensures CubeRoot(173, 5, KRow(4)[7] as nat)
  {
    var k := KRow(4);
    assert k[0] as nat == 0x27b70a85;
    assert k[1] as nat == 0x2e1b2138;
    assert k[2] as nat == 0x4d2c6dfc;
    assert k[3] as nat == 0x53380d13;
    assert k[4] as nat == 0x650a7354;
    assert k[5] as nat == 0x766a0abb;
    assert k[6] as nat == 0x81c2c92e;
    assert k[7] as nat == 0x92722c85;
  }

  /** The round constants of the sixth eight primes, of their cube roots. */
  lemma Roots5()
    ensures CubeRoot(179, 5, KRow(5)[0] as nat)
    ensures CubeRoot(181, 5, KRow(5)[1] as nat)
    ensures CubeRoot(191, 5, KRow(5)[2] as nat)
    ensures CubeRoot(193, 5, KRow(5)[3] as nat)
    ensures CubeRoot(197, 5, KRow(5)[4] as nat)
    ensures CubeRoot(199, 5, KRow(5)[5] as nat)
    ensures CubeRoot(211, 5, KRow(5)[6] as nat)
    ensures CubeRoot(223, 6, KRow(5)[7] as nat)
  {
    var k := KRow(5);
    assert k[0] as nat == 0xa2bfe8a1;
    assert k[1] as nat == 0xa81a664b;
    assert k[2] as nat == 0xc24b8b70;
    assert k[3] as nat == 0xc76c51a3;
    assert k[4] as nat == 0xd192e819;
    assert k[5] as nat == 0xd6990624;
    assert k[6] as nat == 0xf40e3585;
    assert k[7] as nat == 0x106aa070;
  }

  /** The round constants of the seventh eight primes, of their cube roots. */
  lemma Roots6()
    ensures CubeRoot(227, 6, KRow(6)[0] as nat)
    ensures CubeRoot(229, 6, KRow(6)[1] as nat)
    ensures CubeRoot(233, 6, KRow(6)[2] as nat)
    ensures CubeRoot(239, 6, KRow(6)[3] as nat)
    ensures CubeRoot(241, 6, KRow(6)[4] as nat)
    ensures CubeRoot(251, 6, KRow(6)[5] as nat)
    ensures CubeRoot(257, 6, KRow(6)[6] as nat)
    ensures CubeRoot(263, 6, KRow(6)[7] as nat)
  {
    var k := KRow(6);
    assert k[0] as nat == 0x19a4c116;
    assert k[1] as nat == 0x1e376c08;
    assert k[2] as nat == 0x2748774c;
    assert k[3] as nat == 0x34b0bcb5;
    assert k[4] as nat == 0x391c0cb3;
    assert k[5] as nat == 0x4ed8aa4a;
    assert k[6] as nat == 0x5b9cca4f;
    assert k[7] as nat == 0x682e6ff3;
  }

  /** The round constants of the last eight primes, of their cube roots. */
  lemma Roots7()
    ensures CubeRoot(269, 6, KRow(7)[0] as nat)
    ensures CubeRoot(271, 6, KRow(7)[1] as nat)
    ensures CubeRoot(277, 6, KRow(7)[2] as nat)
    ensures CubeRoot(281, 6, KRow(7)[3] as nat)
    ensures CubeRoot(283, 6, KRow(7)[4] as nat)
    ensures CubeRoot(293, 6, KRow(7)[5] as nat)
    ensures CubeRoot(307, 6, KRow(7)[6] as nat)
    ensures CubeRoot(311, 6, KRow(7)[7] as nat)
  {
    var k := KRow(7);
    assert k[0] as nat == 0x748f82ee;
    assert k[1] as nat == 0x78a5636f;
    assert k[2] as nat == 0x84c87814;
    assert k[3] as nat == 0x8cc70208;
    assert k[4] as nat == 0x90befffa;
    assert k[5] as nat == 0xa4506ceb;
    assert k[6] as nat == 0xbef9a3f7;
    assert k[7] as nat == 0xc67178f2;
  }

  /** Section 4.1.2: where the rotations and shifts take a single bit. */
  lemma SigmaBits()
    ensures BigSigma0(1) == 0x4008_0400 && BigSigma1(1) == 0x0420_0080
    ensures SmallSigma0(8) == 0x1002_0001 && SmallSigma1(0x400) == 0x0280_0001
  {}
}
