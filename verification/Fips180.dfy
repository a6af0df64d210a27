/** SHA-256 as FIPS 180-4 states it: padding (section 5.1.1), the message schedule and the rounds
    (section 6.2.2), folded over the blocks of the padded message.
 */
module Fips180 {
  type Byte = bv8
  type Word = bv32

  const BLOCK: nat := 64

  /** Section 5.3.3. */
  const H0: seq<Word> := [
    0x6a09e667, 0xbb67ae85, 0x3c6ef372, 0xa54ff53a, 0x510e527f, 0x9b05688c, 0x1f83d9ab, 0x5be0cd19
  ]

  /** Section 4.2.2, eight to a row. */
  function KRow(r: nat): (row: seq<Word>)
    requires r < 8
    ensures |row| == 8
  {
    match r
    case 0 =>
      [0x428a2f98, 0x71374491, 0xb5c0fbcf, 0xe9b5dba5, 0x3956c25b, 0x59f111f1, 0x923f82a4, 0xab1c5ed5]
    case 1 =>
      [0xd807aa98, 0x12835b01, 0x243185be, 0x550c7dc3, 0x72be5d74, 0x80deb1fe, 0x9bdc06a7, 0xc19bf174]
    case 2 =>
      [0xe49b69c1, 0xefbe4786, 0x0fc19dc6, 0x240ca1cc, 0x2de92c6f, 0x4a7484aa, 0x5cb0a9dc, 0x76f988da]
    case 3 =>
      [0x983e5152, 0xa831c66d, 0xb00327c8, 0xbf597fc7, 0xc6e00bf3, 0xd5a79147, 0x06ca6351, 0x14292967]
    case 4 =>
      [0x27b70a85, 0x2e1b2138, 0x4d2c6dfc, 0x53380d13, 0x650a7354, 0x766a0abb, 0x81c2c92e, 0x92722c85]
    case 5 =>
      [0xa2bfe8a1, 0xa81a664b, 0xc24b8b70, 0xc76c51a3, 0xd192e819, 0xd6990624, 0xf40e3585, 0x106aa070]
    case 6 =>
      [0x19a4c116, 0x1e376c08, 0x2748774c, 0x34b0bcb5, 0x391c0cb3, 0x4ed8aa4a, 0x5b9cca4f, 0x682e6ff3]
    case _ =>
      [0x748f82ee, 0x78a5636f, 0x84c87814, 0x8cc70208, 0x90befffa, 0xa4506ceb, 0xbef9a3f7, 0xc67178f2]
  }

  // ---------------------------------------------------------------- section 4.1.2

  function Rotr(x: Word, n: nat): Word
    requires 0 < n < 32
  {
    (x >> n) | (x << (32 - n))
  }

  function Ch(x: Word, y: Word, z: Word): Word { (x & y) ^ (!x & z) }

  function Maj(x: Word, y: Word, z: Word): Word { (x & y) ^ (x & z) ^ (y & z) }

  function BigSigma0(x: Word): Word { Rotr(x, 2) ^ Rotr(x, 13) ^ Rotr(x, 22) }

  function BigSigma1(x: Word): Word { Rotr(x, 6) ^ Rotr(x, 11) ^ Rotr(x, 25) }

  function SmallSigma0(x: Word): Word { Rotr(x, 7) ^ Rotr(x, 18) ^ (x >> 3) }

  function SmallSigma1(x: Word): Word { Rotr(x, 17) ^ Rotr(x, 19) ^ (x >> 10) }

  // ---------------------------------------------------------------- section 6.2.2

  /** Four bytes, the first the most significant. */
  function BigEndian(b: seq<Byte>, i: nat): Word
    requires i + 4 <= |b|
  {
    (b[i] as Word << 24) | (b[i + 1] as Word << 16) | (b[i + 2] as Word << 8) | (b[i + 3] as Word)
  }

  /** The t-th word of the message schedule. */
  function Schedule(block: seq<Byte>, t: nat): Word
    requires |block| == BLOCK && t < 64
  {
    if t < 16 then BigEndian(block, 4 * t)
    else NextWord(Schedule(block, t - 2), Schedule(block, t - 7), Schedule(block, t - 15), Schedule(block, t - 16))
  }

  function NextWord(w2: Word, w7: Word, w15: Word, w16: Word): Word { SmallSigma1(w2) + w7 + SmallSigma0(w15) + w16 }

  datatype Vars = Vars(a: Word, b: Word, c: Word, d: Word, e: Word, f: Word, g: Word, h: Word)

  function T1(e: Word, f: Word, g: Word, h: Word, k: Word, w: Word): Word { h + BigSigma1(e) + Ch(e, f, g) + k + w }

  function T2(a: Word, b: Word, c: Word): Word { BigSigma0(a) + Maj(a, b, c) }

  /** Addition modulo 2^32. */
  function Add(x: Word, y: Word): Word { x + y }

  function Round(v: Vars, k: Word, w: Word): Vars {
    var t1, t2 := T1(v.e, v.f, v.g, v.h, k, w), T2(v.a, v.b, v.c);
    Vars(Add(t1, t2), v.a, v.b, v.c, Add(v.d, t1), v.e, v.f, v.g)
  }

  function KAt(t: nat): Word
    requires t < 64
  {
    KRow(t / 8)[t % 8]
  }

  /** The working variables after the first `t` rounds. */
  function Rounds(v: Vars, block: seq<Byte>, t: nat): Vars
    requires |block| == BLOCK && t <= 64
  {
    if t == 0 then v else Round(Rounds(v, block, t - 1), KAt(t - 1), Schedule(block, t - 1))
  }

  function VarsOf(h: seq<Word>): Vars
    requires |h| == 8
  {
    Vars(h[0], h[1], h[2], h[3], h[4], h[5], h[6], h[7])
  }

  function Sum(h: seq<Word>, v: Vars): (r: seq<Word>)
    requires |h| == 8
    ensures |r| == 8
  {
    [Add(h[0], v.a), Add(h[1], v.b), Add(h[2], v.c), Add(h[3], v.d),
     Add(h[4], v.e), Add(h[5], v.f), Add(h[6], v.g), Add(h[7], v.h)]
  }

  function Compress(h: seq<Word>, block: seq<Byte>): (r: seq<Word>)
    requires |h| == 8 && |block| == BLOCK
    ensures |r| == 8
  {
    Sum(h, Rounds(VarsOf(h), block, 64))
  }

  /** The hash value after these blocks. */
  function Fold(h: seq<Word>, blocks: seq<Byte>): (r: seq<Word>)
    requires |h| == 8 && |blocks| % BLOCK == 0
    ensures |r| == 8
    decreases |blocks|
  {
    assert blocks != [] ==> |blocks| >= BLOCK && (|blocks| - BLOCK) % BLOCK == 0;
    if blocks == [] then h else Fold(Compress(h, blocks[..BLOCK]), blocks[BLOCK..])
  }

  lemma {:induction false} FoldSum(h: seq<Word>, a: seq<Byte>, b: seq<Byte>)
    requires |h| == 8 && |a| % BLOCK == 0 && |b| % BLOCK == 0
    ensures Fold(h, a + b) == Fold(Fold(h, a), b)
    decreases |a|
  {
    hide Compress;
    if a == [] {
      assert a + b == b;
    } else {
      assert (a + b)[..BLOCK] == a[..BLOCK] && (a + b)[BLOCK..] == a[BLOCK..] + b;
      FoldSum(Compress(h, a[..BLOCK]), a[BLOCK..], b);
    }
  }

  // ---------------------------------------------------------------- section 5.1.1

  const TWO64: nat := 0x1_0000_0000_0000_0000

  function Zeros(n: nat): (r: seq<Byte>)
    ensures |r| == n
  {
    seq(n, _ => 0)
  }

  /** How many zero bytes leave room for exactly the length in the last block. */
  function ZeroCount(n: nat): (k: nat)
    ensures k < 64 && (n + 1 + k) % 64 == 56
  {
    (119 - n % 64) % 64
  }

  function ByteOf(x: nat, i: nat): Byte
    requires i < 8
  {
    var shifted := match i { case 0 => x case 1 => x / 0x100 case 2 => x / 0x1_0000 case 3 => x / 0x100_0000
      case 4 => x / 0x1_0000_0000 case 5 => x / 0x100_0000_0000 case 6 => x / 0x1_0000_0000_0000
      case _ => x / 0x100_0000_0000_0000 };
    (shifted % 256) as Byte
  }

  /** A length as 64 big-endian bits. */
  function LengthBytes(bits: nat): (r: seq<Byte>)
    ensures |r| == 8
  {
    [ByteOf(bits, 7), ByteOf(bits, 6), ByteOf(bits, 5), ByteOf(bits, 4),
     ByteOf(bits, 3), ByteOf(bits, 2), ByteOf(bits, 1), ByteOf(bits, 0)]
  }

  /** The length in bits, modulo 2^64. */
  function BitLength(n: nat): nat { 8 * n % TWO64 }

  /** A 1 bit, zeros, and the length. */
  function Padding(n: nat): (r: seq<Byte>)
    ensures |r| == ZeroCount(n) + 9
  {
    [0x80] + Zeros(ZeroCount(n)) + LengthBytes(BitLength(n))
  }

  lemma PaddedBlocks(n: nat)
    ensures (n + |Padding(n)|) % BLOCK == 0
  {
    hide ZeroCount, Padding;
    var x := n + 1 + ZeroCount(n);
    assert x == 64 * (x / 64) + 56;
    assert n + |Padding(n)| == 64 * (x / 64 + 1);
  }

  function Padded(message: seq<Byte>): (r: seq<Byte>)
    ensures |r| % BLOCK == 0
  {
    PaddedBlocks(|message|);
    message + Padding(|message|)
  }

  // ---------------------------------------------------------------- the digest

  function WordBytes(w: Word): (r: seq<Byte>)
    ensures |r| == 4
  {
    [((w >> 24) & 0xff) as Byte, ((w >> 16) & 0xff) as Byte, ((w >> 8) & 0xff) as Byte, (w & 0xff) as Byte]
  }

  function Bytes(words: seq<Word>): (r: seq<Byte>)
    ensures |r| == 4 * |words|
  {
    if words == [] then [] else Bytes(words[..|words| - 1]) + WordBytes(words[|words| - 1])
  }

  /** SHA-256 of a message. */
  function Hash(message: seq<Byte>): (r: seq<Byte>)
    ensures |r| == 32
  {
    Bytes(Fold(H0, Padded(message)))
  }
}
