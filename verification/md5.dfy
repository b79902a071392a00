/** MD5 as RFC 1321 defines it. */
module Md5Spec {
  import opened Words
  import opened Streams
  import opened Md5Rounds

  const T: seq<word> := T0 + T16 + T32 + T48

  const T0: seq<word> := [
    0xd76aa478, 0xe8c7b756, 0x242070db, 0xc1bdceee, 0xf57c0faf, 0x4787c62a, 0xa8304613, 0xfd469501,
    0x698098d8, 0x8b44f7af, 0xffff5bb1, 0x895cd7be, 0x6b901122, 0xfd987193, 0xa679438e, 0x49b40821]

  const T16: seq<word> := [
    0xf61e2562, 0xc040b340, 0x265e5a51, 0xe9b6c7aa, 0xd62f105d, 0x02441453, 0xd8a1e681, 0xe7d3fbc8,
    0x21e1cde6, 0xc33707d6, 0xf4d50d87, 0x455a14ed, 0xa9e3e905, 0xfcefa3f8, 0x676f02d9, 0x8d2a4c8a]

  const T32: seq<word> := [
    0xfffa3942, 0x8771f681, 0x6d9d6122, 0xfde5380c, 0xa4beea44, 0x4bdecfa9, 0xf6bb4b60, 0xbebfbc70,
    0x289b7ec6, 0xeaa127fa, 0xd4ef3085, 0x04881d05, 0xd9d4d039, 0xe6db99e5, 0x1fa27cf8, 0xc4ac5665]

  const T48: seq<word> := [
    0xf4292244, 0x432aff97, 0xab9423a7, 0xfc93a039, 0x655b59c3, 0x8f0ccc92, 0xffeff47d, 0x85845dd1,
    0x6fa87e4f, 0xfe2ce6e0, 0xa3014314, 0x4e0811a1, 0xf7537e82, 0xbd3af235, 0x2ad7d2bb, 0xeb86d391]

  const INIT: Regs<word> := Regs(0x67452301, 0xefcdab89, 0x98badcfe, 0x10325476)

  function Fun(f: nat, x: word, y: word, z: word): word {
    if f == 0 then F(x, y, z) else if f == 1 then G(x, y, z) else if f == 3 then I(x, y, z) else H(x, y, z)
  }

  const MD5: Md5Ops<word> := Md5Ops((x, y) => x + y, (a, f, x, t) => a + f + x + t, Fun, Rotl)

  // ----- section 2: words are little-endian -----

  function Word(b0: byte, b1: byte, b2: byte, b3: byte): word {
    (b0 as word) | ((b1 as word) << 8) | ((b2 as word) << 16) | ((b3 as word) << 24)
  }

  function WordBytes(w: word): seq<byte> {
    [(w & 0xff) as byte, ((w >> 8) & 0xff) as byte, ((w >> 16) & 0xff) as byte, ((w >> 24) & 0xff) as byte]
  }

  /** The sixteen words of a block. */
  function Decoded(block: seq<byte>): (r: seq<word>)
    requires |block| == 64
    ensures |r| == 16
  {
    seq(16, k requires 0 <= k < 16 => Word(block[4 * k], block[4 * k + 1], block[4 * k + 2], block[4 * k + 3]))
  }

  function MixBlock(r: Regs<word>, block: seq<byte>): Regs<word> {
    if |block| == 64 then Mixed(MD5, T, Decoded(block), r) else r
  }

  // ----- sections 3.1, 3.2 and 3.5 -----

  /** A number in eight bytes, least significant first. */
  function LengthBytes(n: nat): (r: seq<byte>)
    requires n < TWO64
    ensures |r| == 8
  {
    [(n % 256) as byte, ((n / 0x100) % 256) as byte, ((n / 0x1_0000) % 256) as byte, ((n / 0x100_0000) % 256) as byte,
     ((n / 0x1_0000_0000) % 256) as byte, ((n / 0x100_0000_0000) % 256) as byte,
     ((n / 0x1_0000_0000_0000) % 256) as byte, (n / 0x100_0000_0000_0000) as byte]
  }

  function Encode(r: Regs<word>): seq<byte> {
    WordBytes(r.a) + WordBytes(r.b) + WordBytes(r.c) + WordBytes(r.d)
  }

  /** The length is taken in bits, mod 2^64. */
  function Digest(m: seq<byte>): seq<byte> {
    Encode(Absorb(MixBlock, INIT, Padded(m, LengthBytes(8 * |m| % TWO64))))
  }
}
