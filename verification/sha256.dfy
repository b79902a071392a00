/** SHA-256 as FIPS 180-4 defines it. */
module Sha256Spec {
  import opened Words
  import opened ShaRounds
  import opened Streams

  const K: seq<word> := K0 + K16 + K32 + K48

  const K0: seq<word> := [
    0x428a2f98, 0x71374491, 0xb5c0fbcf, 0xe9b5dba5, 0x3956c25b, 0x59f111f1, 0x923f82a4, 0xab1c5ed5,
    0xd807aa98, 0x12835b01, 0x243185be, 0x550c7dc3, 0x72be5d74, 0x80deb1fe, 0x9bdc06a7, 0xc19bf174]

  const K16: seq<word> := [
    0xe49b69c1, 0xefbe4786, 0x0fc19dc6, 0x240ca1cc, 0x2de92c6f, 0x4a7484aa, 0x5cb0a9dc, 0x76f988da,
    0x983e5152, 0xa831c66d, 0xb00327c8, 0xbf597fc7, 0xc6e00bf3, 0xd5a79147, 0x06ca6351, 0x14292967]

  const K32: seq<word> := [
    0x27b70a85, 0x2e1b2138, 0x4d2c6dfc, 0x53380d13, 0x650a7354, 0x766a0abb, 0x81c2c92e, 0x92722c85,
    0xa2bfe8a1, 0xa81a664b, 0xc24b8b70, 0xc76c51a3, 0xd192e819, 0xd6990624, 0xf40e3585, 0x106aa070]

  const K48: seq<word> := [
    0x19a4c116, 0x1e376c08, 0x2748774c, 0x34b0bcb5, 0x391c0cb3, 0x4ed8aa4a, 0x5b9cca4f, 0x682e6ff3,
    0x748f82ee, 0x78a5636f, 0x84c87814, 0x8cc70208, 0x90befffa, 0xa4506ceb, 0xbef9a3f7, 0xc67178f2]

  const H0: seq<word> := [0x6a09e667, 0xbb67ae85, 0x3c6ef372, 0xa54ff53a, 0x510e527f, 0x9b05688c, 0x1f83d9ab, 0x5be0cd19]

  // ----- section 3.1: words are big-endian -----

  function Word(b0: byte, b1: byte, b2: byte, b3: byte): word {
    ((b0 as word) << 24) | ((b1 as word) << 16) | ((b2 as word) << 8) | (b3 as word)
  }

  function WordBytes(w: word): seq<byte> {
    [((w >> 24) & 0xff) as byte, ((w >> 16) & 0xff) as byte, ((w >> 8) & 0xff) as byte, (w & 0xff) as byte]
  }

  function BlockWord(block: seq<byte>, t: nat): word
    requires |block| == 64 && t < 16
  {
    Word(block[4 * t], block[4 * t + 1], block[4 * t + 2], block[4 * t + 3])
  }

  /** The sixteen words of a block. */
  function Decoded(block: seq<byte>): (r: seq<word>)
    requires |block| == 64
    ensures |r| == 16
  {
    seq(16, t requires 0 <= t < 16 => BlockWord(block, t))
  }

  // ----- section 6.2.2 -----

  const STD: Ops<word> :=
    Ops((x, y) => x + y, (h, s, c, k, w) => h + s + c + k + w, Sigma0, Sigma1, Small0, Small1, Ch, Maj)

  /** One block; a state has eight words. */
  function CompressBlock(s: seq<word>, block: seq<byte>): seq<word> {
    if |s| == 8 && |block| == 64 then Compress(STD, K, s, Decoded(block)) else s
  }

  // ----- section 5.1.1 -----

  /** A number in eight bytes, most significant first; the length of a message is taken mod 2^64. */
  function LengthBytes(n: nat): (r: seq<byte>)
    requires n < TWO64
    ensures |r| == 8
  {
    [(n / 0x100_0000_0000_0000) as byte, ((n / 0x1_0000_0000_0000) % 256) as byte,
     ((n / 0x100_0000_0000) % 256) as byte, ((n / 0x1_0000_0000) % 256) as byte,
     ((n / 0x100_0000) % 256) as byte, ((n / 0x1_0000) % 256) as byte, ((n / 0x100) % 256) as byte, (n % 256) as byte]
  }

  function Encode(s: seq<word>): seq<byte> {
    if s == [] then [] else WordBytes(s[0]) + Encode(s[1..])
  }

  function Sha256(m: seq<byte>): seq<byte> {
    Encode(Absorb(CompressBlock, H0, Padded(m, LengthBytes(8 * |m| % TWO64))))
  }
}
