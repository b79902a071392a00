/** The elementary functions of MD5 and SHA-256 on 32-bit words: as the standards define them and as
    scripts/mkhash.c writes them. */
module Words {
  type word = bv32

  // ----- FIPS 180-4, section 4.1.2 -----

  function Ch(x: word, y: word, z: word): word { (x & y) ^ (!x & z) }

  function Maj(x: word, y: word, z: word): word { (x & y) ^ (x & z) ^ (y & z) }

  function ChCode(x: word, y: word, z: word): word { (x & (y ^ z)) ^ z }

  function MajCode(x: word, y: word, z: word): word { (x & (y | z)) | (y & z) }

  lemma ChBits(x: word, y: word, z: word)
    ensures (x & (y ^ z)) ^ z == (x & y) ^ (!x & z)
  {
  }

  lemma ChIsCh(x: word, y: word, z: word)
    ensures ChCode(x, y, z) == Ch(x, y, z)
  {
    ChBits(x, y, z);
  }

  lemma MajBits(x: word, y: word, z: word)
    ensures (x & (y | z)) | (y & z) == (x & y) ^ (x & z) ^ (y & z)
  {
  }

  lemma MajIsMaj(x: word, y: word, z: word)
    ensures MajCode(x, y, z) == Maj(x, y, z)
  {
    MajBits(x, y, z);
  }

  function Sigma0(x: word): word { x.RotateRight(2) ^ x.RotateRight(13) ^ x.RotateRight(22) }

  function Sigma1(x: word): word { x.RotateRight(6) ^ x.RotateRight(11) ^ x.RotateRight(25) }

  function Small0(x: word): word { x.RotateRight(7) ^ x.RotateRight(18) ^ (x >> 3) }

  function Small1(x: word): word { x.RotateRight(17) ^ x.RotateRight(19) ^ (x >> 10) }

  // The rotations with ROTR written out.

  function Sigma0Code(x: word): word { ((x >> 2) | (x << 30)) ^ ((x >> 13) | (x << 19)) ^ ((x >> 22) | (x << 10)) }

  function Sigma1Code(x: word): word { ((x >> 6) | (x << 26)) ^ ((x >> 11) | (x << 21)) ^ ((x >> 25) | (x << 7)) }

  function Small0Code(x: word): word { ((x >> 7) | (x << 25)) ^ ((x >> 18) | (x << 14)) ^ (x >> 3) }

  function Small1Code(x: word): word { ((x >> 17) | (x << 15)) ^ ((x >> 19) | (x << 13)) ^ (x >> 10) }

  lemma SigmasAgree(x: word)
    ensures Sigma0Code(x) == Sigma0(x) && Sigma1Code(x) == Sigma1(x) && Small0Code(x) == Small0(x) && Small1Code(x) == Small1(x)
  {
  }

  /** Sums of words may be regrouped. */
  lemma AddRegroup(h: word, s: word, c: word, w: word, k: word)
    ensures h + (s + c + w + k) == h + s + c + k + w
  {
  }

  // ----- RFC 1321, section 3.4 -----

  function F(x: word, y: word, z: word): word { (x & y) | (!x & z) }

  function G(x: word, y: word, z: word): word { (x & z) | (y & !z) }

  function H(x: word, y: word, z: word): word { x ^ y ^ z }

  function I(x: word, y: word, z: word): word { y ^ (x | !z) }

  function FCode(x: word, y: word, z: word): word { z ^ (x & (y ^ z)) }

  function GCode(x: word, y: word, z: word): word { y ^ (z & (x ^ y)) }

  function H2Code(x: word, y: word, z: word): word { x ^ (y ^ z) }

  lemma FBits(x: word, y: word, z: word)
    ensures z ^ (x & (y ^ z)) == (x & y) | (!x & z)
  {
  }

  lemma FIsF(x: word, y: word, z: word)
    ensures FCode(x, y, z) == F(x, y, z)
  {
    FBits(x, y, z);
  }

  lemma GBits(x: word, y: word, z: word)
    ensures y ^ (z & (x ^ y)) == (x & z) | (y & !z)
  {
  }

  lemma GIsG(x: word, y: word, z: word)
    ensures GCode(x, y, z) == G(x, y, z)
  {
    GBits(x, y, z);
  }

  lemma H2CodeIsH(x: word, y: word, z: word)
    ensures H2Code(x, y, z) == H(x, y, z)
  {
  }

  /** Circular shift left, for the amounts MD5 uses. */
  function Rotl(x: word, s: nat): word {
    if s == 4 then x.RotateLeft(4)
    else if s == 5 then x.RotateLeft(5)
    else if s == 6 then x.RotateLeft(6)
    else if s == 7 then x.RotateLeft(7)
    else if s == 9 then x.RotateLeft(9)
    else if s == 10 then x.RotateLeft(10)
    else if s == 11 then x.RotateLeft(11)
    else if s == 12 then x.RotateLeft(12)
    else if s == 14 then x.RotateLeft(14)
    else if s == 15 then x.RotateLeft(15)
    else if s == 16 then x.RotateLeft(16)
    else if s == 17 then x.RotateLeft(17)
    else if s == 20 then x.RotateLeft(20)
    else if s == 21 then x.RotateLeft(21)
    else if s == 22 then x.RotateLeft(22)
    else x.RotateLeft(23)
  }

  /** The second line of STEP. */
  function RotlCode(x: word, s: nat): word {
    if s == 4 then (x << 4) | (x >> 28)
    else if s == 5 then (x << 5) | (x >> 27)
    else if s == 6 then (x << 6) | (x >> 26)
    else if s == 7 then (x << 7) | (x >> 25)
    else if s == 9 then (x << 9) | (x >> 23)
    else if s == 10 then (x << 10) | (x >> 22)
    else if s == 11 then (x << 11) | (x >> 21)
    else if s == 12 then (x << 12) | (x >> 20)
    else if s == 14 then (x << 14) | (x >> 18)
    else if s == 15 then (x << 15) | (x >> 17)
    else if s == 16 then (x << 16) | (x >> 16)
    else if s == 17 then (x << 17) | (x >> 15)
    else if s == 20 then (x << 20) | (x >> 12)
    else if s == 21 then (x << 21) | (x >> 11)
    else if s == 22 then (x << 22) | (x >> 10)
    else (x << 23) | (x >> 9)
  }

  lemma RotlAgrees(x: word, s: nat)
    ensures RotlCode(x, s) == Rotl(x, s)
  {
  }

  lemma AddOrder(a: word, f: word, x: word, t: word, b: word)
    ensures a + (f + x + t) == a + f + x + t && a + b == b + a
  {
  }
}
