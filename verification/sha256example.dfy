/** The example of FIPS 180-2, appendix B.1: the digest of the text abc, worked out in full. It fixes the constants, the
    functions and the padding that the definition of SHA-256 is made of. */
module Sha256Example {
  import opened Words
  import opened ShaRounds
  import opened Sha256Spec
  import opened Streams

  // ----- four words and four rounds at a time, for any words -----

  datatype Four<T> = Four(w0: T, w1: T, w2: T, w3: T)

  function NextWord<T>(o: Ops<T>, x2: T, x7: T, x15: T, x16: T): T { o.add(o.add(o.add(o.small1(x2), x7), o.small0(x15)), x16) }

  /** The four words of a schedule after the sixteen of `a`, `b`, `c` and `d`. */
  function NextFour<T>(o: Ops<T>, a: Four<T>, b: Four<T>, c: Four<T>, d: Four<T>): Four<T> {
    var x0, x1 := NextWord(o, d.w2, c.w1, a.w1, a.w0), NextWord(o, d.w3, c.w2, a.w2, a.w1);
    Four(x0, x1, NextWord(o, x0, c.w3, a.w3, a.w2), NextWord(o, x1, d.w0, b.w0, a.w3))
  }

  function Quad<T>(o: Ops<T>, v: Vars<T>, k: Four<T>, w: Four<T>): Vars<T> {
    Round(o, Round(o, Round(o, Round(o, v, k.w0, w.w0), k.w1, w.w1), k.w2, w.w2), k.w3, w.w3)
  }

  predicate WordsAt<T(==)>(o: Ops<T>, M: seq<T>, n: nat, w: Four<T>)
    requires |M| == 16
  {
    w == Four(W(o, M, n), W(o, M, n + 1), W(o, M, n + 2), W(o, M, n + 3))
  }

  predicate RowAt<T(==)>(K: seq<T>, n: nat, k: Four<T>) { n + 4 <= |K| && k == Four(K[n], K[n + 1], K[n + 2], K[n + 3]) }

  lemma WordIs<T>(o: Ops<T>, M: seq<T>, t: nat)
    requires |M| == 16 && t >= 16
    ensures W(o, M, t) == NextWord(o, W(o, M, t - 2), W(o, M, t - 7), W(o, M, t - 15), W(o, M, t - 16))
  {
  }

  lemma NextIs<T>(o: Ops<T>, M: seq<T>, n: nat, a: Four<T>, b: Four<T>, c: Four<T>, d: Four<T>, x: Four<T>)
    requires |M| == 16 && x == NextFour(o, a, b, c, d)
    requires WordsAt(o, M, n, a) && WordsAt(o, M, n + 4, b) && WordsAt(o, M, n + 8, c) && WordsAt(o, M, n + 12, d)
    ensures WordsAt(o, M, n + 16, x)
  {
    WordIs(o, M, n + 16);
    WordIs(o, M, n + 17);
    WordIs(o, M, n + 18);
    WordIs(o, M, n + 19);
  }

  lemma RoundIs<T>(o: Ops<T>, K: seq<T>, v: Vars<T>, M: seq<T>, n: nat)
    requires |M| == 16 && n < |K|
    ensures Rounds(o, K, v, M, n + 1) == Round(o, Rounds(o, K, v, M, n), K[n], W(o, M, n))
  {
  }

  lemma QuadIs<T>(o: Ops<T>, K: seq<T>, M: seq<T>, n: nat, k: Four<T>, w: Four<T>, v0: Vars<T>, v: Vars<T>, v': Vars<T>)
    requires |M| == 16 && RowAt(K, n, k) && WordsAt(o, M, n, w) && v == Rounds(o, K, v0, M, n) && v' == Quad(o, v, k, w)
    ensures v' == Rounds(o, K, v0, M, n + 4)
  {
    RoundIs(o, K, v0, M, n);
    RoundIs(o, K, v0, M, n + 1);
    RoundIs(o, K, v0, M, n + 2);
    RoundIs(o, K, v0, M, n + 3);
  }

  // ----- the example: the words, the constants, and the variables before every four rounds -----

  const W0: Four<word> := Four(0x61626380, 0x00000000, 0x00000000, 0x00000000)
  const W4: Four<word> := Four(0x00000000, 0x00000000, 0x00000000, 0x00000000)
  const W8: Four<word> := Four(0x00000000, 0x00000000, 0x00000000, 0x00000000)
  const W12: Four<word> := Four(0x00000000, 0x00000000, 0x00000000, 0x00000018)
  const W16: Four<word> := Four(0x61626380, 0x000f0000, 0x7da86405, 0x600003c6)
  const W20: Four<word> := Four(0x3e9d7b78, 0x0183fc00, 0x12dcbfdb, 0xe2e2c38e)
  const W24: Four<word> := Four(0xc8215c1a, 0xb73679a2, 0xe5bc3909, 0x32663c5b)
  const W28: Four<word> := Four(0x9d209d67, 0xec8726cb, 0x702138a4, 0xd3b7973b)
  const W32: Four<word> := Four(0x93f5997f, 0x3b68ba73, 0xaff4ffc1, 0xf10a5c62)
  const W36: Four<word> := Four(0x0a8b3996, 0x72af830a, 0x9409e33e, 0x24641522)
  const W40: Four<word> := Four(0x9f47bf94, 0xf0a64f5a, 0x3e246a79, 0x27333ba3)
  const W44: Four<word> := Four(0x0c4763f2, 0x840abf27, 0x7a290d5d, 0x065c43da)
  const W48: Four<word> := Four(0xfb3e89cb, 0xcc7617db, 0xb9e66c34, 0xa9993667)
  const W52: Four<word> := Four(0x84badedd, 0xc21462bc, 0x1487472c, 0xb20f7a99)
  const W56: Four<word> := Four(0xef57b9cd, 0xebe6b238, 0x9fe3095e, 0x78bc8d4b)
  const W60: Four<word> := Four(0xa43fcf15, 0x668b2ff8, 0xeeaba2cc, 0x12b1edeb)

  const R0: Four<word> := Four(0x428a2f98, 0x71374491, 0xb5c0fbcf, 0xe9b5dba5)
  const R4: Four<word> := Four(0x3956c25b, 0x59f111f1, 0x923f82a4, 0xab1c5ed5)
  const R8: Four<word> := Four(0xd807aa98, 0x12835b01, 0x243185be, 0x550c7dc3)
  const R12: Four<word> := Four(0x72be5d74, 0x80deb1fe, 0x9bdc06a7, 0xc19bf174)
  const R16: Four<word> := Four(0xe49b69c1, 0xefbe4786, 0x0fc19dc6, 0x240ca1cc)
  const R20: Four<word> := Four(0x2de92c6f, 0x4a7484aa, 0x5cb0a9dc, 0x76f988da)
  const R24: Four<word> := Four(0x983e5152, 0xa831c66d, 0xb00327c8, 0xbf597fc7)
  const R28: Four<word> := Four(0xc6e00bf3, 0xd5a79147, 0x06ca6351, 0x14292967)
  const R32: Four<word> := Four(0x27b70a85, 0x2e1b2138, 0x4d2c6dfc, 0x53380d13)
  const R36: Four<word> := Four(0x650a7354, 0x766a0abb, 0x81c2c92e, 0x92722c85)
  const R40: Four<word> := Four(0xa2bfe8a1, 0xa81a664b, 0xc24b8b70, 0xc76c51a3)
  const R44: Four<word> := Four(0xd192e819, 0xd6990624, 0xf40e3585, 0x106aa070)
  const R48: Four<word> := Four(0x19a4c116, 0x1e376c08, 0x2748774c, 0x34b0bcb5)
  const R52: Four<word> := Four(0x391c0cb3, 0x4ed8aa4a, 0x5b9cca4f, 0x682e6ff3)
  const R56: Four<word> := Four(0x748f82ee, 0x78a5636f, 0x84c87814, 0x8cc70208)
  const R60: Four<word> := Four(0x90befffa, 0xa4506ceb, 0xbef9a3f7, 0xc67178f2)

  const V0: Vars<word> := Vars(0x6a09e667, 0xbb67ae85, 0x3c6ef372, 0xa54ff53a, 0x510e527f, 0x9b05688c, 0x1f83d9ab, 0x5be0cd19)
  const V4: Vars<word> := Vars(0xd550f666, 0xc8c347a7, 0x5a6ad9ad, 0x5d6aebcd, 0x24e00850, 0xf92939eb, 0x78ce7989, 0xfa2a4622)
  const V8: Vars<word> := Vars(0x85a07b5f, 0xe5030380, 0x2b4209f5, 0x04409a6a, 0x0c657a79, 0x9b27a401, 0x714260ad, 0x43ada245)
  const V12: Vars<word> := Vars(0xf71fc5a9, 0x4798a3f4, 0x8c87346b, 0x8e04ecb9, 0x816fd6e9, 0x436b23e8, 0x1cc92596, 0x32ca2d8c)
  const V16: Vars<word> := Vars(0xb0fa238e, 0xc0645fde, 0xd932eb16, 0x87912990, 0x07590dcd, 0x0b92f20c, 0x745a48de, 0x1e578218)
  const V20: Vars<word> := Vars(0xe1f20c33, 0xfe777bbf, 0xc2fbd9d1, 0x21da9a9b, 0xb0638179, 0xcc899961, 0x846ee454, 0x8034229c)
  const V24: Vars<word> := Vars(0xc5d53d8d, 0xa7a3623f, 0xc2606d6d, 0x9dc68b63, 0xaa47c347, 0x49f5114a, 0xe1257970, 0x8ada8930)
  const V28: Vars<word> := Vars(0x77d37528, 0xb62ec4bc, 0xcde8037d, 0x1c2c2838, 0xedffbff8, 0xc74c6516, 0x14383d8e, 0x2823ef91)
  const V32: Vars<word> := Vars(0x73b33bf5, 0xea992a22, 0xa0060b30, 0x363482c9, 0xba591112, 0x0109ab3a, 0xade79437, 0x6112a3b7)
  const V36: Vars<word> := Vars(0x65a0cfe4, 0xa9a7738c, 0xfe604df5, 0x98e12507, 0xf4b002d6, 0x085f3833, 0x59249dd3, 0x9cd9f5f6)
  const V40: Vars<word> := Vars(0x79ea687a, 0x6dc57a8a, 0x34df1604, 0x41a65cb1, 0x1efbc0a0, 0xf0781bc8, 0xa507a53d, 0x0772a26b)
  const V44: Vars<word> := Vars(0x9d4baf93, 0x17aa0dfe, 0xdf46652f, 0xd6670766, 0xfda24c2e, 0xdecd4715, 0x838b2711, 0x26352d63)
  const V48: Vars<word> := Vars(0x4172328d, 0xa14c14b0, 0x72ab4b91, 0x26628815, 0xfecf0bc6, 0xd57b94a9, 0xb7755da1, 0xa80f11f0)
  const V52: Vars<word> := Vars(0x886e7a22, 0x7a0508a1, 0xf11bfaa8, 0x05757ceb, 0x49231c1e, 0x52f1ccf7, 0x6e5c390c, 0xbd714038)
  const V56: Vars<word> := Vars(0x38cc9913, 0x3ec45cdb, 0xf5702fdb, 0x101fd28f, 0x54cb266b, 0xe50e1b4f, 0x9f4787c3, 0x529e7d00)
  const V60: Vars<word> := Vars(0xb6ae8fff, 0xffb70472, 0xc062d46f, 0xfcd1887b, 0xb21bad3d, 0x6d83bfc6, 0x7e44008e, 0x9b5e906c)
  const V64: Vars<word> := Vars(0x506e3058, 0xd39a2165, 0x04d24d6c, 0xb85e2ce9, 0x5ef50f24, 0xfb121210, 0x948d25b6, 0x961f4894)

  lemma Words16()
    ensures NextFour(STD, W0, W4, W8, W12) == W16
    ensures NextFour(STD, W4, W8, W12, W16) == W20
    ensures NextFour(STD, W8, W12, W16, W20) == W24
    ensures NextFour(STD, W12, W16, W20, W24) == W28
  {
  }

  lemma Words32()
    ensures NextFour(STD, W16, W20, W24, W28) == W32
    ensures NextFour(STD, W20, W24, W28, W32) == W36
    ensures NextFour(STD, W24, W28, W32, W36) == W40
    ensures NextFour(STD, W28, W32, W36, W40) == W44
  {
  }

  lemma Words48()
    ensures NextFour(STD, W32, W36, W40, W44) == W48
    ensures NextFour(STD, W36, W40, W44, W48) == W52
    ensures NextFour(STD, W40, W44, W48, W52) == W56
    ensures NextFour(STD, W44, W48, W52, W56) == W60
  {
  }

  lemma Rows0()
    ensures RowAt(K, 0, R0) && RowAt(K, 4, R4) && RowAt(K, 8, R8) && RowAt(K, 12, R12)
  {
  }

  lemma Rows16()
    ensures RowAt(K, 16, R16) && RowAt(K, 20, R20) && RowAt(K, 24, R24) && RowAt(K, 28, R28)
  {
  }

  lemma Rows32()
    ensures RowAt(K, 32, R32) && RowAt(K, 36, R36) && RowAt(K, 40, R40) && RowAt(K, 44, R44)
  {
  }

  lemma Rows48()
    ensures RowAt(K, 48, R48) && RowAt(K, 52, R52) && RowAt(K, 56, R56) && RowAt(K, 60, R60)
  {
  }

  lemma Quads0()
    ensures Quad(STD, V0, R0, W0) == V4
    ensures Quad(STD, V4, R4, W4) == V8
    ensures Quad(STD, V8, R8, W8) == V12
    ensures Quad(STD, V12, R12, W12) == V16
  {
  }

  lemma Quads16()
    ensures Quad(STD, V16, R16, W16) == V20
    ensures Quad(STD, V20, R20, W20) == V24
    ensures Quad(STD, V24, R24, W24) == V28
    ensures Quad(STD, V28, R28, W28) == V32
  {
  }

  lemma Quads32()
    ensures Quad(STD, V32, R32, W32) == V36
    ensures Quad(STD, V36, R36, W36) == V40
    ensures Quad(STD, V40, R40, W40) == V44
    ensures Quad(STD, V44, R44, W44) == V48
  {
  }

  lemma Quads48()
    ensures Quad(STD, V48, R48, W48) == V52
    ensures Quad(STD, V52, R52, W52) == V56
    ensures Quad(STD, V56, R56, W56) == V60
    ensures Quad(STD, V60, R60, W60) == V64
  {
  }

  /** The words of `M` are those of the example from word `n` on, and so for fifteen more. */
  ghost predicate From(M: seq<word>, n: nat, a: Four<word>, b: Four<word>, c: Four<word>, d: Four<word>) {
    |M| == 16 && WordsAt(STD, M, n, a) && WordsAt(STD, M, n + 4, b) && WordsAt(STD, M, n + 8, c) && WordsAt(STD, M, n + 12, d)
  }

  lemma From16(M: seq<word>)
    requires From(M, 0, W0, W4, W8, W12)
    ensures From(M, 16, W16, W20, W24, W28)
  {
    Words16();
    NextIs(STD, M, 0, W0, W4, W8, W12, W16);
    NextIs(STD, M, 4, W4, W8, W12, W16, W20);
    NextIs(STD, M, 8, W8, W12, W16, W20, W24);
    NextIs(STD, M, 12, W12, W16, W20, W24, W28);
  }

  lemma From32(M: seq<word>)
    requires From(M, 16, W16, W20, W24, W28)
    ensures From(M, 32, W32, W36, W40, W44)
  {
    Words32();
    NextIs(STD, M, 16, W16, W20, W24, W28, W32);
    NextIs(STD, M, 20, W20, W24, W28, W32, W36);
    NextIs(STD, M, 24, W24, W28, W32, W36, W40);
    NextIs(STD, M, 28, W28, W32, W36, W40, W44);
  }

  lemma From48(M: seq<word>)
    requires From(M, 32, W32, W36, W40, W44)
    ensures From(M, 48, W48, W52, W56, W60)
  {
    Words48();
    NextIs(STD, M, 32, W32, W36, W40, W44, W48);
    NextIs(STD, M, 36, W36, W40, W44, W48, W52);
    NextIs(STD, M, 40, W40, W44, W48, W52, W56);
    NextIs(STD, M, 44, W44, W48, W52, W56, W60);
  }

  lemma Done16(M: seq<word>)
    requires From(M, 0, W0, W4, W8, W12) && Rounds(STD, K, V0, M, 0) == V0
    ensures Rounds(STD, K, V0, M, 16) == V16
  {
    Rows0();
    Quads0();
    QuadIs(STD, K, M, 0, R0, W0, V0, V0, V4);
    QuadIs(STD, K, M, 4, R4, W4, V0, V4, V8);
    QuadIs(STD, K, M, 8, R8, W8, V0, V8, V12);
    QuadIs(STD, K, M, 12, R12, W12, V0, V12, V16);
  }

  lemma Done32(M: seq<word>)
    requires From(M, 16, W16, W20, W24, W28) && Rounds(STD, K, V0, M, 16) == V16
    ensures Rounds(STD, K, V0, M, 32) == V32
  {
    Rows16();
    Quads16();
    QuadIs(STD, K, M, 16, R16, W16, V0, V16, V20);
    QuadIs(STD, K, M, 20, R20, W20, V0, V20, V24);
    QuadIs(STD, K, M, 24, R24, W24, V0, V24, V28);
    QuadIs(STD, K, M, 28, R28, W28, V0, V28, V32);
  }

  lemma Done48(M: seq<word>)
    requires From(M, 32, W32, W36, W40, W44) && Rounds(STD, K, V0, M, 32) == V32
    ensures Rounds(STD, K, V0, M, 48) == V48
  {
    Rows32();
    Quads32();
    QuadIs(STD, K, M, 32, R32, W32, V0, V32, V36);
    QuadIs(STD, K, M, 36, R36, W36, V0, V36, V40);
    QuadIs(STD, K, M, 40, R40, W40, V0, V40, V44);
    QuadIs(STD, K, M, 44, R44, W44, V0, V44, V48);
  }

  lemma Done64(M: seq<word>)
    requires From(M, 48, W48, W52, W56, W60) && Rounds(STD, K, V0, M, 48) == V48
    ensures Rounds(STD, K, V0, M, 64) == V64
  {
    Rows48();
    Quads48();
    QuadIs(STD, K, M, 48, R48, W48, V0, V48, V52);
    QuadIs(STD, K, M, 52, R52, W52, V0, V52, V56);
    QuadIs(STD, K, M, 56, R56, W56, V0, V56, V60);
    QuadIs(STD, K, M, 60, R60, W60, V0, V60, V64);
  }

  lemma AllRounds(M: seq<word>)
    requires From(M, 0, W0, W4, W8, W12)
    ensures Rounds(STD, K, V0, M, 64) == V64
  {
    From16(M);
    From32(M);
    From48(M);
    Done16(M);
    Done32(M);
    Done48(M);
    Done64(M);
  }

  // ----- the message -----

  const ABC: seq<byte> := [0x61, 0x62, 0x63]

  /** The one block of the padded message. */
  lemma BlockBytes(block: seq<byte>)
    requires block == Padded(ABC, LengthBytes(24))
    ensures |block| == 64 && block[..4] == [0x61, 0x62, 0x63, 0x80] && block[60..] == [0, 0, 0, 24]
    ensures forall i | 4 <= i < 60 :: block[i] == 0
  {
    var length := LengthBytes(24);
    assert length == [0, 0, 0, 0, 0, 0, 0, 24];
    assert block == ABC + [0x80] + Zeros(52) + length;
    PaddedParts(block, length);
  }

  lemma PaddedParts(block: seq<byte>, length: seq<byte>)
    requires block == ABC + [0x80] + Zeros(52) + length && length == [0, 0, 0, 0, 0, 0, 0, 24]
    ensures |block| == 64 && block[..4] == [0x61, 0x62, 0x63, 0x80] && block[60..] == [0, 0, 0, 24]
    ensures forall i | 4 <= i < 60 :: block[i] == 0
  {
  }

  lemma BlockWords(block: seq<byte>)
    requires block == Padded(ABC, LengthBytes(24))
    ensures |block| == 64 && From(Decoded(block), 0, W0, W4, W8, W12)
  {
    BlockBytes(block);
    assert block[0] == block[..4][0] && block[1] == block[..4][1] && block[2] == block[..4][2] && block[3] == block[..4][3];
    assert block[60] == block[60..][0] && block[61] == block[60..][1] && block[62] == block[60..][2] && block[63] == block[60..][3];
    assert Word(0x61, 0x62, 0x63, 0x80) == 0x61626380 && Word(0, 0, 0, 24) == 24 && Word(0, 0, 0, 0) == 0;
    forall t | 0 < t < 15 ensures Decoded(block)[t] == 0 {}
    assert Decoded(block)[0] == 0x61626380 && Decoded(block)[15] == 24;
  }

  const DIGEST: seq<word> := [0xba7816bf, 0x8f01cfea, 0x414140de, 0x5dae2223, 0xb00361a3, 0x96177a9c, 0xb410ff61, 0xf20015ad]

  lemma SumIs()
    ensures V0 == FromState(H0) && AddEach(STD, H0, ToState(V64)) == DIGEST
  {
  }

  lemma StateIs(block: seq<byte>)
    requires block == Padded(ABC, LengthBytes(24))
    ensures |block| == 64 && CompressBlock(H0, block) == DIGEST
  {
    BlockWords(block);
    AllRounds(Decoded(block));
    SumIs();
  }

  lemma ShortDigest(m: seq<byte>)
    requires |m| == 3
    ensures Sha256(m) == Encode(CompressBlock(H0, Padded(m, LengthBytes(24))))
  {
    var block := Padded(m, LengthBytes(24));
    assert 8 * |m| % TWO64 == 24;
    OneBlock(CompressBlock, H0, block);
  }

  lemma {:induction false} EncodeAppend(x: seq<word>, y: seq<word>)
    ensures Encode(x + y) == Encode(x) + Encode(y)
  {
    if x == [] {
      assert x + y == y;
    } else {
      assert (x + y)[1..] == x[1..] + y;
      EncodeAppend(x[1..], y);
    }
  }

  lemma OneWord(a: word)
    ensures Encode([a]) == WordBytes(a)
  {
    assert [a][1..] == [];
    assert WordBytes(a) + Encode([]) == WordBytes(a);
  }

  lemma FourWords(a: word, b: word, c: word, d: word)
    ensures Encode([a, b, c, d]) == WordBytes(a) + WordBytes(b) + WordBytes(c) + WordBytes(d)
  {
    OneWord(a);
    OneWord(b);
    OneWord(c);
    OneWord(d);
    EncodeAppend([a], [b]);
    EncodeAppend([a] + [b], [c]);
    EncodeAppend([a] + [b] + [c], [d]);
    assert [a, b, c, d] == [a] + [b] + [c] + [d];
  }

  const BYTES0: seq<byte> := [0xba, 0x78, 0x16, 0xbf, 0x8f, 0x01, 0xcf, 0xea, 0x41, 0x41, 0x40, 0xde, 0x5d, 0xae, 0x22, 0x23]

  const BYTES16: seq<byte> := [0xb0, 0x03, 0x61, 0xa3, 0x96, 0x17, 0x7a, 0x9c, 0xb4, 0x10, 0xff, 0x61, 0xf2, 0x00, 0x15, 0xad]

  lemma FirstBytes()
    ensures Encode([0xba7816bf, 0x8f01cfea, 0x414140de, 0x5dae2223]) == BYTES0
  {
    FourWords(0xba7816bf, 0x8f01cfea, 0x414140de, 0x5dae2223);
  }

  lemma LastBytes()
    ensures Encode([0xb00361a3, 0x96177a9c, 0xb410ff61, 0xf20015ad]) == BYTES16
  {
    FourWords(0xb00361a3, 0x96177a9c, 0xb410ff61, 0xf20015ad);
  }

  /** The digest the standard gives. */
  lemma AbcDigest()
    ensures Sha256(ABC) == BYTES0 + BYTES16
  {
    ShortDigest(ABC);
    StateIs(Padded(ABC, LengthBytes(24)));
    FirstBytes();
    LastBytes();
    assert DIGEST == [0xba7816bf, 0x8f01cfea, 0x414140de, 0x5dae2223] + [0xb00361a3, 0x96177a9c, 0xb410ff61, 0xf20015ad];
    EncodeAppend([0xba7816bf, 0x8f01cfea, 0x414140de, 0x5dae2223], [0xb00361a3, 0x96177a9c, 0xb410ff61, 0xf20015ad]);
  }
}
