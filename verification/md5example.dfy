/** The example of RFC 1321, appendix A.5: the digest of the text abc, worked out in full. It fixes the constants, the
    functions and the padding that the definition of MD5 is made of. */
module Md5Example {
  import opened Words
  import opened Md5Rounds
  import opened Md5Spec
  import opened Streams

  // ----- four operations, for any words -----

  /** The amounts a round shifts by, in turn. */
  datatype Shifts = Shifts(s0: nat, s1: nat, s2: nat, s3: nat)

  /** One operation of round `f`, with constant `k`, word `x` and shift `s`. */
  function One<T>(o: Md5Ops<T>, f: nat, k: T, x: T, s: nat, r: Regs<T>): Regs<T> {
    Regs(r.d, o.add(r.b, o.rotl(o.sum(r.a, o.fun(f, r.b, r.c, r.d), x, k), s)), r.b, r.c)
  }

  /** Four, from the `j`-th constant and word on. */
  function Four<T>(o: Md5Ops<T>, f: nat, k: seq<T>, x: seq<T>, s: Shifts, r: Regs<T>, j: nat): Regs<T>
    requires |k| == |x| == 16 && j + 4 <= 16
  {
    One(o, f, k[j + 3], x[j + 3], s.s3, One(o, f, k[j + 2], x[j + 2], s.s2, One(o, f, k[j + 1], x[j + 1], s.s1, One(o, f, k[j], x[j], s.s0, r))))
  }

  /** A constant, a word and a shift are those of operation `i`. */
  predicate Fits<T(==)>(K: seq<T>, X: seq<T>, f: nat, k: T, x: T, s: nat, i: nat) {
    |K| == 64 && |X| == 16 && i < 64 && i / 16 == f && k == K[i] && x == X[WordIndex(i)] && s == ShiftBy(i)
  }

  lemma OneMore<T>(o: Md5Ops<T>, K: seq<T>, X: seq<T>, f: nat, k: T, x: T, s: nat, r0: Regs<T>, r: Regs<T>, i: nat)
    requires Fits(K, X, f, k, x, s, i) && r == Operations(o, K, X, r0, i)
    ensures One(o, f, k, x, s, r) == Operations(o, K, X, r0, i + 1)
  {
  }

  predicate FourFit<T(==)>(K: seq<T>, X: seq<T>, f: nat, k: seq<T>, x: seq<T>, s: Shifts, j: nat, i: nat)
    requires |k| == |x| == 16 && j + 4 <= 16
  {
    && Fits(K, X, f, k[j], x[j], s.s0, i) && Fits(K, X, f, k[j + 1], x[j + 1], s.s1, i + 1)
    && Fits(K, X, f, k[j + 2], x[j + 2], s.s2, i + 2) && Fits(K, X, f, k[j + 3], x[j + 3], s.s3, i + 3)
  }

  lemma FourAre<T>(o: Md5Ops<T>, K: seq<T>, X: seq<T>, f: nat, k: seq<T>, x: seq<T>, s: Shifts, r0: Regs<T>, r: Regs<T>, j: nat, i: nat)
    requires |k| == |x| == 16 && j + 4 <= 16 && FourFit(K, X, f, k, x, s, j, i) && r == Operations(o, K, X, r0, i)
    ensures Four(o, f, k, x, s, r, j) == Operations(o, K, X, r0, i + 4)
  {
    var r1 := One(o, f, k[j], x[j], s.s0, r);
    var r2 := One(o, f, k[j + 1], x[j + 1], s.s1, r1);
    var r3 := One(o, f, k[j + 2], x[j + 2], s.s2, r2);
    OneMore(o, K, X, f, k[j], x[j], s.s0, r0, r, i);
    OneMore(o, K, X, f, k[j + 1], x[j + 1], s.s1, r0, r1, i + 1);
    OneMore(o, K, X, f, k[j + 2], x[j + 2], s.s2, r0, r2, i + 2);
    OneMore(o, K, X, f, k[j + 3], x[j + 3], s.s3, r0, r3, i + 3);
  }

  ghost predicate Uses<T>(K: seq<T>, X: seq<T>, f: nat, k: seq<T>, x: seq<T>, s: Shifts, i: nat) {
    && |k| == |x| == 16 && FourFit(K, X, f, k, x, s, 0, i) && FourFit(K, X, f, k, x, s, 4, i + 4)
    && FourFit(K, X, f, k, x, s, 8, i + 8) && FourFit(K, X, f, k, x, s, 12, i + 12)
  }

  /** A round that leads from the variables `rs[0]` over `rs[1]`, `rs[2]` and `rs[3]` to `rs[4]`. */
  ghost predicate Leads<T>(o: Md5Ops<T>, f: nat, k: seq<T>, x: seq<T>, s: Shifts, rs: seq<Regs<T>>) {
    && |k| == |x| == 16 && |rs| == 5
    && Four(o, f, k, x, s, rs[0], 0) == rs[1] && Four(o, f, k, x, s, rs[1], 4) == rs[2]
    && Four(o, f, k, x, s, rs[2], 8) == rs[3] && Four(o, f, k, x, s, rs[3], 12) == rs[4]
  }

  lemma RoundIs<T>(o: Md5Ops<T>, K: seq<T>, X: seq<T>, f: nat, k: seq<T>, x: seq<T>, s: Shifts, r: Regs<T>, rs: seq<Regs<T>>, i: nat)
    requires Uses(K, X, f, k, x, s, i) && Leads(o, f, k, x, s, rs) && Operations(o, K, X, r, i) == rs[0]
    ensures Operations(o, K, X, r, i + 16) == rs[4]
  {
    FourAre(o, K, X, f, k, x, s, r, rs[0], 0, i);
    FourAre(o, K, X, f, k, x, s, r, rs[1], 4, i + 4);
    FourAre(o, K, X, f, k, x, s, r, rs[2], 8, i + 8);
    FourAre(o, K, X, f, k, x, s, r, rs[3], 12, i + 12);
  }

  // ----- the example: the words of the block in the order of each round, and the variables after every four operations -----

  const WORDS: seq<word> := [
    0x80636261, 0x00000000, 0x00000000, 0x00000000, 0x00000000, 0x00000000, 0x00000000, 0x00000000,
    0x00000000, 0x00000000, 0x00000000, 0x00000000, 0x00000000, 0x00000000, 0x00000018, 0x00000000]

  const WORDS16: seq<word> := [
    WORDS[1], WORDS[6], WORDS[11], WORDS[0], WORDS[5], WORDS[10], WORDS[15], WORDS[4],
    WORDS[9], WORDS[14], WORDS[3], WORDS[8], WORDS[13], WORDS[2], WORDS[7], WORDS[12]]

  const WORDS32: seq<word> := [
    WORDS[5], WORDS[8], WORDS[11], WORDS[14], WORDS[1], WORDS[4], WORDS[7], WORDS[10],
    WORDS[13], WORDS[0], WORDS[3], WORDS[6], WORDS[9], WORDS[12], WORDS[15], WORDS[2]]

  const WORDS48: seq<word> := [
    WORDS[0], WORDS[7], WORDS[14], WORDS[5], WORDS[12], WORDS[3], WORDS[10], WORDS[1],
    WORDS[8], WORDS[15], WORDS[6], WORDS[13], WORDS[4], WORDS[11], WORDS[2], WORDS[9]]

  const REGS0: seq<Regs<word>> := [
    Regs(0x67452301, 0xefcdab89, 0x98badcfe, 0x10325476),
    Regs(0xd6d117b4, 0x7ad956f2, 0x2f6fbd72, 0x344a8432),
    Regs(0xc73741ef, 0x928d99f6, 0x207dc67b, 0x8bac3051),
    Regs(0x854b3712, 0x5ed49596, 0x3020401c, 0x74e2f284),
    Regs(0xdda9b9a6, 0x72aff2e0, 0xe396856b, 0xa1051895)]

  const REGS16: seq<Regs<word>> := [
    Regs(0xdda9b9a6, 0x72aff2e0, 0xe396856b, 0xa1051895),
    Regs(0x3e9e9126, 0xb5b204e4, 0xe25e1652, 0x4a1d804e),
    Regs(0x59a8ffda, 0x47092c07, 0xabfc7920, 0x6d002f1e),
    Regs(0xb7f268cf, 0x786acb8f, 0xfe1623b1, 0x09388eff),
    Regs(0x790a77fb, 0x726342d3, 0xa62884aa, 0x9f47e4f8)]

  const REGS32: seq<Regs<word>> := [
    Regs(0x790a77fb, 0x726342d3, 0xa62884aa, 0x9f47e4f8),
    Regs(0xb3707ebf, 0x3b0875c7, 0x8d212ff5, 0x60127b2e),
    Regs(0x21b117b9, 0x5a2f5ea5, 0x3575227e, 0x6e7429d5),
    Regs(0x11de1779, 0x4c6124f4, 0x31c465ca, 0xfadcaa38),
    Regs(0x7f2e507b, 0x7beb9700, 0x8fae6399, 0x99d9679d)]

  const REGS48: seq<Regs<word>> := [
    Regs(0x7f2e507b, 0x7beb9700, 0x8fae6399, 0x99d9679d),
    Regs(0x7b201df8, 0x8bf025c4, 0xb298cefd, 0xf4e8e96e),
    Regs(0x06cc5e8a, 0x3bfa2c27, 0x7d632dd0, 0x5b0d97aa),
    Regs(0x7f81cc35, 0x7327d604, 0x4f9dbe3f, 0x094454ab),
    Regs(0x310ade8f, 0xc08226b3, 0xe484b9d8, 0x624d8cb2)]

  lemma FirstHalf()
    ensures Four(MD5, 0, T0, WORDS, Shifts(7, 12, 17, 22), REGS0[0], 0) == REGS0[1]
    ensures Four(MD5, 0, T0, WORDS, Shifts(7, 12, 17, 22), REGS0[1], 4) == REGS0[2]
  {
  }

  lemma FirstRound()
    ensures Leads(MD5, 0, T0, WORDS, Shifts(7, 12, 17, 22), REGS0)
  {
    FirstHalf();
  }

  lemma SecondRound()
    ensures Leads(MD5, 1, T16, WORDS16, Shifts(5, 9, 14, 20), REGS16)
  {
  }

  lemma ThirdRound()
    ensures Leads(MD5, 2, T32, WORDS32, Shifts(4, 11, 16, 23), REGS32)
  {
  }

  lemma FourthRound()
    ensures Leads(MD5, 3, T48, WORDS48, Shifts(6, 10, 15, 21), REGS48)
  {
  }

  lemma FirstStart()
    ensures FourFit(T, WORDS, 0, T0, WORDS, Shifts(7, 12, 17, 22), 0, 0) && FourFit(T, WORDS, 0, T0, WORDS, Shifts(7, 12, 17, 22), 4, 4)
  {
  }

  lemma FirstEnd()
    ensures FourFit(T, WORDS, 0, T0, WORDS, Shifts(7, 12, 17, 22), 8, 8) && FourFit(T, WORDS, 0, T0, WORDS, Shifts(7, 12, 17, 22), 12, 12)
  {
  }

  lemma SecondStart()
    ensures FourFit(T, WORDS, 1, T16, WORDS16, Shifts(5, 9, 14, 20), 0, 16) && FourFit(T, WORDS, 1, T16, WORDS16, Shifts(5, 9, 14, 20), 4, 20)
  {
  }

  lemma SecondEnd()
    ensures FourFit(T, WORDS, 1, T16, WORDS16, Shifts(5, 9, 14, 20), 8, 24) && FourFit(T, WORDS, 1, T16, WORDS16, Shifts(5, 9, 14, 20), 12, 28)
  {
  }

  lemma ThirdStart()
    ensures FourFit(T, WORDS, 2, T32, WORDS32, Shifts(4, 11, 16, 23), 0, 32) && FourFit(T, WORDS, 2, T32, WORDS32, Shifts(4, 11, 16, 23), 4, 36)
  {
  }

  lemma ThirdEnd()
    ensures FourFit(T, WORDS, 2, T32, WORDS32, Shifts(4, 11, 16, 23), 8, 40) && FourFit(T, WORDS, 2, T32, WORDS32, Shifts(4, 11, 16, 23), 12, 44)
  {
  }

  lemma FourthStart()
    ensures FourFit(T, WORDS, 3, T48, WORDS48, Shifts(6, 10, 15, 21), 0, 48) && FourFit(T, WORDS, 3, T48, WORDS48, Shifts(6, 10, 15, 21), 4, 52)
  {
  }

  lemma FourthEnd()
    ensures FourFit(T, WORDS, 3, T48, WORDS48, Shifts(6, 10, 15, 21), 8, 56) && FourFit(T, WORDS, 3, T48, WORDS48, Shifts(6, 10, 15, 21), 12, 60)
  {
  }

  lemma FirstDone()
    ensures Operations(MD5, T, WORDS, REGS0[0], 16) == REGS0[4]
  {
    FirstRound();
    FirstStart();
    FirstEnd();
    RoundIs(MD5, T, WORDS, 0, T0, WORDS, Shifts(7, 12, 17, 22), REGS0[0], REGS0, 0);
  }

  lemma SecondDone()
    ensures Operations(MD5, T, WORDS, REGS0[0], 32) == REGS16[4]
  {
    FirstDone();
    SecondRound();
    SecondStart();
    SecondEnd();
    RoundIs(MD5, T, WORDS, 1, T16, WORDS16, Shifts(5, 9, 14, 20), REGS0[0], REGS16, 16);
  }

  lemma ThirdDone()
    ensures Operations(MD5, T, WORDS, REGS0[0], 48) == REGS32[4]
  {
    SecondDone();
    ThirdRound();
    ThirdStart();
    ThirdEnd();
    RoundIs(MD5, T, WORDS, 2, T32, WORDS32, Shifts(4, 11, 16, 23), REGS0[0], REGS32, 32);
  }

  lemma FourthDone()
    ensures Operations(MD5, T, WORDS, REGS0[0], 64) == REGS48[4]
  {
    ThirdDone();
    FourthRound();
    FourthStart();
    FourthEnd();
    RoundIs(MD5, T, WORDS, 3, T48, WORDS48, Shifts(6, 10, 15, 21), REGS0[0], REGS48, 48);
  }

  // ----- the message -----

  const ABC: seq<byte> := [0x61, 0x62, 0x63]

  /** The one block of the padded message. */
  lemma BlockBytes(block: seq<byte>)
    requires block == Padded(ABC, LengthBytes(24))
    ensures |block| == 64 && block[..4] == [0x61, 0x62, 0x63, 0x80] && block[56..] == [24, 0, 0, 0, 0, 0, 0, 0]
    ensures forall i | 4 <= i < 56 :: block[i] == 0
  {
    var length := LengthBytes(24);
    assert length == [24, 0, 0, 0, 0, 0, 0, 0];
    assert block == ABC + [0x80] + Zeros(52) + length;
    PaddedParts(block, length);
  }

  lemma PaddedParts(block: seq<byte>, length: seq<byte>)
    requires block == ABC + [0x80] + Zeros(52) + length && length == [24, 0, 0, 0, 0, 0, 0, 0]
    ensures |block| == 64 && block[..4] == [0x61, 0x62, 0x63, 0x80] && block[56..] == [24, 0, 0, 0, 0, 0, 0, 0]
    ensures forall i | 4 <= i < 56 :: block[i] == 0
  {
  }

  lemma BlockWords(block: seq<byte>)
    requires block == Padded(ABC, LengthBytes(24))
    ensures |block| == 64 && Decoded(block) == WORDS
  {
    BlockBytes(block);
    assert block[0] == block[..4][0] && block[1] == block[..4][1] && block[2] == block[..4][2] && block[3] == block[..4][3];
    forall i | 56 <= i < 64 ensures block[i] == block[56..][i - 56] {}
    assert Word(0x61, 0x62, 0x63, 0x80) == 0x80636261 && Word(24, 0, 0, 0) == 24 && Word(0, 0, 0, 0) == 0;
    forall t | 0 <= t < 16 ensures Decoded(block)[t] == WORDS[t] {}
  }

  const DIGEST: Regs<word> := Regs(0x98500190, 0xb04fd23c, 0x7d3f96d6, 0x727fe128)

  lemma SumIs()
    ensures INIT == REGS0[0] && AddRegs(MD5, REGS48[4], REGS0[0]) == DIGEST
  {
  }

  lemma StateIs(block: seq<byte>)
    requires block == Padded(ABC, LengthBytes(24))
    ensures |block| == 64 && MixBlock(INIT, block) == DIGEST
  {
    BlockWords(block);
    FourthDone();
    SumIs();
  }

  lemma ShortDigest(m: seq<byte>)
    requires |m| == 3
    ensures Digest(m) == Encode(MixBlock(INIT, Padded(m, LengthBytes(24))))
  {
    var block := Padded(m, LengthBytes(24));
    assert 8 * |m| % TWO64 == 24;
    OneBlock(MixBlock, INIT, block);
  }

  lemma DigestBytes()
    ensures Encode(DIGEST) == [0x90, 0x01, 0x50, 0x98, 0x3c, 0xd2, 0x4f, 0xb0, 0xd6, 0x96, 0x3f, 0x7d, 0x28, 0xe1, 0x7f, 0x72]
  {
  }

  /** The digest the standard gives. */
  lemma AbcDigest()
    ensures Digest(ABC) == [0x90, 0x01, 0x50, 0x98, 0x3c, 0xd2, 0x4f, 0xb0, 0xd6, 0x96, 0x3f, 0x7d, 0x28, 0xe1, 0x7f, 0x72]
  {
    ShortDigest(ABC);
    StateIs(Padded(ABC, LengthBytes(24)));
    DigestBytes();
  }
}
