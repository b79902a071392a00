/** The streaming SHA-256 of scripts/mkhash.c: whatever the chunks, the digest is that of FIPS 180-4
    on the whole message. */
module Sha256 {
  import opened Words
  import opened ShaRounds
  import opened Sha256Spec
  import opened Streams

  // ----- the macros -----

  const CODE: Ops<word> :=
    Ops((x, y) => x + y, (h, s, c, k, w) => h + (s + c + w + k), Sigma0Code, Sigma1Code, Small0Code, Small1Code, ChCode, MajCode)

  lemma CodeAgrees()
    ensures Agree(STD, CODE)
  {
    forall h: word, s: word, c: word, k: word, w: word ensures STD.sum(h, s, c, k, w) == CODE.sum(h, s, c, k, w) {
      AddRegroup(h, s, c, w, k);
    }
    forall x: word
      ensures STD.sigma0(x) == CODE.sigma0(x) && STD.sigma1(x) == CODE.sigma1(x)
      ensures STD.small0(x) == CODE.small0(x) && STD.small1(x) == CODE.small1(x)
    {
      SigmasAgree(x);
    }
    forall x: word, y: word, z: word ensures STD.ch(x, y, z) == CODE.ch(x, y, z) && STD.maj(x, y, z) == CODE.maj(x, y, z) {
      ChIsCh(x, y, z);
      MajIsMaj(x, y, z);
    }
  }

  /** be32dec, by way of two be16dec. */
  function Be32Dec(p0: byte, p1: byte, p2: byte, p3: byte): word {
    ((((p0 as word) << 8) | (p1 as word)) << 16) | (((p2 as word) << 8) | (p3 as word))
  }

  lemma Be32DecIsWord(p0: byte, p1: byte, p2: byte, p3: byte)
    ensures Be32Dec(p0, p1, p2, p3) == Word(p0, p1, p2, p3)
  {
  }

  /** be32dec_vect. */
  method DecodeBlock(block: seq<byte>) returns (M: seq<word>)
    requires |block| == 64
    ensures M == Decoded(block)
  {
    M := [];
    for t := 0 to 16
      invariant |M| == t && forall k | 0 <= k < t :: M[k] == BlockWord(block, k)
    {
      Be32DecIsWord(block[4 * t], block[4 * t + 1], block[4 * t + 2], block[4 * t + 3]);
      M := M + [Be32Dec(block[4 * t], block[4 * t + 1], block[4 * t + 2], block[4 * t + 3])];
    }
  }

  // ----- SHA256_CTX -----

  /** `f` does to a state what SHA256_Transform does. */
  ghost predicate Follows(f: (seq<word>, seq<byte>) -> seq<word>) {
    forall s: seq<word>, block: seq<byte> {:trigger f(s, block), Decoded(block)} | |s| == 8 && |block| == 64 ::
      f(s, block) == Compress(CODE, K, s, Decoded(block))
  }

  lemma StandardFollows()
    ensures Follows(CompressBlock)
  {
    CodeAgrees();
    forall s: seq<word>, block: seq<byte> | |s| == 8 && |block| == 64
      ensures CompressBlock(s, block) == Compress(CODE, K, s, Decoded(block))
    {
      CompressAgree(STD, CODE, K, s, Decoded(block));
    }
  }

  type Step = f: (seq<word>, seq<byte>) -> seq<word> | Follows(f) ghost witness (StandardFollows(); CompressBlock)

  class Context {
    const state: array<word>
    const buf: array<byte>
    var count: nat
    ghost const f: Step            // the compression function and
    ghost const init: seq<word>    // the initial value this is proved against

    ghost predicate Valid() {
      state.Length == 8 && buf.Length == 64
    }

    /** The bytes `m` have been added since SHA256_Init. */
    ghost predicate Holds(m: seq<byte>)
      requires Valid()
      reads this, state, buf
    {
      && count == 8 * |m| % TWO64
      && state[..] == Absorb(f, init, Full(m))
      && buf[..|m| % 64] == Tail(m)
    }

    /** SHA256_Init. */
    constructor ()
      ensures Valid() && Holds([]) && fresh(state) && fresh(buf) && f == CompressBlock && init == H0
    {
      StandardFollows();
      f := CompressBlock;
      init := H0;
      state := new word[8];
      buf := new byte[64];
      count := 0;
      new;
      state[0], state[1], state[2], state[3] := 0x6A09E667, 0xBB67AE85, 0x3C6EF372, 0xA54FF53A;
      state[4], state[5], state[6], state[7] := 0x510E527F, 0x9B05688C, 0x1F83D9AB, 0x5BE0CD19;
      assert state[..] == H0;
    }

    /** SHA256_Transform(ctx->state, block). */
    method TransformBlock(block: seq<byte>)
      requires Valid() && |block| == 64
      modifies state
      ensures state[..] == f(old(state[..]), block)
    {
      var M := DecodeBlock(block);
      Transform(CODE, K, state, M);
    }

    /** SHA256_Update: the ghost `m` is what was added before. */
    method Update(data: seq<byte>, ghost m: seq<byte>)
      requires Valid() && Holds(m)
      modifies this, state, buf
      ensures Holds(m + data)
    {
      CountRest(|m|);
      CountAdds(|m|, |data|);
      var r := count / 8 % 64;
      count := (count + 8 * |data| % TWO64) % TWO64;
      ghost var b0 := buf[..];
      if |data| < 64 - r {
        Fill(buf, r, data);
        Overwritten(b0, r, data, buf[..]);
        StillFits(m, data);
      } else {
        Fill(buf, r, data[..64 - r]);
        Overwritten(b0, r, data[..64 - r], buf[..]);
        FinishBlocks(data, 64 - r, m);
      }
    }

    /** The buffer has been filled up: it is absorbed, and whole blocks follow. */
    method FinishBlocks(data: seq<byte>, from: nat, ghost m: seq<byte>)
      requires Valid() && from <= |data| && |Tail(m)| + from == 64
      requires state[..] == Absorb(f, init, Full(m)) && buf[..] == Tail(m) + data[..from]
      modifies state, buf
      ensures state[..] == Absorb(f, init, Full(m + data)) && buf[..|m + data| % 64] == Tail(m + data)
    {
      AbsorbBlock(f, init, Full(m), buf[..]);
      ghost var x0 := Full(m) + buf[..];
      TransformBlock(buf[..]);
      ghost var x;
      var pos;
      pos, x := CompleteBlocks(data, from, x0);
      Refilled(m, data, from, pos, x);
      ghost var b0 := buf[..];
      Fill(buf, 0, data[pos..]);
      Overwritten(b0, 0, data[pos..], buf[..]);
      assert b0[..0] + data[pos..] == data[pos..];
    }

    /** The whole blocks of what is left. */
    method CompleteBlocks(data: seq<byte>, from: nat, ghost x0: seq<byte>) returns (pos: nat, ghost x: seq<byte>)
      requires Valid() && from <= |data| && |x0| % 64 == 0 && state[..] == Absorb(f, init, x0)
      modifies state
      ensures from <= pos <= |data| < pos + 64 && x == x0 + data[from..pos]
      ensures |x| % 64 == 0 && state[..] == Absorb(f, init, x)
    {
      pos := from;
      x := x0 + data[from..pos];
      assert x == x0;
      while |data| - pos >= 64
        invariant from <= pos <= |data| && x == x0 + data[from..pos]
        invariant |x| % 64 == 0 && state[..] == Absorb(f, init, x)
      {
        AbsorbBlock(f, init, x, data[pos..pos + 64]);
        Extend(x0, data, from, pos, pos + 64);
        TransformBlock(data[pos..pos + 64]);
        x := x + data[pos..pos + 64];
        pos := pos + 64;
      }
    }

    /** SHA256_Pad. */
    method Pad(ghost m: seq<byte>)
      requires Valid() && Holds(m)
      modifies state, buf
      ensures state[..] == Absorb(f, init, Padded(m, LengthBytes(count)))
    {
      ghost var x := PadTo56(m, LengthBytes(count));
      Be64IsLength(count);
      ghost var b0 := buf[..];
      Fill(buf, 56, Be64(count));
      Overwritten(b0, 56, Be64(count), buf[..]);
      AbsorbBlock(f, init, x, buf[..]);
      TransformBlock(buf[..]);
    }

    /** Padding as far as the length bytes, by way of one more block when they do not fit. */
    method PadTo56(ghost m: seq<byte>, ghost length: seq<byte>) returns (ghost x: seq<byte>)
      requires Valid() && Holds(m) && |length| == 8
      modifies state, buf
      ensures |x| % 64 == 0 && state[..] == Absorb(f, init, x)
      ensures Padded(m, length) == x + (buf[..56] + length)
    {
      CountRest(|m|);
      var r := count / 8 % 64;
      x := Full(m);
      if r < 56 {
        PaddedOne(m, length);
        FillPad(buf, r, 56, Tail(m));
      } else {
        PaddedTwo(m, length);
        x := x + (Tail(m) + [0x80] + Zeros(63 - r));
        FinishPadded(r, m);
      }
    }

    /** The buffer is padded to its end and absorbed, and cleared for the block that carries the length. */
    method FinishPadded(r: nat, ghost m: seq<byte>)
      requires Valid() && Holds(m) && r == |m| % 64
      modifies state, buf
      ensures state[..] == Absorb(f, init, Full(m) + (Tail(m) + [0x80] + Zeros(63 - r))) && buf[..56] == Zeros(56)
    {
      FillPad(buf, r, 64, Tail(m));
      assert buf[..64] == buf[..];
      AbsorbBlock(f, init, Full(m), buf[..]);
      TransformBlock(buf[..]);
      ClearStart();
    }

    /** The first 56 bytes become 0. */
    method ClearStart()
      requires Valid()
      modifies buf
      ensures buf[..56] == Zeros(56)
    {
      ghost var b0 := buf[..];
      Fill(buf, 0, Zeros(56));
      Overwritten(b0, 0, Zeros(56), buf[..]);
      assert b0[..0] + Zeros(56) == Zeros(56);
    }

    /** SHA256_Final. */
    method Final(ghost m: seq<byte>) returns (digest: seq<byte>)
      requires Valid() && Holds(m) && f == CompressBlock && init == H0
      modifies this, state, buf
      ensures digest == Sha256Spec.Sha256(m)
      ensures count == 0 && (forall i | 0 <= i < 8 :: state[i] == 0) && forall i | 0 <= i < 64 :: buf[i] == 0
    {
      Pad(m);
      digest := EncodeState();
      Wipe();
    }

    /** memset(ctx, 0, sizeof(*ctx)). */
    method Wipe()
      requires Valid()
      modifies this, state, buf
      ensures count == 0 && (forall i | 0 <= i < 8 :: state[i] == 0) && forall i | 0 <= i < 64 :: buf[i] == 0
    {
      count := 0;
      for i := 0 to 8
        invariant count == 0 && forall k | 0 <= k < i :: state[k] == 0
      {
        state[i] := 0;
      }
      ClearBytes(buf);
    }

    /** be32enc_vect(digest, ctx->state, 32). */
    method EncodeState() returns (digest: seq<byte>)
      requires Valid()
      ensures digest == Encode(state[..])
    {
      digest := [];
      ghost var s := state[..];
      for i := 0 to 8
        invariant state[..] == s && digest == Encode(s[..i])
      {
        EncodeSnoc(s[..i], s[i]);
        assert s[..i + 1] == s[..i] + [s[i]];
        digest := digest + WordBytes(state[i]);
      }
      assert s[..8] == s;
    }
  }

  function Be32(u: nat): seq<byte> {
    [(u / 0x100_0000 % 256) as byte, (u / 0x1_0000 % 256) as byte, (u / 0x100 % 256) as byte, (u % 256) as byte]
  }

  /** be64enc. */
  function Be64(u: nat): (r: seq<byte>)
    ensures |r| == 8
  {
    Be32(u / 0x1_0000_0000) + Be32(u % 0x1_0000_0000)
  }

  lemma Be64IsLength(n: nat)
    requires n < TWO64
    ensures Be64(n) == LengthBytes(n)
  {
    UpperHalf(n);
    LowerHalf(n);
  }

  lemma UpperHalf(n: nat)
    requires n < TWO64
    ensures n / 0x1_0000_0000 / 0x100_0000 % 256 == n / 0x100_0000_0000_0000
    ensures n / 0x1_0000_0000 / 0x1_0000 % 256 == n / 0x1_0000_0000_0000 % 256
    ensures n / 0x1_0000_0000 / 0x100 % 256 == n / 0x100_0000_0000 % 256
  {
  }

  lemma LowerHalf(n: nat)
    requires n < TWO64
    ensures n % 0x1_0000_0000 / 0x100_0000 % 256 == n / 0x100_0000 % 256
    ensures n % 0x1_0000_0000 / 0x1_0000 % 256 == n / 0x1_0000 % 256
    ensures n % 0x1_0000_0000 / 0x100 % 256 == n / 0x100 % 256
    ensures n % 0x1_0000_0000 % 256 == n % 256
  {
    var h, l := n / 0x1_0000_0000, n % 0x1_0000_0000;
    assert n / 0x100_0000 == h * 256 + l / 0x100_0000;
    assert n / 0x1_0000 == h * 0x1_0000 + l / 0x1_0000;
    assert n / 0x100 == h * 0x100_0000 + l / 0x100;
    ModPast(l / 0x100_0000, h);
    ModPast(l / 0x1_0000, h * 0x100);
    ModPast(l / 0x100, h * 0x1_0000);
    ModPast(l, h * 0x100_0000);
  }

  lemma {:induction false} EncodeSnoc(s: seq<word>, w: word)
    ensures Encode(s + [w]) == Encode(s) + WordBytes(w)
  {
    if s == [] {
      assert [w][1..] == [];
    } else {
      assert (s + [w])[1..] == s[1..] + [w];
      EncodeSnoc(s[1..], w);
    }
  }

  /** sha256_hash: the digest does not depend on how the message is cut into chunks. */
  method HashChunks(chunks: seq<seq<byte>>) returns (digest: seq<byte>)
    ensures digest == Sha256Spec.Sha256(Flatten(chunks))
  {
    var ctx := new Context();
    ghost var m := [];
    for i := 0 to |chunks|
      invariant ctx.Valid() && fresh(ctx) && fresh(ctx.state) && fresh(ctx.buf)
      invariant m == Flatten(chunks[..i]) && ctx.Holds(m)
    {
      FlattenNext(chunks, i);
      ctx.Update(chunks[i], m);
      m := m + chunks[i];
    }
    assert chunks[..|chunks|] == chunks;
    digest := ctx.Final(m);
  }
}
