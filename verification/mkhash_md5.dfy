/** The streaming MD5 of scripts/mkhash.c: whatever the chunks, the digest is that of RFC 1321 on the
    whole message. */
module Md5 {
  import opened Words
  import opened Streams
  import opened Md5Rounds
  import opened Md5Spec

  // ----- the macros -----

  function FunCode(f: nat, x: word, y: word, z: word): word {
    if f == 0 then FCode(x, y, z) else if f == 1 then GCode(x, y, z) else if f == 3 then I(x, y, z)
    else if f == 4 then H2Code(x, y, z) else H(x, y, z)
  }

  const CODE: Md5Ops<word> := Md5Ops((b, a) => a + b, (a, f, x, t) => a + (f + x + t), FunCode, RotlCode)

  lemma FunAgrees(f: nat, x: word, y: word, z: word)
    ensures f < 4 ==> FunCode(f, x, y, z) == Fun(f, x, y, z)
    ensures FunCode(4, x, y, z) == FunCode(2, x, y, z)
  {
    FIsF(x, y, z);
    GIsG(x, y, z);
    H2CodeIsH(x, y, z);
  }

  lemma CodeAgrees()
    ensures Md5Agree(MD5, CODE) && Md5Rounds.H2IsH(CODE)
  {
    forall x: word, y: word ensures MD5.add(x, y) == CODE.add(x, y) { AddOrder(x, x, x, x, y); }
    forall a: word, f: word, x: word, t: word ensures MD5.sum(a, f, x, t) == CODE.sum(a, f, x, t) { AddOrder(a, f, x, t, a); }
    forall f: nat, x: word, y: word, z: word | f < 4 ensures MD5.fun(f, x, y, z) == CODE.fun(f, x, y, z) { FunAgrees(f, x, y, z); }
    forall x: word, s: nat ensures MD5.rotl(x, s) == CODE.rotl(x, s) { RotlAgrees(x, s); }
    forall x: word, y: word, z: word ensures CODE.fun(4, x, y, z) == CODE.fun(2, x, y, z) { FunAgrees(4, x, y, z); }
  }

  /** SET and GET on a big-endian host: the sixteen words of a block. */
  method DecodeBlock(block: seq<byte>) returns (X: seq<word>)
    requires |block| == 64
    ensures X == Decoded(block)
  {
    X := [];
    for n := 0 to 16
      invariant |X| == n && forall k | 0 <= k < n :: X[k] == Decoded(block)[k]
    {
      X := X + [Word(block[n * 4], block[n * 4 + 1], block[n * 4 + 2], block[n * 4 + 3])];
    }
  }

  // ----- counting -----

  const TWO29 := 0x2000_0000
  const TWO32 := 0x1_0000_0000
  const TWO61 := 0x2000_0000_0000_0000

  /** hi * 2^29 + lo is the byte count mod 2^61. */
  ghost predicate Counts(lo: nat, hi: nat, n: nat) {
    lo < TWO29 && hi < TWO32 && hi * TWO29 + lo == n % TWO61
  }

  /** The low part alone tells how full the buffer is. */
  lemma LowRest(lo: nat, hi: nat, n: nat)
    requires Counts(lo, hi, n)
    ensures lo % 64 == n % 64
  {
  }

  /** The carry out of the low 29 bits shows as a smaller low part, for a chunk of any size. */
  lemma CountCarries(lo: nat, hi: nat, n: nat, size: nat)
    requires Counts(lo, hi, n)
    ensures var lo' := (lo + size) % TWO29;
      var hi' := (hi + (if lo' < lo then 1 else 0) + size / TWO29) % TWO32;
      Counts(lo', hi', n + size)
  {
    var q, r := size / TWO29, size % TWO29;
    var lo' := (lo + size) % TWO29;
    var carry := if lo' < lo then 1 else 0;
    assert size == q * TWO29 + r;
    Low(lo, q, r);
    var h := hi + carry + q;
    assert h * TWO29 + lo' == hi * TWO29 + lo + size;
    Wrap(h, lo', n, size, hi * TWO29 + lo);
  }

  lemma Low(lo: nat, q: nat, r: nat)
    requires lo < TWO29 && r < TWO29
    ensures (lo + (q * TWO29 + r)) % TWO29 == if lo + r < TWO29 then lo + r else lo + r - TWO29
  {
  }

  lemma Wrap(h: nat, lo': nat, n: nat, size: nat, c: nat)
    requires lo' < TWO29 && c == n % TWO61 && h * TWO29 + lo' == c + size
    ensures h % TWO32 * TWO29 + lo' == (n + size) % TWO61
  {
  }

  // ----- MD5_CTX -----

  ghost predicate Follows(f: (Regs<word>, seq<byte>) -> Regs<word>) {
    forall r: Regs<word>, block: seq<byte> {:trigger f(r, block), Decoded(block)} | |block| == 64 ::
      f(r, block) == Mixed(CODE, T, Decoded(block), r)
  }

  lemma StandardFollows()
    ensures Follows(MixBlock)
  {
    CodeAgrees();
    forall r: Regs<word>, block: seq<byte> | |block| == 64 ensures MixBlock(r, block) == Mixed(CODE, T, Decoded(block), r) {
      MixedAgree(MD5, CODE, T, Decoded(block), r);
    }
  }

  type BlockFunction = f: (Regs<word>, seq<byte>) -> Regs<word> | Follows(f) ghost witness (StandardFollows(); MixBlock)

  class Context {
    var lo: nat
    var hi: nat
    var regs: Regs<word>
    const buffer: array<byte>
    ghost const f: BlockFunction      // the block function and
    ghost const init: Regs<word>      // the initial value this is proved against

    ghost predicate Valid() { buffer.Length == 64 }

    /** The bytes `m` have been added since MD5_begin. */
    ghost predicate Holds(m: seq<byte>)
      requires Valid()
      reads this, buffer
    {
      Counts(lo, hi, |m|) && regs == Absorb(f, init, Full(m)) && buffer[..|m| % 64] == Tail(m)
    }

    /** MD5_begin. */
    constructor ()
      ensures Valid() && Holds([]) && fresh(buffer) && f == MixBlock && init == INIT
    {
      StandardFollows();
      f := MixBlock;
      init := INIT;
      lo, hi := 0, 0;
      regs := Regs(0x67452301, 0xefcdab89, 0x98badcfe, 0x10325476);
      buffer := new byte[64];
    }

    /** MD5_body on `size` bytes of `data` from `from` on, a multiple of 64. */
    method BodyBlocks(data: seq<byte>, from: nat, size: nat, ghost x0: seq<byte>)
      requires Valid() && from + size <= |data| && size % 64 == 0 && size > 0
      requires |x0| % 64 == 0 && regs == Absorb(f, init, x0)
      modifies this`regs
      ensures |x0 + data[from..from + size]| % 64 == 0 && regs == Absorb(f, init, x0 + data[from..from + size])
    {
      var left, pos := size, from;
      ghost var x := x0 + data[from..pos];
      assert x == x0;
      while left > 0
        invariant 0 <= left && left % 64 == 0 && from <= pos && pos + left == from + size
        invariant x == x0 + data[from..pos] && |x| % 64 == 0 && regs == Absorb(f, init, x)
      {
        AbsorbBlock(f, init, x, data[pos..pos + 64]);
        Extend(x0, data, from, pos, pos + 64);
        BodyOne(data[pos..pos + 64]);
        x := x + data[pos..pos + 64];
        left, pos := left - 64, pos + 64;
      }
    }

    method BodyOne(block: seq<byte>)
      requires Valid() && |block| == 64
      modifies this`regs
      ensures regs == f(old(regs), block)
    {
      var X := DecodeBlock(block);
      CodeH2();
      regs := Body(CODE, T, X, regs);
    }

    /** MD5_hash. */
    method Hash(data: seq<byte>, ghost m: seq<byte>)
      requires Valid() && Holds(m)
      modifies this, buffer
      ensures Holds(m + data)
    {
      LowRest(lo, hi, |m|);
      CountCarries(lo, hi, |m|, |data|);
      var savedLo := lo;
      lo := (savedLo + |data|) % TWO29;
      if lo < savedLo {
        hi := hi + 1;
      }
      hi := (hi + |data| / TWO29) % TWO32;
      Mix(savedLo % 64, data, m);
    }

    /** MD5_hash after the counters. */
    method Mix(used: nat, data: seq<byte>, ghost m: seq<byte>)
      requires Valid() && used == |m| % 64 && regs == Absorb(f, init, Full(m)) && buffer[..used] == Tail(m)
      modifies this`regs, buffer
      ensures regs == Absorb(f, init, Full(m + data)) && buffer[..|m + data| % 64] == Tail(m + data)
    {
      ghost var b0 := buffer[..];
      if used != 0 {
        var available := 64 - used;
        if |data| < available {
          Fill(buffer, used, data);
          Overwritten(b0, used, data, buffer[..]);
          StillFits(m, data);
          return;
        }
        Fill(buffer, used, data[..available]);
        Overwritten(b0, used, data[..available], buffer[..]);
        AbsorbBlock(f, init, Full(m), buffer[..]);
        ghost var x := Full(m) + buffer[..];
        BodyOne(buffer[..]);
        WholeBlocks(data, available, m, x);
      } else {
        NothingHeld(m, data);
        WholeBlocks(data, 0, m, Full(m));
      }
    }

    /** The whole blocks of the rest, and what is left after them. */
    method WholeBlocks(data: seq<byte>, from: nat, ghost m: seq<byte>, ghost x: seq<byte>)
      requires Valid() && from <= |data| && |x| % 64 == 0 && m + data == x + data[from..]
      requires regs == Absorb(f, init, x)
      modifies this`regs, buffer
      ensures regs == Absorb(f, init, Full(m + data)) && buffer[..|m + data| % 64] == Tail(m + data)
    {
      var size := |data| - from;
      var whole := size / 64 * 64;
      Parts3(data, from, whole, x);
      if size >= 64 {
        BodyBlocks(data, from, whole, x);
      }
      Split(m + data, x + data[from..from + whole], data[from + whole..]);
      ghost var b0 := buffer[..];
      Fill(buffer, 0, data[from + whole..]);
      Overwritten(b0, 0, data[from + whole..], buffer[..]);
      assert b0[..0] + data[from + whole..] == data[from + whole..];
    }

    /** MD5_end. */
    method End(ghost m: seq<byte>) returns (result: seq<byte>)
      requires Valid() && Holds(m) && f == MixBlock && init == INIT
      modifies this, buffer
      ensures result == Md5Spec.Digest(m)
      ensures lo == 0 && hi == 0 && regs == Regs(0, 0, 0, 0) && forall i | 0 <= i < 64 :: buffer[i] == 0
    {
      LowRest(lo, hi, |m|);
      LengthSplit(lo, hi, |m|);
      ghost var length := LengthBytes(8 * |m| % TWO64);
      ghost var x := PadTo56(lo % 64, m, length);
      lo := lo * 8 % TWO32;
      LastBlock(Le32(lo) + Le32(hi), x);
      result := Encode(regs);
      Wipe();
    }

    /** The length goes into the last eight bytes, and the block is absorbed. */
    method LastBlock(length: seq<byte>, ghost x: seq<byte>)
      requires Valid() && |length| == 8 && |x| % 64 == 0 && regs == Absorb(f, init, x)
      modifies this`regs, buffer
      ensures regs == Absorb(f, init, x + (old(buffer[..56]) + length))
    {
      ghost var b0 := buffer[..];
      Fill(buffer, 56, length);
      assert buffer[..] == b0[..56] + length;
      AbsorbBlock(f, init, x, buffer[..]);
      BodyOne(buffer[..]);
    }

    /** The 0x80, the zeros, and one more block if the length does not fit. */
    method PadTo56(used: nat, ghost m: seq<byte>, ghost length: seq<byte>) returns (ghost x: seq<byte>)
      requires Valid() && used == |m| % 64 && regs == Absorb(f, init, Full(m)) && buffer[..used] == Tail(m) && |length| == 8
      modifies this`regs, buffer
      ensures |x| % 64 == 0 && regs == Absorb(f, init, x)
      ensures Padded(m, length) == x + (buffer[..56] + length)
    {
      x := Full(m);
      var next := used + 1;
      var available := 64 - next;
      if available < 8 {
        PaddedTwo(m, length);
        x := x + (Tail(m) + [0x80] + Zeros(63 - used));
        FillPad(buffer, used, 64, Tail(m));
        FinishPadded(m, used);
      } else {
        PaddedOne(m, length);
        FillPad(buffer, used, 56, Tail(m));
      }
    }

    method FinishPadded(ghost m: seq<byte>, used: nat)
      requires Valid() && used == |m| % 64 && regs == Absorb(f, init, Full(m))
      requires buffer[..64] == Tail(m) + [0x80] + Zeros(63 - used)
      modifies this`regs, buffer
      ensures regs == Absorb(f, init, Full(m) + (Tail(m) + [0x80] + Zeros(63 - used))) && buffer[..56] == Zeros(56)
    {
      assert buffer[..64] == buffer[..];
      AbsorbBlock(f, init, Full(m), buffer[..]);
      BodyOne(buffer[..]);
      ghost var b0 := buffer[..];
      Fill(buffer, 0, Zeros(56));
      Overwritten(b0, 0, Zeros(56), buffer[..]);
      assert b0[..0] + Zeros(56) == Zeros(56);
    }

    /** memset(ctx, 0, sizeof(*ctx)). */
    method Wipe()
      requires Valid()
      modifies this, buffer
      ensures lo == 0 && hi == 0 && regs == Regs(0, 0, 0, 0) && forall i | 0 <= i < 64 :: buffer[i] == 0
    {
      lo, hi, regs := 0, 0, Regs(0, 0, 0, 0);
      ClearBytes(buffer);
    }
  }

  /** Four bytes, least significant first, as MD5_end stores `lo` and `hi`. */
  function Le32(u: nat): (r: seq<byte>)
    ensures |r| == 4
  {
    [(u % 256) as byte, (u / 0x100 % 256) as byte, (u / 0x1_0000 % 256) as byte, (u / 0x100_0000 % 256) as byte]
  }

  /** The two counters make up the length of the message in bits. */
  lemma LengthSplit(lo: nat, hi: nat, n: nat)
    requires Counts(lo, hi, n)
    ensures Le32(lo * 8 % TWO32) + Le32(hi) == LengthBytes(8 * n % TWO64)
  {
    LengthIs(lo, hi, n);
    BytesSplit(hi, lo * 8);
  }

  lemma LengthIs(lo: nat, hi: nat, n: nat)
    requires Counts(lo, hi, n)
    ensures lo * 8 < TWO32 && lo * 8 % TWO32 == lo * 8 && 8 * n % TWO64 == hi * TWO32 + lo * 8
  {
  }

  lemma BytesSplit(h: nat, l: nat)
    requires h < TWO32 && l < TWO32
    ensures Le32(l) + Le32(h) == LengthBytes(h * TWO32 + l)
  {
    LowBytes(h, l);
    HighBytes(h, l);
  }

  lemma LowBytes(h: nat, l: nat)
    requires h < TWO32 && l < TWO32
    ensures var n := h * TWO32 + l;
      && n % 256 == l % 256 && n / 0x100 % 256 == l / 0x100 % 256
      && n / 0x1_0000 % 256 == l / 0x1_0000 % 256 && n / 0x100_0000 % 256 == l / 0x100_0000 % 256
  {
    var n := h * TWO32 + l;
    assert n / 0x100 == h * 0x100_0000 + l / 0x100;
    assert n / 0x1_0000 == h * 0x1_0000 + l / 0x1_0000;
    assert n / 0x100_0000 == h * 0x100 + l / 0x100_0000;
    ModPast(l, h * 0x100_0000);
    ModPast(l / 0x100, h * 0x1_0000);
    ModPast(l / 0x1_0000, h * 0x100);
    ModPast(l / 0x100_0000, h);
  }

  lemma HighBytes(h: nat, l: nat)
    requires h < TWO32 && l < TWO32
    ensures var n := h * TWO32 + l;
      && n / 0x1_0000_0000 % 256 == h % 256 && n / 0x100_0000_0000 % 256 == h / 0x100 % 256
      && n / 0x1_0000_0000_0000 % 256 == h / 0x1_0000 % 256 && n / 0x100_0000_0000_0000 == h / 0x100_0000 % 256
  {
    var n := h * TWO32 + l;
    assert n / TWO32 == h;
    assert n / 0x100_0000_0000 == h / 0x100;
    assert n / 0x1_0000_0000_0000 == h / 0x1_0000;
    assert n / 0x100_0000_0000_0000 == h / 0x100_0000;
  }

  /** md5_hash: the digest does not depend on how the message is cut into chunks. */
  method HashChunks(chunks: seq<seq<byte>>) returns (digest: seq<byte>)
    ensures digest == Md5Spec.Digest(Flatten(chunks))
  {
    var ctx := new Context();
    ghost var m := [];
    for i := 0 to |chunks|
      invariant ctx.Valid() && fresh(ctx) && fresh(ctx.buffer)
      invariant m == Flatten(chunks[..i]) && ctx.Holds(m)
    {
      FlattenNext(chunks, i);
      ctx.Hash(chunks[i], m);
      m := m + chunks[i];
    }
    assert chunks[..|chunks|] == chunks;
    digest := ctx.End(m);
  }

  lemma CodeH2()
    ensures Md5Rounds.H2IsH(CODE)
  {
  }

  lemma NothingHeld(m: seq<byte>, data: seq<byte>)
    requires |m| % 64 == 0
    ensures m + data == Full(m) + data[0..]
  {
  }

  lemma Parts3(data: seq<byte>, from: nat, whole: nat, x: seq<byte>)
    requires from + whole <= |data| && |x| % 64 == 0 && whole == (|data| - from) / 64 * 64
    ensures x + data[from..] == (x + data[from..from + whole]) + data[from + whole..]
    ensures |x + data[from..from + whole]| % 64 == 0 && |data[from + whole..]| < 64
    ensures whole == 0 ==> x + data[from..from + whole] == x
  {
  }
}
