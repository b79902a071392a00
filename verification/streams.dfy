/** Hashing a message block by block: what MD5 and SHA-256 have in common. */
module Streams {
  type byte = bv8

  const TWO64 := 0x1_0000_0000_0000_0000

  /** All blocks of 64 bytes in turn, from state `s`. */
  function Absorb<S>(f: (S, seq<byte>) -> S, s: S, m: seq<byte>): S
    requires |m| % 64 == 0
    decreases |m|
  {
    if m == [] then s else Absorb(f, f(s, m[..64]), m[64..])
  }

  lemma {:induction false} AbsorbAppend<S>(f: (S, seq<byte>) -> S, s: S, a: seq<byte>, b: seq<byte>)
    requires |a| % 64 == 0 && |b| % 64 == 0
    ensures Absorb(f, s, a + b) == Absorb(f, Absorb(f, s, a), b)
    decreases |a|
  {
    if a == [] {
      assert a + b == b;
    } else {
      assert (a + b)[..64] == a[..64] && (a + b)[64..] == a[64..] + b;
      AbsorbAppend(f, f(s, a[..64]), a[64..], b);
    }
  }

  lemma AbsorbBlock<S>(f: (S, seq<byte>) -> S, s: S, a: seq<byte>, block: seq<byte>)
    requires |a| % 64 == 0 && |block| == 64
    ensures Absorb(f, s, a + block) == f(Absorb(f, s, a), block)
  {
    AbsorbAppend(f, s, a, block);
    assert block[..64] == block && block[64..] == [];
  }

  lemma OneBlock<S>(f: (S, seq<byte>) -> S, s: S, block: seq<byte>)
    requires |block| == 64
    ensures Absorb(f, s, block) == f(s, block)
  {
    AbsorbBlock(f, s, [], block);
    assert [] + block == block;
  }

  // ----- messages as whole blocks and a rest -----

  /** How many bytes of a message fill whole blocks. */
  function Whole(n: nat): (w: nat)
    ensures w <= n && w % 64 == 0 && n - w == n % 64
  {
    n / 64 * 64
  }

  function Full(m: seq<byte>): (r: seq<byte>)
    ensures |r| % 64 == 0
  {
    m[..Whole(|m|)]
  }

  function Tail(m: seq<byte>): (r: seq<byte>)
    ensures |r| == |m| % 64
  {
    m[Whole(|m|)..]
  }

  /** What is known of a message when it is whole blocks `x` and less than one more block. */
  lemma Split(m: seq<byte>, x: seq<byte>, t: seq<byte>)
    requires m == x + t && |x| % 64 == 0 && |t| < 64
    ensures Full(m) == x && Tail(m) == t
  {
  }

  lemma StillFits(m: seq<byte>, data: seq<byte>)
    requires |data| < 64 - |m| % 64
    ensures Full(m + data) == Full(m) && Tail(m + data) == Tail(m) + data
  {
  }

  /** Filling up the current block, then whole blocks, then a rest. */
  lemma Refilled(m: seq<byte>, data: seq<byte>, from: nat, pos: nat, x: seq<byte>)
    requires from <= pos <= |data| < pos + 64 && |Tail(m)| + from == 64
    requires x == Full(m) + (Tail(m) + data[..from]) + data[from..pos] && |x| % 64 == 0
    ensures Full(m + data) == x && Tail(m + data) == data[pos..]
  {
    assert m == Full(m) + Tail(m) && data == data[..from] + data[from..pos] + data[pos..];
    assert m + data == x + data[pos..];
    Split(m + data, x, data[pos..]);
  }

  lemma Extend<T>(x0: seq<T>, data: seq<T>, from: nat, pos: nat, to: nat)
    requires from <= pos <= to <= |data|
    ensures x0 + data[from..pos] + data[pos..to] == x0 + data[from..to]
  {
  }

  /** A buffer whose part from `at` on has been overwritten. */
  lemma Overwritten<T>(before: seq<T>, at: nat, src: seq<T>, after: seq<T>)
    requires at + |src| <= |before| && after == before[..at] + src + before[at + |src|..]
    ensures |after| == |before| && after[..at + |src|] == before[..at] + src
    ensures at + |src| == |before| ==> after == before[..at] + src
  {
  }

  // ----- padding -----

  function Zeros(n: nat): seq<byte> { seq(n, _ => 0 as byte) }

  /** The smallest k with len + 1 + k congruent to 56 mod 64. */
  function ZeroCount(len: nat): (k: nat)
    ensures k < 64 && (len + 1 + k) % 64 == 56
  {
    (55 + 64 - len % 64) % 64
  }

  /** A one bit, zeros, and eight bytes that give the length. */
  function Padded(m: seq<byte>, length: seq<byte>): (r: seq<byte>)
    requires |length| == 8
    ensures |r| % 64 == 0
  {
    var r := m + [0x80] + Zeros(ZeroCount(|m|)) + length;
    assert |r| == |m| + 1 + ZeroCount(|m|) + 8;
    r
  }

  /** With room for the length the padding stays in the last block. */
  lemma PaddedOne(m: seq<byte>, length: seq<byte>)
    requires |length| == 8 && |m| % 64 < 56
    ensures Padded(m, length) == Full(m) + (Tail(m) + [0x80] + Zeros(55 - |m| % 64) + length)
  {
  }

  /** Otherwise it takes one more. */
  lemma PaddedTwo(m: seq<byte>, length: seq<byte>)
    requires |length| == 8 && |m| % 64 >= 56
    ensures Padded(m, length) == Full(m) + (Tail(m) + [0x80] + Zeros(63 - |m| % 64)) + (Zeros(56) + length)
  {
  }

  // ----- counting mod 2^64 -----

  /** The bit count mod 2^64 still tells how full the buffer is. */
  lemma CountRest(n: nat)
    ensures (8 * n % TWO64) / 8 % 64 == n % 64
  {
    var q := 8 * n / TWO64;
    assert 8 * n == q * TWO64 + 8 * n % TWO64;
    assert TWO64 == 64 * 0x80_0000_0000_0000 * 8;
    assert 8 * n % TWO64 == 8 * (n - q * (64 * 0x80_0000_0000_0000));
    assert (8 * n % TWO64) / 8 == n - 64 * (q * 0x80_0000_0000_0000);
    Mod64(n, q * 0x80_0000_0000_0000);
  }

  lemma Mod64(n: int, k: int)
    ensures (n - 64 * k) % 64 == n % 64
  {
  }

  lemma CountAdds(n: nat, k: nat)
    ensures (8 * n % TWO64 + 8 * k % TWO64) % TWO64 == 8 * (n + k) % TWO64
  {
  }

  function Flatten(chunks: seq<seq<byte>>): seq<byte> {
    if chunks == [] then [] else Flatten(chunks[..|chunks| - 1]) + chunks[|chunks| - 1]
  }

  lemma FlattenNext(chunks: seq<seq<byte>>, i: nat)
    requires i < |chunks|
    ensures Flatten(chunks[..i + 1]) == Flatten(chunks[..i]) + chunks[i]
  {
    assert chunks[..i + 1][..i] == chunks[..i];
  }

  // ----- buffers -----

  /** memcpy(&buf[at], src, len). */
  method Fill(buf: array<byte>, at: nat, src: seq<byte>)
    requires at + |src| <= buf.Length
    modifies buf
    ensures buf[..] == old(buf[..at]) + src + old(buf[at + |src|..])
  {
    ghost var b0 := buf[..];
    for k := 0 to |src|
      invariant buf[..] == b0[..at] + src[..k] + b0[at + k..]
    {
      buf[at + k] := src[k];
    }
  }

  /** The bytes `t` are followed by 0x80 and zeros up to `to`. */
  method FillPad(buf: array<byte>, r: nat, to: nat, ghost t: seq<byte>)
    requires r < to <= buf.Length == 64 && buf[..r] == t
    modifies buf
    ensures buf[..to] == t + [0x80] + Zeros(to - r - 1)
  {
    ghost var b0 := buf[..];
    Fill(buf, r, [0x80] + Zeros(to - r - 1));
    Overwritten(b0, r, [0x80] + Zeros(to - r - 1), buf[..]);
    assert t + ([0x80] + Zeros(to - r - 1)) == t + [0x80] + Zeros(to - r - 1);
  }

  method ClearBytes(buf: array<byte>)
    modifies buf
    ensures forall i | 0 <= i < buf.Length :: buf[i] == 0
  {
    for i := 0 to buf.Length
      invariant forall k | 0 <= k < i :: buf[k] == 0
    {
      buf[i] := 0;
    }
  }

  lemma ModPast(x: nat, k: nat)
    ensures (k * 256 + x) % 256 == x % 256
  {
  }
}
