/** The padding loop of tools/padjffs2/src/padjffs2.c: an end-of-filesystem marker at the first boundary
    of each requested size. */
module PadJffs2 {
  type byte = bv8

  const TWO32 := 0x1_0000_0000
  const BUF_SIZE := 64 * 1024

  function Pow2(b: nat): (p: nat)
    ensures p > 0
  {
    if b == 0 then 1 else 2 * Pow2(b - 1)
  }

  /** ALIGN(x, y) for a power of two `m` of type uint32_t: the complement has 32 bits, so the result is
      cut to 32 bits. */
  function Align(x: nat, m: nat): nat
    requires m > 0
  {
    (x + m - 1) / m * m % TWO32
  }

  /** `p` is the first multiple of 2^b at or after `s`. */
  ghost predicate First(s: nat, p: nat, b: nat) {
    s <= p && p % Pow2(b) == 0 && NoneIn(s, p, b)
  }

  /** No multiple of 2^b from `s` up to `p`. */
  ghost predicate NoneIn(s: nat, p: nat, b: nat) { forall q | s <= q < p :: q % Pow2(b) != 0 }

  lemma {:induction false} Pow2Splits(b: nat, i: nat)
    requires i <= b
    ensures Pow2(b) == Pow2(b - i) * Pow2(i)
  {
    if i < b { Pow2Splits(b - 1, i); }
  }

  /** Multiples of a larger power are multiples of a smaller one. */
  lemma Coarser(q: nat, b: nat, i: nat)
    requires i <= b && q % Pow2(b) == 0
    ensures q % Pow2(i) == 0
  {
    Pow2Splits(b, i);
    DivMod(q, Pow2(b));
    Regroup(q / Pow2(b), Pow2(b - i), Pow2(i));
    QuotientIs(q, Pow2(i), q / Pow2(b) * Pow2(b - i), 0);
  }

  lemma Regroup(k: nat, n: nat, m: nat)
    ensures k * (n * m) == (k * n) * m
  {
  }

  lemma DivMod(x: nat, m: nat)
    requires m > 0
    ensures x == x / m * m + x % m && x % m < m
  {
  }

  lemma QuotientIs(x: nat, m: nat, k: nat, r: nat)
    requires m > 0 && x == k * m + r && r < m
    ensures x / m == k && x % m == r
  {
    DivMod(x, m);
    SameQuotient(m, k, r, x / m, x % m);
  }

  lemma SameQuotient(m: nat, k: nat, r: nat, k': nat, r': nat)
    requires k * m + r == k' * m + r' && r < m && r' < m
    ensures k == k' && r == r'
  {
    if k < k' {
      TimesAtLeast(k, k', m);
    } else if k' < k {
      TimesAtLeast(k', k, m);
    }
  }

  lemma TimesAtLeast(k: nat, k': nat, m: nat)
    requires k < k'
    ensures k' * m >= k * m + m
  {
    assert k' * m == k * m + (k' - k) * m;
    AtLeastOnce(k' - k, m);
  }

  lemma AtLeastOnce(d: nat, m: nat)
    requires d >= 1
    ensures d * m >= m
  {
  }

  /** Rounding up finds the next multiple. */
  lemma RoundsUp(x: nat, b: nat)
    ensures First(x, (x + Pow2(b) - 1) / Pow2(b) * Pow2(b), b)
  {
    var m := Pow2(b);
    var k := (x + m - 1) / m;
    DivMod(x + m - 1, m);
    QuotientIs(k * m, m, k, 0);
    forall q | x <= q < k * m ensures q % m != 0 {
      assert 0 * m == 0;
      assert k >= 1;
      assert (k - 1) * m == k * m - m;
      QuotientIs(q, m, k - 1, q - (k - 1) * m);
    }
  }

  /** The first multiple is unique. */
  lemma FirstUnique(s: nat, p: nat, q: nat, b: nat)
    requires First(s, p, b) && First(s, q, b)
    ensures p == q
  {
  }

  /** ALIGN finds the next multiple exactly when that is below 2^32. */
  lemma AlignExact(x: nat, b: nat)
    ensures First(x, Align(x, Pow2(b)), b) <==> (x + Pow2(b) - 1) / Pow2(b) * Pow2(b) < TWO32
  {
    RoundsUp(x, b);
    if First(x, Align(x, Pow2(b)), b) { FirstUnique(x, Align(x, Pow2(b)), (x + Pow2(b) - 1) / Pow2(b) * Pow2(b), b); }
  }

  /** One byte short of 2^32, ALIGN to 1 KiB gives 0. */
  lemma AlignWraps()
    ensures Pow2(10) == 1024 && Align(TWO32 - 1, Pow2(10)) == 0 && !First(TWO32 - 1, 0, 10)
  {
    assert Pow2(5) == 32;
    assert Pow2(10) == 1024;
  }

  /** Cutting to 32 bits keeps multiples. */
  lemma AlignMultiple(x: nat, b: nat)
    requires b <= 32
    ensures Align(x, Pow2(b)) % Pow2(b) == 0
  {
    Pow2Of32();
    Pow2Splits(32, b);
    AlignCut(x, Pow2(b), Pow2(32 - b));
  }

  lemma AlignCut(x: nat, m: nat, n: nat)
    requires m > 0 && TWO32 == n * m
    ensures Align(x, m) % m == 0
  {
    CutMultiple((x + m - 1) / m, m, n, TWO32);
  }

  lemma CutMultiple(k: nat, m: nat, n: nat, w: nat)
    requires m > 0 && w > 0 && w == n * m
    ensures k * m % w % m == 0
  {
    var y := k * m;
    var q := y / w;
    DivMod(y, w);
    Regroup(q, n, m);
    var r := q * n;
    assert q * w == r * m;
    MultiplesApart(k, r, m);
  }

  lemma MultiplesApart(k: nat, q: nat, m: nat)
    requires m > 0 && k * m >= q * m
    ensures (k * m - q * m) % m == 0
  {
    if k < q { TimesAtLeast(k, q, m); }
    assert (k - q) * m == k * m - q * m;
    QuotientIs(k * m - q * m, m, k - q, 0);
  }

  lemma Pow2Of32()
    ensures Pow2(32) == TWO32
  {
    assert Pow2(8) == 256;
    Pow2Splits(16, 8);
    Pow2Splits(32, 16);
  }

  // ----- the loop, as it runs for any image -----

  /** The bits of a 32-bit mask from 1 KiB on. */
  predicate Sizes(bits: set<nat>) { forall b <- bits :: 10 <= b < 32 }

  /** The sizes that position `p` is no multiple of. */
  function Undone(bits: set<nat>, p: nat): set<nat> { set b | b in bits && p % Pow2(b) != 0 }

  lemma {:induction false} LowestExists(bits: set<nat>) returns (i: nat)
    requires bits != {}
    ensures i in bits && forall b <- bits :: i <= b
    decreases |bits|
  {
    var k :| k in bits;
    i := k;
    if bits - {k} != {} {
      var j := LowestExists(bits - {k});
      assert forall b <- bits :: b == k || b in bits - {k};
      if j < k { i := j; }
    }
  }

  ghost function Lowest(bits: set<nat>): (i: nat)
    requires bits != {}
    ensures i in bits && forall b <- bits :: i <= b
  {
    assert exists i :: i in bits && forall b <- bits :: i <= b by { var j := LowestExists(bits); }
    var i :| i in bits && forall b <- bits :: i <= b;
    i
  }

  /** One round does away with the lowest size at least. */
  lemma RoundShrinks(bits: set<nat>, inLen: nat)
    requires bits != {} && Sizes(bits)
    ensures |Undone(bits, Align(inLen, Pow2(Lowest(bits))))| < |bits|
  {
    var i := Lowest(bits);
    AlignMultiple(inLen, i);
    Smaller(Undone(bits, Align(inLen, Pow2(i))), bits);
  }

  /** What is written from `end` on: up to each boundary that is still ahead 0xff, then the marker. */
  ghost function PadFrom(end: nat, inLen: nat, bits: set<nat>, pad: seq<byte>): seq<byte>
    requires Sizes(bits)
    decreases |bits|
  {
    if bits == {} then []
    else
      var p := Align(inLen, Pow2(Lowest(bits)));
      RoundShrinks(bits, inLen);
      var fill := Blank(end, p);
      fill + pad + PadFrom(end + |fill| + |pad|, p, Undone(bits, p), pad)
  }

  function Blank(from: nat, to: nat): (fill: seq<byte>)
    ensures |fill| == if from <= to then to - from else 0
  {
    seq(if from <= to then to - from else 0, _ => 0xff)
  }

  /** Where the lowest size still asked for has its boundary at 2^32, ALIGN gives 0: all sizes count as done, no
      filler is written, and the marker goes wherever the output stands. */
  lemma CutEnds(end: nat, inLen: nat, bits: set<nat>, pad: seq<byte>)
    requires Sizes(bits) && bits != {} && inLen < TWO32
    requires var m := Pow2(Lowest(bits)); (inLen + m - 1) / m * m >= TWO32
    ensures PadFrom(end, inLen, bits, pad) == pad
  {
    var i := Lowest(bits);
    Pow2Of32();
    Pow2Splits(32, i);
    AtTheEnd(inLen, Pow2(i), Pow2(32 - i));
    assert Align(inLen, Pow2(i)) == 0;
    assert Undone(bits, 0) == {} by { forall b <- bits ensures 0 % Pow2(b) == 0 { QuotientIs(0, Pow2(b), 0, 0); } }
    assert Blank(end, 0) + pad + [] == pad;
  }

  /** A position below the n-th multiple of m is rounded up to that at most. */
  lemma AtTheEnd(x: nat, m: nat, n: nat)
    requires m > 0 && x < n * m && (x + m - 1) / m * m >= n * m
    ensures (x + m - 1) / m * m == n * m
  {
    DivMod(x + m - 1, m);
    var k := (x + m - 1) / m;
    if k > n {
      TimesAtLeast(n, k, m);
    } else if k < n {
      TimesAtLeast(k, n, m);
    }
  }

  /** The boundaries of all requested sizes lie below 2^32. */
  ghost predicate Fits(s: nat, bits: set<nat>) {
    Sizes(bits) && forall b <- bits :: (s + Pow2(b) - 1) / Pow2(b) * Pow2(b) < TWO32
  }

  /** What has been written holds, at every marker, the marker; `at` counts from the start. */
  predicate MarkerAt(out: seq<byte>, at: int, pad: seq<byte>) {
    0 <= at && at + |pad| <= |out| && out[at..at + |pad|] == pad
  }

  /** Between rounds: `p` is the last boundary, `bits` are still to come. */
  ghost predicate Padding(s: nat, p: nat, bits0: set<nat>, bits: set<nat>, out: seq<byte>, pad: seq<byte>) {
    && s <= p && bits <= bits0
    && (forall b <- bits :: NoneIn(s, p, b))
    && (forall b <- bits0 :: b !in bits ==> Reached(s, b, out, pad))
    && (Fresh(s, p, bits0, bits, out) || Moved(s, p, bits, out, pad))
  }

  ghost predicate Fresh(s: nat, p: nat, bits0: set<nat>, bits: set<nat>, out: seq<byte>) {
    bits == bits0 && p == s && out == []
  }

  ghost predicate Moved(s: nat, p: nat, bits: set<nat>, out: seq<byte>, pad: seq<byte>) {
    p % 1024 == 0 && s + |out| == p + |pad| && forall b <- bits :: p % Pow2(b) != 0
  }

  /** pad_image. `length` is the length of the image, `xtra` the extra offset, and the pad mask is the
      set of its bits; the result is what is written after the image. */
  method PadImage(length: nat, xtra: nat, bits0: set<nat>, pad: seq<byte>) returns (out: seq<byte>)
    requires Sizes(bits0)
    ensures out == PadFrom(length + xtra, length + xtra, bits0, pad)
    ensures Fits(length + xtra, bits0) && 0 < |pad| <= 1024 ==> forall b <- bits0 :: Reached(length + xtra, b, out, pad)
  {
    var s := length + xtra;
    var inLen: nat, bits := s, bits0;
    out := [];
    ghost var exact := Fits(s, bits0) && 0 < |pad| <= 1024;
    while bits != {}
      invariant Sizes(bits) && out + PadFrom(s + |out|, inLen, bits, pad) == PadFrom(s, s, bits0, pad)
      invariant exact ==> Padding(s, inLen, bits0, bits, out, pad)
      decreases |bits|
    {
      var more;
      ghost var before := out;
      inLen, bits, more := PadRound(s, inLen, bits, bits0, out, pad, exact);
      out := out + more;
      Appended(before, more, PadFrom(s + |out|, inLen, bits, pad));
    }
  }

  lemma Appended(a: seq<byte>, b: seq<byte>, c: seq<byte>)
    ensures a + (b + c) == (a + b) + c
  {
  }

  /** One marker: `p` is its boundary, `more` what is written. */
  method PadRound(s: nat, inLen: nat, bits: set<nat>, ghost bits0: set<nat>, out: seq<byte>, pad: seq<byte>, ghost exact: bool)
    returns (p: nat, left: set<nat>, more: seq<byte>)
    requires Sizes(bits) && bits != {} && (exact ==> Fits(s, bits0) && 0 < |pad| <= 1024 && Padding(s, inLen, bits0, bits, out, pad))
    ensures Sizes(left) && |left| < |bits|
    ensures PadFrom(s + |out|, inLen, bits, pad) == more + PadFrom(s + |out| + |more|, p, left, pad)
    ensures exact ==> Padding(s, p, bits0, left, out + more, pad)
  {
    var i := LowestBit(bits);
    AlignMultiple(inLen, i);
    if exact { NextBoundary(s, inLen, bits0, bits, i, out, pad); }
    p := Align(inLen, Pow2(i));
    left := DropBits(bits, p, i);
    var fill := Filler(s + |out|, p);
    if exact {
      Marked(s, inLen, p, bits0, bits, left, i, out, fill, pad);
      Appended(out, fill, pad);
    }
    more := fill + pad;
  }

  /** The first loop over the mask. */
  method LowestBit(bits: set<nat>) returns (i: nat)
    requires bits != {} && Sizes(bits)
    ensures i in bits && (forall b <- bits :: i <= b) && i == Lowest(bits)
  {
    ghost var b0 :| b0 in bits;
    i := 10;
    while i < 32 && i !in bits
      invariant 10 <= i <= 32 && forall b <- bits :: i <= b
    {
      i := i + 1;
    }
    assert b0 < 32;
  }

  /** The second loop: every size that the position is a multiple of is done. */
  method DropBits(bits: set<nat>, p: nat, ghost i: nat) returns (r: set<nat>)
    requires Sizes(bits) && i in bits && p % Pow2(i) == 0
    ensures r == Undone(bits, p) && |r| < |bits|
  {
    r := bits;
    for k := 10 to 32
      invariant forall b :: b in r <==> b in bits && (b < k ==> p % Pow2(b) != 0)
    {
      if p % Pow2(k) == 0 {
        r := r - {k};
      }
    }
    assert r < bits by { assert i !in r; }
    Smaller(r, bits);
  }

  lemma Smaller(a: set<nat>, b: set<nat>)
    requires a < b
    ensures |a| < |b|
  {
    assert b == a + (b - a);
    var x :| x in b && x !in a;
    assert x in b - a;
  }

  /** The loop that writes 0xff up to the boundary, if that is still ahead, a buffer at a time. */
  method Filler(from: nat, to: nat) returns (fill: seq<byte>)
    ensures fill == Blank(from, to)
  {
    fill := [];
    var outLen := from;
    while outLen < to
      invariant outLen == from + |fill| && (outLen <= to || fill == []) && forall k | 0 <= k < |fill| :: fill[k] == 0xff
    {
      var len := to - outLen;
      if len > BUF_SIZE {
        len := BUF_SIZE;
      }
      fill := fill + seq(len, _ => 0xff as byte);
      outLen := outLen + len;
    }
  }

  /** A marker stands at the first multiple of 2^b from `s` on. */
  ghost predicate Reached(s: nat, b: nat, out: seq<byte>, pad: seq<byte>) {
    exists p: nat :: First(s, p, b) && MarkerAt(out, p - s, pad)
  }

  lemma FurtherNone(s: nat, p0: nat, p: nat, i: nat, b: nat)
    requires i <= b && NoneIn(s, p0, b) && NoneIn(p0, p, i)
    ensures NoneIn(s, p, b)
  {
    forall q | s <= q < p ensures q % Pow2(b) != 0 {
      if q >= p0 && q % Pow2(b) == 0 { Coarser(q, b, i); }
    }
  }

  /** Aligning gives the next boundary, past everything written. */
  lemma NextBoundary(s: nat, p0: nat, bits0: set<nat>, bits: set<nat>, i: nat, out: seq<byte>, pad: seq<byte>)
    requires Fits(s, bits0) && 0 < |pad| <= 1024 && Padding(s, p0, bits0, bits, out, pad)
    requires i in bits && forall b <- bits :: i <= b
    ensures var p := Align(p0, Pow2(i)); First(p0, p, i) && s + |out| <= p
    ensures var p := Align(p0, Pow2(i)); p % 1024 == 0 && forall b <- bits :: NoneIn(s, p, b)
  {
    var p := (p0 + Pow2(i) - 1) / Pow2(i) * Pow2(i);
    RoundsUp(p0, i);
    FurtherNone(s, p0, p, i, i);
    NotCut(s, p, bits0, i);
    assert Align(p0, Pow2(i)) == p;
    WholeKilobytes(p, i);
    forall b <- bits ensures NoneIn(s, p, b) {
      FurtherNone(s, p0, p, i, b);
    }
    PastWritten(s, p0, p, bits0, bits, i, out, pad);
  }

  lemma WholeKilobytes(p: nat, i: nat)
    requires i >= 10 && p % Pow2(i) == 0
    ensures p % 1024 == 0
  {
    Coarser(p, i, 10);
    assert Pow2(10) == 1024;
  }

  lemma PastWritten(s: nat, p0: nat, p: nat, bits0: set<nat>, bits: set<nat>, i: nat, out: seq<byte>, pad: seq<byte>)
    requires 0 < |pad| <= 1024 && Padding(s, p0, bits0, bits, out, pad) && i in bits && First(p0, p, i) && p % 1024 == 0
    ensures s + |out| <= p
  {
    if Moved(s, p0, bits, out, pad) {
      assert p > p0;
      NextKilobyte(p0, p);
    }
  }

  /** The boundary fits in 32 bits. */
  lemma NotCut(s: nat, p: nat, bits0: set<nat>, i: nat)
    requires Fits(s, bits0) && i in bits0 && First(s, p, i)
    ensures p < TWO32 && i >= 10
  {
    RoundsUp(s, i);
    FirstUnique(s, p, (s + Pow2(i) - 1) / Pow2(i) * Pow2(i), i);
  }

  lemma NextKilobyte(p0: nat, p: nat)
    requires p0 % 1024 == 0 && p % 1024 == 0 && p > p0
    ensures p >= p0 + 1024
  {
  }

  /** After the marker is written. */
  lemma Marked(s: nat, p0: nat, p: nat, bits0: set<nat>, left: set<nat>, bits: set<nat>, i: nat, out: seq<byte>, fill: seq<byte>, pad: seq<byte>)
    requires Padding(s, p0, bits0, left, out, pad) && First(p0, p, i) && s + |out| + |fill| == p && p % 1024 == 0
    requires forall b <- left :: NoneIn(s, p, b)
    requires forall b :: b in bits <==> b in left && p % Pow2(b) != 0
    ensures Padding(s, p, bits0, bits, out + fill + pad, pad)
  {
    var next := out + fill + pad;
    assert MarkerAt(next, p - s, pad);
    forall b <- bits0 ensures b !in bits ==> Reached(s, b, next, pad) {
      if b !in left {
        StillReached(s, b, out, fill + pad, pad);
        assert out + (fill + pad) == next;
      } else if b !in bits {
        assert First(s, p, b);
      }
    }
    assert Moved(s, p, bits, next, pad);
  }

  lemma StillReached(s: nat, b: nat, out: seq<byte>, more: seq<byte>, pad: seq<byte>)
    requires Reached(s, b, out, pad)
    ensures Reached(s, b, out + more, pad)
  {
  }
}
