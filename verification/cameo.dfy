/** scripts/cameo-tag.py: two checksums in one header, each of which covers the other's bytes. */
module Cameo {
  type byte = bv8

  // ----- CRC-32 as in section 8 of RFC 1952 -----

  const POLY: bv32 := 0xedb88320

  function Bit(c: bv32): bv32 { if c & 1 == 1 then POLY ^ (c >> 1) else c >> 1 }

  function Bits(c: bv32, k: nat): bv32
    decreases k
  {
    if k == 0 then c else Bits(Bit(c), k - 1)
  }

  /** crc_table[n]. */
  function TableEntry(n: bv32): bv32 { Bits(n, 8) }

  function Update(c: bv32, b: byte): bv32 { TableEntry((c ^ (b as bv32)) & 0xff) ^ Rest(c) }

  /** The register after the bytes of `s`. */
  function Register(s: seq<byte>): bv32 {
    if s == [] then 0xffffffff else Update(Register(s[..|s| - 1]), s[|s| - 1])
  }

  function Crc32(s: seq<byte>): bv32 { Register(s) ^ 0xffffffff }

  /** Lowest byte first. */
  function LittleEndian(w: bv32): seq<byte> {
    [Low(w), Low(Rest(w)), Low(Rest(Rest(w))), Low(Rest(Rest(Rest(w))))]
  }

  function Low(w: bv32): byte { (w & 0xff) as byte }

  function Rest(w: bv32): bv32 { w >> 8 }

  /** Feeding the register its own low byte shifts that byte out. */
  lemma UpdateOwn(c: bv32)
    ensures Update(c, Low(c)) == Rest(c)
  {
  }

  lemma FourBytes(c: bv32)
    ensures (((c >> 8) >> 8) >> 8) >> 8 == 0
  {
  }

  lemma RegisterSnoc(s: seq<byte>, b: byte)
    ensures Register(s + [b]) == Update(Register(s), b)
  {
  }

  lemma ShiftIn(data: seq<byte>, c: bv32)
    ensures Register(data) == c ==> Register(data + [Low(c)]) == Rest(c)
  {
    RegisterSnoc(data, Low(c));
    UpdateOwn(c);
  }

  lemma FourIn(data: seq<byte>, c0: bv32, c1: bv32, c2: bv32, c3: bv32, c4: bv32)
    requires Register(data) == c0 && c1 == Rest(c0) && c2 == Rest(c1) && c3 == Rest(c2) && c4 == Rest(c3)
    ensures Register(data + [Low(c0), Low(c1), Low(c2), Low(c3)]) == c4
  {
    ShiftIn(data, c0);
    ShiftIn(data + [Low(c0)], c1);
    ShiftIn(data + [Low(c0)] + [Low(c1)], c2);
    ShiftIn(data + [Low(c0)] + [Low(c1)] + [Low(c2)], c3);
    assert data + [Low(c0), Low(c1), Low(c2), Low(c3)] == data + [Low(c0)] + [Low(c1)] + [Low(c2)] + [Low(c3)];
  }

  /** Feeding the register its own four bytes empties it. */
  lemma Emptied(data: seq<byte>, c: bv32)
    requires Register(data) == c
    ensures Register(data + LittleEndian(c)) == 0
  {
    FourBytes(c);
    FourIn(data, c, Rest(c), Rest(Rest(c)), Rest(Rest(Rest(c))), Rest(Rest(Rest(Rest(c)))));
  }

  /** Data followed by its inverted checksum, lowest byte first, has the checksum 0xffffffff. */
  lemma InvertedCrc(data: seq<byte>)
    ensures Crc32(data + LittleEndian(Register(data))) == 0xffffffff
  {
    Emptied(data, Register(data));
  }

  // ----- a known checksum -----

  lemma NineSteps()
    ensures Update(0xffffffff, 0x31) == 0x7c231048
    ensures Update(0x7c231048, 0x32) == 0xb0acbb32
    ensures Update(0xb0acbb32, 0x33) == 0x77b79c2d
    ensures Update(0x77b79c2d, 0x34) == 0x641c1f5c
    ensures Update(0x641c1f5c, 0x35) == 0x340ac5e3
    ensures Update(0x340ac5e3, 0x36) == 0xf68d2c9e
    ensures Update(0xf68d2c9e, 0x37) == 0xaffc9660
    ensures Update(0xaffc9660, 0x38) == 0x651f2550
    ensures Update(0x651f2550, 0x39) == 0x340bc6d9
  {
  }

  /** The usual check value of this CRC: the checksum of the text 123456789. */
  lemma CheckValue()
    ensures Crc32([0x31, 0x32, 0x33, 0x34, 0x35, 0x36, 0x37, 0x38, 0x39]) == 0xcbf43926
  {
    NineSteps();
    var s: seq<byte> := [];
    assert Register(s) == 0xffffffff;
    RegisterSnoc(s, 0x31);
    s := s + [0x31];
    RegisterSnoc(s, 0x32);
    s := s + [0x32];
    RegisterSnoc(s, 0x33);
    s := s + [0x33];
    RegisterSnoc(s, 0x34);
    s := s + [0x34];
    RegisterSnoc(s, 0x35);
    s := s + [0x35];
    RegisterSnoc(s, 0x36);
    s := s + [0x36];
    RegisterSnoc(s, 0x37);
    s := s + [0x37];
    RegisterSnoc(s, 0x38);
    s := s + [0x38];
    RegisterSnoc(s, 0x39);
    s := s + [0x39];
    assert s == [0x31, 0x32, 0x33, 0x34, 0x35, 0x36, 0x37, 0x38, 0x39];
  }

  // ----- the byte sum -----

  function Sum(s: seq<byte>): nat { if s == [] then 0 else Sum(s[..|s| - 1]) + s[|s| - 1] as nat }

  function BigEndian(n: nat): seq<byte> {
    [(n / 0x100_0000 % 256) as byte, (n / 0x1_0000 % 256) as byte, (n / 0x100 % 256) as byte, (n % 256) as byte]
  }

  /** cameosum. */
  function CameoSum(s: seq<byte>): seq<byte> { BigEndian(Sum(s) % 0x1_0000_0000) }

  lemma {:induction false} SumAppend(a: seq<byte>, b: seq<byte>)
    ensures Sum(a + b) == Sum(a) + Sum(b)
  {
    if b == [] {
      assert a + b == a;
    } else {
      assert (a + b)[..|a + b| - 1] == a + b[..|b| - 1];
      SumAppend(a, b[..|b| - 1]);
    }
  }

  function Numeral(a: nat, b: nat, c: nat, d: nat): nat { 256 * (256 * (256 * a + b) + c) + d }

  /** The four bytes are the digits, most significant first, of the sum of all bytes mod 2^32. */
  lemma CameoSumReads(s: seq<byte>, a: nat, b: nat, c: nat, d: nat)
    requires a < 256 && b < 256 && c < 256 && d < 256 && Numeral(a, b, c, d) == Sum(s) % 0x1_0000_0000
    ensures CameoSum(s) == [a as byte, b as byte, c as byte, d as byte]
  {
    FourDigits(a, b, c, d);
  }

  lemma FourDigits(a: nat, b: nat, c: nat, d: nat)
    requires a < 256 && b < 256 && c < 256 && d < 256
    ensures var n := Numeral(a, b, c, d);
      n / 0x100_0000 % 256 == a && n / 0x1_0000 % 256 == b && n / 0x100 % 256 == c && n % 256 == d
  {
    var n := Numeral(a, b, c, d);
    assert n / 0x100 == 256 * (256 * a + b) + c && n / 0x1_0000 == 256 * a + b && n / 0x100_0000 == a;
  }

  /** Each byte counts once, with its value. */
  lemma SumOne(b: byte)
    ensures Sum([b]) == b as nat
  {
    assert [b][..0] == [];
  }

  /** invertcrc. */
  function InvertCrc(s: seq<byte>): seq<byte> { LittleEndian(Crc32(s) ^ 0xffffffff) }

  lemma InvertIsRegister(s: seq<byte>)
    ensures InvertCrc(s) == LittleEndian(Register(s))
  {
  }

  const TAG: seq<byte> := [0x43, 0x41, 0x4d, 0x45, 0x4f, 0x54, 0x41, 0x47, 0x00, 0x00, 0x00, 0x01]
  const NAME: seq<byte> := [0x4f, 0x70, 0x65, 0x6e, 0x57, 0x72, 0x74, 0x00, 0x00, 0x00, 0x00, 0x00]
  const CRC_00: seq<byte> := [0, 0, 0, 0]
  const CRC_FF: seq<byte> := [0xff, 0xff, 0xff, 0xff]

  /** A slice of the header replaced. */
  function Put(b: seq<byte>, at: nat, s: seq<byte>): (r: seq<byte>)
    requires at + |s| <= |b|
    ensures |r| == |b|
  {
    b[..at] + s + b[at + |s|..]
  }

  /** buf[at:at + |s|] = s. */
  method SetSlice(buf: array<byte>, at: nat, s: seq<byte>)
    requires at + |s| <= buf.Length
    modifies buf
    ensures buf[..] == old(buf[..at]) + s + old(buf[at + |s|..])
  {
    ghost var b0 := buf[..];
    for k := 0 to |s|
      invariant buf[..] == b0[..at] + s[..k] + b0[at + k..]
    {
      buf[at + k] := s[k];
    }
  }

  /** The U-Boot loader accepts the header: the CRC over it with the CRC field zeroed is the one stored,
      and the four bytes after the tag are the sum of everything before them. */
  ghost predicate BothHold(b: seq<byte>) {
    && |b| == 64
    && b[4..8] == CRC_FF && Crc32(Put(b, 4, CRC_00)) == 0xffffffff
    && b[56..60] == CameoSum(b[..56])
    && b[32..44] == NAME && b[44..56] == TAG
  }

  /** checksum_header. */
  method ChecksumHeader(buf: array<byte>)
    requires buf.Length == 64
    modifies buf
    ensures BothHold(buf[..])
    ensures buf[..4] == old(buf[..4]) && buf[8..32] == old(buf[8..32])
  {
    ghost var b0 := buf[..];
    SetSlice(buf, 32, NAME + TAG);
    SetSlice(buf, 4, CRC_FF);
    ghost var b1 := buf[..];
    SetSlice(buf, 56, CameoSum(buf[0..56]));
    SetSlice(buf, 4, CRC_00);
    ghost var b2 := buf[..];
    SetSlice(buf, 60, InvertCrc(buf[0..60]));
    ghost var b3 := buf[..];
    SetSlice(buf, 4, CRC_FF);
    Together(b0, b1, b2, b3, buf[..]);
  }

  lemma Together(b0: seq<byte>, b1: seq<byte>, b2: seq<byte>, b3: seq<byte>, b4: seq<byte>)
    requires |b0| == 64 && b1 == Put(Put(b0, 32, NAME + TAG), 4, CRC_FF)
    requires b2 == Put(Put(b1, 56, CameoSum(b1[0..56])), 4, CRC_00)
    requires b3 == Put(b2, 60, InvertCrc(b2[0..60])) && b4 == Put(b3, 4, CRC_FF)
    ensures BothHold(b4) && b4[..4] == b0[..4] && b4[8..32] == b0[8..32]
  {
    var data := b2[0..60];
    InvertIsRegister(data);
    InvertedCrc(data);
    Slices(b0, b1, b2, b3, b4, CameoSum(b1[0..56]), InvertCrc(data));
    assert b1[0..56] == b1[..56];
  }

  lemma PutAt(b: seq<byte>, at: nat, s: seq<byte>)
    requires at + |s| <= |b|
    ensures forall i | 0 <= i < |b| :: Put(b, at, s)[i] == if at <= i < at + |s| then s[i - at] else b[i]
  {
  }

  /** Where each slice ends up. */
  lemma Slices(b0: seq<byte>, b1: seq<byte>, b2: seq<byte>, b3: seq<byte>, b4: seq<byte>, sum: seq<byte>, inv: seq<byte>)
    requires |b0| == 64 && |sum| == 4 == |inv| && b1 == Put(Put(b0, 32, NAME + TAG), 4, CRC_FF)
    requires b2 == Put(Put(b1, 56, sum), 4, CRC_00) && b3 == Put(b2, 60, inv) && b4 == Put(b3, 4, CRC_FF)
    ensures |b4| == 64 && b4[4..8] == CRC_FF && b4[56..60] == sum && b4[..56] == b1[..56]
    ensures Put(b4, 4, CRC_00) == b2[0..60] + inv
    ensures b4[32..44] == NAME && b4[44..56] == TAG && b4[..4] == b0[..4] && b4[8..32] == b0[8..32]
  {
    PutAt(b0, 32, NAME + TAG);
    PutAt(Put(b0, 32, NAME + TAG), 4, CRC_FF);
    PutAt(b1, 56, sum);
    PutAt(Put(b1, 56, sum), 4, CRC_00);
    PutAt(b2, 60, inv);
    PutAt(b3, 4, CRC_FF);
    PutAt(b4, 4, CRC_00);
  }
}
