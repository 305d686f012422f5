/** Octets, big-endian fields and the few arithmetic helpers shared by every module. */
module Prelude {

  datatype Option<+T> = None | Some(value: T)

  type byte = x: int | 0 <= x < 0x100
  type u16 = x: int | 0 <= x < 0x1_0000
  type u32 = x: int | 0 <= x < 0x1_0000_0000
  type Bytes = seq<byte>

  const U32_MAX: u32 := 0xffff_ffff
  const HEADER_LEN: nat := 12
  const NANOS: nat := 1_000_000_000

  function Min(a: int, b: int): int {
    if a <= b then a else b
  }

  function Max(a: int, b: int): int {
    if a <= b then b else a
  }

  /** Subtraction that stops at zero, as `saturating_sub` does. */
  function SatSub(a: nat, b: nat): nat {
    if a <= b then 0 else a - b
  }

  function ReadU16(m: Bytes, offset: nat): Option<u16> {
    if offset + 2 <= |m| then Some(m[offset] as int * 0x100 + m[offset + 1]) else None
  }

  function ReadU32(m: Bytes, offset: nat): Option<u32> {
    if offset + 4 <= |m|
    then Some(m[offset] as int * 0x100_0000 + m[offset + 1] as int * 0x1_0000 +
              m[offset + 2] as int * 0x100 + m[offset + 3])
    else None
  }

  /** Octet `k` of the big-endian form of `v`. */
  function Octet(v: u32, k: nat): byte {
    match k
    case 0 => v / 0x100_0000
    case 1 => v / 0x1_0000 % 0x100
    case 2 => v / 0x100 % 0x100
    case _ => v % 0x100
  }

  function OctetOr(v: u32, offset: nat, i: nat, other: byte): byte {
    if offset <= i < offset + 4 then Octet(v, i - offset) else other
  }

  /** The four octets of `v` written at `offset`. */
  function PutU32(m: Bytes, offset: nat, v: u32): Bytes
    requires offset + 4 <= |m|
  {
    seq(|m|, i requires 0 <= i < |m| => OctetOr(v, offset, i, m[i]))
  }

  /** Two octets as a number, the first one counting for 256. */
  ghost function Pair(m: Bytes, at: nat): nat
    requires at + 2 <= |m|
  {
    m[at] as int * 0x100 + m[at + 1]
  }

  /** Four octets as a number, the first pair counting for 65536. */
  ghost function Quad(m: Bytes, at: nat): nat
    requires at + 4 <= |m|
  {
    Pair(m, at) * 0x1_0000 + Pair(m, at + 2)
  }

  lemma PairIsField(m: Bytes, at: nat)
    ensures at + 2 <= |m| ==> ReadU16(m, at) == Some(Pair(m, at))
    ensures at + 2 > |m| ==> ReadU16(m, at) == None
  {
  }

  lemma QuadIsField(m: Bytes, at: nat)
    ensures at + 4 <= |m| ==> ReadU32(m, at) == Some(Quad(m, at))
    ensures at + 4 > |m| ==> ReadU32(m, at) == None
  {
  }

  /** Fields are big-endian. */
  lemma U16Octets(m: Bytes, offset: nat, v: u16)
    requires offset + 2 <= |m|
    ensures ReadU16(m, offset) == Some(v) <==> m[offset] == v / 0x100 && m[offset + 1] == v % 0x100
  {
  }

  lemma U32Octets(m: Bytes, offset: nat, v: u32)
    requires offset + 4 <= |m|
    ensures ReadU32(m, offset) == Some(v) <==>
            m[offset] == v / 0x100_0000 && m[offset + 1] == v / 0x1_0000 % 0x100
            && m[offset + 2] == v / 0x100 % 0x100 && m[offset + 3] == v % 0x100
  {
    DigitsU32(v);
  }

  /** A written field reads back, and two buffers that read the same field hold the same octets. */
  lemma ReadBackU32(m: Bytes, offset: nat, v: u32)
    requires offset + 4 <= |m|
    ensures ReadU32(PutU32(m, offset, v), offset) == Some(v)
  {
    DigitsU32(v);
    var w := PutU32(m, offset, v);
    assert w[offset] == Octet(v, 0) && w[offset + 1] == Octet(v, 1) &&
           w[offset + 2] == Octet(v, 2) && w[offset + 3] == Octet(v, 3);
  }

  lemma DigitsU32(v: u32)
    ensures v / 0x100_0000 * 0x100_0000 + v / 0x1_0000 % 0x100 * 0x1_0000 + v / 0x100 % 0x100 * 0x100 + v % 0x100 == v
  {
    assert v / 0x1_0000 / 0x100 == v / 0x100_0000;
    assert v / 0x100 / 0x100 == v / 0x1_0000;
  }

  lemma SameFieldSameOctets(a: Bytes, b: Bytes, offset: nat)
    requires offset + 4 <= |a| && offset + 4 <= |b|
    requires ReadU32(a, offset) == ReadU32(b, offset)
    ensures forall i :: offset <= i < offset + 4 ==> a[i] == b[i]
  {
    assert a[offset] == b[offset];
    assert a[offset + 1] == b[offset + 1];
    assert a[offset + 2] == b[offset + 2];
  }

  /** The query or response with its two ID octets replaced. */
  function WithId(m: Bytes, id0: byte, id1: byte): Bytes
    requires |m| >= 2
  {
    m[0 := id0][1 := id1]
  }
}
