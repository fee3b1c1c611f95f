/** Bytes and the big-endian integers of `encoding/binary`. */
module Bytes {
  type byte = x: int | 0 <= x < 0x100
  type uint16 = x: int | 0 <= x < 0x1_0000
  type uint32 = x: int | 0 <= x < 0x1_0000_0000

  /** The number that bytes stand for, the most significant first. */
  function Value(s: seq<byte>): (n: nat) {
    if s == [] then 0 else 256 * Value(s[..|s| - 1]) + s[|s| - 1]
  }

  function PutU16(v: uint16): (r: seq<byte>)
    ensures |r| == 2
  {
    [v / 0x100, v % 0x100]
  }

  function GetU16(s: seq<byte>): (v: uint16)
    requires |s| == 2
  {
    (s[0] as int) * 0x100 + s[1]
  }

  function PutU32(v: uint32): (r: seq<byte>)
    ensures |r| == 4
  {
    [v / 0x100_0000, v / 0x1_0000 % 0x100, v / 0x100 % 0x100, v % 0x100]
  }

  function GetU32(s: seq<byte>): (v: uint32)
    requires |s| == 4
  {
    (s[0] as int) * 0x100_0000 + (s[1] as int) * 0x1_0000 + (s[2] as int) * 0x100 + s[3]
  }

  lemma U16RoundTrip(v: uint16)
    ensures GetU16(PutU16(v)) == v
  {
  }

  lemma U32RoundTrip(v: uint32)
    ensures GetU32(PutU32(v)) == v
  {
    var hi := v / 0x1_0000;
    var lo := v % 0x1_0000;
    assert v / 0x100_0000 == hi / 0x100;
    assert v / 0x100 % 0x100 == lo / 0x100 by {
      assert v / 0x100 == hi * 0x100 + lo / 0x100;
    }
    assert v % 0x100 == lo % 0x100;
  }

  /** The encoding of a 16-bit field is determined by the value it reads back to. */
  lemma U16Canonical(s: seq<byte>)
    requires |s| == 2
    ensures PutU16(GetU16(s)) == s
  {
  }

  lemma U32Canonical(s: seq<byte>)
    requires |s| == 4
    ensures PutU32(GetU32(s)) == s
  {
    var v := GetU32(s);
    assert v / 0x100_0000 == s[0];
    assert v / 0x1_0000 == (s[0] as int) * 0x100 + s[1];
    assert v / 0x100 == (s[0] as int) * 0x1_0000 + (s[1] as int) * 0x100 + s[2];
  }

  lemma TwoDigits(s: seq<byte>)
    requires |s| == 2
    ensures Value(s) == 256 * (s[0] as int) + s[1]
  {
    assert s[..1][..0] == [] && Value(s[..1]) == s[0];
  }

  lemma FourDigits(s: seq<byte>)
    requires |s| == 4
    ensures Value(s) == 0x100_0000 * (s[0] as int) + 0x1_0000 * (s[1] as int) + 256 * (s[2] as int) + s[3]
  {
    assert s[..3][..2] == s[..2];
    assert s[..3][2] == s[2];
    TwoDigits(s[..2]);
  }

  /** What is put are the digits of the number, and what is got is the number: the order is
      big-endian. */
  lemma U16IsBigEndian(v: uint16, s: seq<byte>)
    requires |s| == 2
    ensures Value(PutU16(v)) == v && GetU16(s) == Value(s)
  {
    TwoDigits(PutU16(v));
    TwoDigits(s);
  }

  lemma U32IsBigEndian(v: uint32, s: seq<byte>)
    requires |s| == 4
    ensures Value(PutU32(v)) == v && GetU32(s) == Value(s)
  {
    FourDigits(PutU32(v));
    FourDigits(s);
    U32RoundTrip(v);
  }

  /** All the bytes of a list of chunks, in order. */
  function Flatten(chunks: seq<seq<byte>>): seq<byte> {
    if chunks == [] then [] else chunks[0] + Flatten(chunks[1..])
  }

  lemma {:induction false} FlattenAppend(a: seq<seq<byte>>, b: seq<seq<byte>>)
    ensures Flatten(a + b) == Flatten(a) + Flatten(b)
  {
    if a == [] {
      assert a + b == b;
    } else {
      assert (a + b)[1..] == a[1..] + b;
      FlattenAppend(a[1..], b);
    }
  }
}
