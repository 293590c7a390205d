/** Big-endian integers and in-place writes into a datagram buffer. */
module Bytes {
  import opened Common

  function Pow256(n: nat): nat { if n == 0 then 1 else 256 * Pow256(n - 1) }

  /** The n-byte big-endian form of x. */
  function BigEndian(x: nat, n: nat): (bs: seq<byte>)
    requires x < Pow256(n)
    ensures |bs| == n
  {
    if n == 0 then [] else BigEndian(x / 256, n - 1) + [x % 256]
  }

  function FromBigEndian(bs: seq<byte>): nat {
    if bs == [] then 0 else FromBigEndian(bs[..|bs| - 1]) * 256 + bs[|bs| - 1]
  }

  lemma {:induction false} DecodesBack(x: nat, n: nat)
    requires x < Pow256(n)
    ensures FromBigEndian(BigEndian(x, n)) == x
  {
    if n > 0 {
      DecodesBack(x / 256, n - 1);
      assert BigEndian(x, n)[..n - 1] == BigEndian(x / 256, n - 1);
    }
  }

  lemma {:induction false} EncodesBack(bs: seq<byte>)
    ensures FromBigEndian(bs) < Pow256(|bs|) && BigEndian(FromBigEndian(bs), |bs|) == bs
  {
    if bs != [] {
      var n := |bs| - 1;
      EncodesBack(bs[..n]);
      assert bs == bs[..n] + [bs[n]];
    }
  }

  /** The most significant byte comes first. */
  lemma {:induction false} MostSignificantFirst(b: byte, rest: seq<byte>)
    ensures FromBigEndian([b] + rest) == b * Pow256(|rest|) + FromBigEndian(rest)
  {
    if rest == [] {
      assert [b] + rest == [b] && [b][..0] == [];
    } else {
      var n := |rest| - 1;
      var all := [b] + rest;
      MostSignificantFirst(b, rest[..n]);
      assert all[..n + 1] == [b] + rest[..n];
      assert 256 * (b * Pow256(n)) == b * Pow256(n + 1);
    }
  }

  /** The bytes of the protocol's magic number and version, as they stand on the wire. */
  lemma MagicBytes()
    ensures U32(0xE3E1F3E8) == [0xE3, 0xE1, 0xF3, 0xE8] && U16(0x02BF) == [0x02, 0xBF]
  {
    Widths();
    assert Pow256(3) == 0x100_0000;
    assert BigEndian(0xE3, 1) == [] + [0xE3];
    assert BigEndian(0xE3E1, 2) == [0xE3] + [0xE1];
    assert BigEndian(0xE3E1F3, 3) == [0xE3, 0xE1] + [0xF3];
    assert BigEndian(0x02, 1) == [] + [0x02];
  }

  lemma Widths()
    ensures Pow256(1) == 0x100 && Pow256(2) == 0x1_0000 && Pow256(4) == TWO32 && Pow256(8) == TWO64
  {
    assert Pow256(3) == 0x100_0000;
    assert Pow256(5) == 0x100_0000_0000;
    assert Pow256(6) == 0x1_0000_0000_0000;
    assert Pow256(7) == 0x100_0000_0000_0000;
  }

  function U16(x: uint16): (bs: seq<byte>) ensures |bs| == 2 { Widths(); BigEndian(x, 2) }
  function U32(x: uint32): (bs: seq<byte>) ensures |bs| == 4 { Widths(); BigEndian(x, 4) }
  function U64(x: uint64): (bs: seq<byte>) ensures |bs| == 8 { Widths(); BigEndian(x, 8) }

  function GetU16(bs: seq<byte>): uint16
    requires |bs| == 2
  {
    Widths(); EncodesBack(bs); FromBigEndian(bs)
  }

  function GetU32(bs: seq<byte>): uint32
    requires |bs| == 4
  {
    Widths(); EncodesBack(bs); FromBigEndian(bs)
  }

  function GetU64(bs: seq<byte>): uint64
    requires |bs| == 8
  {
    Widths(); EncodesBack(bs); FromBigEndian(bs)
  }

  lemma RoundTrip16(x: uint16) ensures GetU16(U16(x)) == x { Widths(); DecodesBack(x, 2); }
  lemma RoundTrip32(x: uint32) ensures GetU32(U32(x)) == x { Widths(); DecodesBack(x, 4); }
  lemma RoundTrip64(x: uint64) ensures GetU64(U64(x)) == x { Widths(); DecodesBack(x, 8); }
  lemma Restores64(bs: seq<byte>) requires |bs| == 8 ensures U64(GetU64(bs)) == bs { Widths(); EncodesBack(bs); }
  lemma Restores32(bs: seq<byte>) requires |bs| == 4 ensures U32(GetU32(bs)) == bs { Widths(); EncodesBack(bs); }

  /** The bytes with `bs` written at an offset. */
  function Splice(s: seq<byte>, at: nat, bs: seq<byte>): (r: seq<byte>)
    requires at + |bs| <= |s|
    ensures |r| == |s|
  {
    s[..at] + bs + s[at + |bs|..]
  }

  method Put(buf: array<byte>, at: nat, bs: seq<byte>)
    requires at + |bs| <= buf.Length
    modifies buf
    ensures buf[..] == Splice(old(buf[..]), at, bs)
  {
    var i := 0;
    while i < |bs|
      invariant 0 <= i <= |bs|
      invariant buf[..at] == old(buf[..at])
      invariant buf[at..at + i] == bs[..i]
      invariant buf[at + i..] == old(buf[at + i..])
    {
      buf[at + i] := bs[i];
      i := i + 1;
    }
    assert buf[..] == buf[..at] + buf[at..at + i] + buf[at + i..];
  }

  /** Writing the next field of a layout extends what has been laid out. */
  lemma Extends(was: seq<byte>, done: seq<byte>, bs: seq<byte>)
    requires |done| + |bs| <= |was|
    ensures Splice(done + was[|done|..], |done|, bs) == (done + bs) + was[|done + bs|..]
  {
  }
}
