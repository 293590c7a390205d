/** The BRC-126 ADVERT beacon on the wire. */
module AdvertWire {
  import opened Common
  import opened Bytes
  import NackWire

  const ADVERT_SIZE: nat := 56
  const MSG_ADVERT: byte := 0x20
  const MAGIC: uint32 := 0xE3E1F3E8
  const PROTO_VER: uint16 := 0x02BF

  /** `nackAddr` is an address of any length, as the IP type allows. */
  datatype Advert = Advert(scope: byte, nackAddr: seq<byte>, nackPort: uint16, tier: byte, preference: byte,
                           beaconInterval: uint16, flags: uint16, instanceID: uint32)

  function Zeros(n: nat): (z: seq<byte>) ensures |z| == n { seq(n, _ => 0) }

  /** The 16-byte form: an IPv6 address as it is, an IPv4 address mapped, nothing for other lengths. */
  function To16(addr: seq<byte>): (r: Option<seq<byte>>)
    ensures r.Some? ==> |r.value| == 16
  {
    if |addr| == 16 then Some(addr)
    else if |addr| == 4 then Some(Zeros(10) + [0xFF, 0xFF] + addr)
    else None
  }

  /** Bytes 0 to 7, 24 to 27 and 28 to 55; the address stands between the first two. */
  function HeadPart(scope: byte): (bs: seq<byte>) ensures |bs| == 8 {
    U32(MAGIC) + U16(PROTO_VER) + [MSG_ADVERT] + [scope]
  }

  function MiddlePart(a: Advert): (bs: seq<byte>) ensures |bs| == 4 {
    U16(a.nackPort) + [a.tier] + [a.preference]
  }

  function TailPart(a: Advert): (bs: seq<byte>) ensures |bs| == 28 {
    U16(a.beaconInterval) + U16(a.flags) + U32(a.instanceID) + U32(0) + Zeros(16)
  }

  function AdvertBytes(a: Advert, addr: seq<byte>): (bs: seq<byte>)
    requires |addr| == 16
    ensures |bs| == ADVERT_SIZE
  {
    HeadPart(a.scope) + addr + MiddlePart(a) + TailPart(a)
  }

  /** An address without a 16-byte form is not written: the buffer's old bytes stay in its place. */
  method Encode(a: Advert, buf: array<byte>)
    requires buf.Length >= ADVERT_SIZE
    modifies buf
    ensures var addr := match To16(a.nackAddr) case Some(x) => x case None => old(buf[8..24]);
      buf[..] == AdvertBytes(a, addr) + old(buf[ADVERT_SIZE..])
  {
    ghost var was := buf[..];
    var addr16 := To16(a.nackAddr);
    EncodeHead(a.scope, buf);
    EncodeAddr(addr16, was, HeadPart(a.scope), buf);
    ghost var addr := match addr16 case Some(x) => x case None => was[8..24];
    EncodeMiddle(a, was, HeadPart(a.scope) + addr, buf);
    EncodeTail(a, was, HeadPart(a.scope) + addr + MiddlePart(a), buf);
  }

  method EncodeHead(scope: byte, buf: array<byte>)
    requires buf.Length >= 8
    modifies buf
    ensures buf[..] == HeadPart(scope) + old(buf[8..])
  {
    ghost var was := buf[..];
    ghost var a, b := U32(MAGIC), U32(MAGIC) + U16(PROTO_VER);
    Put(buf, 0, U32(MAGIC));
    assert [] + was[0..] == was && [] + a == a;
    Extends(was, [], a);
    Put(buf, 4, U16(PROTO_VER));
    Extends(was, a, U16(PROTO_VER));
    Put(buf, 6, [MSG_ADVERT]);
    Extends(was, b, [MSG_ADVERT]);
    Put(buf, 7, [scope]);
    Extends(was, b + [MSG_ADVERT], [scope]);
  }

  /** Bytes 8 to 23, left as they were when there is no 16-byte form. */
  method EncodeAddr(addr16: Option<seq<byte>>, ghost was: seq<byte>, ghost p: seq<byte>, buf: array<byte>)
    requires addr16.Some? ==> |addr16.value| == 16
    requires buf.Length == |was| >= ADVERT_SIZE && |p| == 8 && buf[..] == p + was[8..]
    modifies buf
    ensures var addr := match addr16 case Some(x) => x case None => was[8..24];
      buf[..] == p + addr + was[24..]
  {
    match addr16 {
      case Some(x) =>
        Put(buf, 8, x);
        Extends(was, p, x);
      case None =>
        assert was[8..] == was[8..24] + was[24..];
    }
  }

  /** Bytes 24 to 27: port, tier and preference. */
  method EncodeMiddle(a: Advert, ghost was: seq<byte>, ghost p: seq<byte>, buf: array<byte>)
    requires buf.Length == |was| >= ADVERT_SIZE && |p| == 24 && buf[..] == p + was[24..]
    modifies buf
    ensures buf[..] == p + MiddlePart(a) + was[28..]
  {
    Put(buf, 24, U16(a.nackPort));
    Extends(was, p, U16(a.nackPort));
    ghost var q := p + U16(a.nackPort);
    Put(buf, 26, [a.tier]);
    Extends(was, q, [a.tier]);
    Put(buf, 27, [a.preference]);
    Extends(was, q + [a.tier], [a.preference]);
    assert q + [a.tier] + [a.preference] == p + MiddlePart(a);
  }

  /** Bytes 28 to 55: interval, flags, instance, and the reserved bytes zeroed one by one. */
  method EncodeTail(a: Advert, ghost was: seq<byte>, ghost p: seq<byte>, buf: array<byte>)
    requires buf.Length == |was| >= ADVERT_SIZE && |p| == 28 && buf[..] == p + was[28..]
    modifies buf
    ensures buf[..] == p + TailPart(a) + was[ADVERT_SIZE..]
  {
    ghost var x, y, z := U16(a.beaconInterval), U16(a.flags), U32(a.instanceID);
    Put(buf, 28, U16(a.beaconInterval));
    Extends(was, p, x);
    Put(buf, 30, U16(a.flags));
    Extends(was, p + x, y);
    Put(buf, 32, U32(a.instanceID));
    Extends(was, p + x + y, z);
    Put(buf, 36, U32(0));
    Extends(was, p + x + y + z, U32(0));
    ZeroReserved(was, p + x + y + z + U32(0), buf);
    Regroup(p, x, y, z, U32(0), Zeros(16));
  }

  lemma Regroup(p: seq<byte>, q: seq<byte>, r: seq<byte>, s: seq<byte>, t: seq<byte>, u: seq<byte>)
    ensures p + q + r + s + t + u == p + (q + r + s + t + u)
  {
    assert p + q + r + s + t == p + (q + r + s + t) by {
      assert p + q + r + s == p + (q + r + s) by {
        assert p + q + r == p + (q + r);
      }
    }
  }

  method ZeroReserved(ghost was: seq<byte>, ghost p: seq<byte>, buf: array<byte>)
    requires buf.Length == |was| >= ADVERT_SIZE && |p| == 40 && buf[..] == p + was[40..]
    modifies buf
    ensures buf[..] == p + Zeros(16) + was[ADVERT_SIZE..]
  {
    var i := 40;
    while i < 56
      invariant 40 <= i <= 56
      invariant buf[..] == p + Zeros(i - 40) + was[i..]
    {
      buf[i] := 0;
      assert Zeros(i + 1 - 40) == Zeros(i - 40) + [0];
      i := i + 1;
    }
  }

  predicate AllZero(bs: seq<byte>) { forall i :: 0 <= i < |bs| ==> bs[i] == 0 }

  function Decode(buf: seq<byte>): Option<Advert> {
    if |buf| < ADVERT_SIZE then None
    else if GetU32(buf[0..4]) != MAGIC then None
    else if buf[6] != MSG_ADVERT then None
    else if AllZero(buf[8..24]) then None
    else Some(Advert(buf[7], buf[8..24], GetU16(buf[24..26]), buf[26], buf[27], GetU16(buf[28..30]),
                     GetU16(buf[30..32]), GetU32(buf[32..36])))
  }

  /** The decoder with its scan for a non-zero address byte. */
  method DecodeAdvert(buf: seq<byte>) returns (r: Option<Advert>)
    ensures r == Decode(buf)
  {
    if |buf| < ADVERT_SIZE { return None; }
    if GetU32(buf[0..4]) != MAGIC { return None; }
    if buf[6] != MSG_ADVERT { return None; }
    var nackAddr := buf[8..24];
    var allZero := true;
    var i := 0;
    while i < |nackAddr| && allZero
      invariant 0 <= i <= |nackAddr|
      invariant allZero <==> AllZero(nackAddr[..i])
    {
      assert nackAddr[..i + 1] == nackAddr[..i] + [nackAddr[i]];
      if nackAddr[i] != 0 { allZero := false; }
      i := i + 1;
    }
    assert allZero <==> AllZero(nackAddr) by {
      if allZero {
        assert nackAddr[..i] == nackAddr;
      } else {
        var k :| 0 <= k < i && nackAddr[..i][k] != 0;
        assert nackAddr[k] != 0;
      }
    }
    if allZero { return None; }
    r := Some(Advert(buf[7], nackAddr, GetU16(buf[24..26]), buf[26], buf[27], GetU16(buf[28..30]),
                     GetU16(buf[30..32]), GetU32(buf[32..36])));
  }

  /** The parts of a concatenation are found again at their offsets. */
  lemma Fields(b: seq<byte>, p: seq<byte>, q: seq<byte>, r: seq<byte>, s: seq<byte>, t: seq<byte>,
               i: nat, j: nat, k: nat, l: nat)
    requires b == p + q + r + s + t
    requires i == |p| && j == i + |q| && k == j + |r| && l == k + |s|
    ensures b[0..i] == p && b[i..j] == q && b[j..k] == r && b[k..l] == s
  {
  }

  lemma Layout(a: Advert, addr: seq<byte>, rest: seq<byte>, b: seq<byte>)
    requires |addr| == 16 && b == AdvertBytes(a, addr) + rest
    ensures b[0..8] == HeadPart(a.scope) && b[8..24] == addr && b[24..28] == MiddlePart(a) && b[28..56] == TailPart(a)
  {
    Fields(b, HeadPart(a.scope), addr, MiddlePart(a), TailPart(a), rest, 8, 24, 28, 56);
  }

  /** A slice of a slice. */
  lemma Inner(b: seq<byte>, from: nat, to: nat, i: nat, j: nat)
    requires from <= to <= |b| && i <= j <= to - from
    ensures b[from..to][i..j] == b[from + i..from + j]
  {
    var inner, outer := b[from..to][i..j], b[from + i..from + j];
    forall k | 0 <= k < |inner| ensures inner[k] == outer[k] {
    }
  }

  lemma HeadFields(a: Advert, addr: seq<byte>, rest: seq<byte>, b: seq<byte>)
    requires |addr| == 16 && b == AdvertBytes(a, addr) + rest
    ensures b[0..4] == U32(MAGIC) && b[6] == MSG_ADVERT && b[7] == a.scope
  {
    Layout(a, addr, rest, b);
    var h := b[0..8];
    assert h == h + [];
    Fields(h, U32(MAGIC), U16(PROTO_VER), [MSG_ADVERT], [a.scope], [], 4, 6, 7, 8);
    Inner(b, 0, 8, 0, 4);
    assert h[6..7][0] == b[6] && h[7..8][0] == b[7];
  }

  lemma MiddleFields(a: Advert, addr: seq<byte>, rest: seq<byte>, b: seq<byte>)
    requires |addr| == 16 && b == AdvertBytes(a, addr) + rest
    ensures b[24..26] == U16(a.nackPort) && b[26] == a.tier && b[27] == a.preference
  {
    Layout(a, addr, rest, b);
    var m := b[24..28];
    assert m == m + [] + [];
    Fields(m, U16(a.nackPort), [a.tier], [a.preference], [], [], 2, 3, 4, 4);
    Inner(b, 24, 28, 0, 2);
    assert m[2..3][0] == b[26] && m[3..4][0] == b[27];
  }

  lemma TailFields(a: Advert, addr: seq<byte>, rest: seq<byte>, b: seq<byte>)
    requires |addr| == 16 && b == AdvertBytes(a, addr) + rest
    ensures b[28..30] == U16(a.beaconInterval) && b[30..32] == U16(a.flags) && b[32..36] == U32(a.instanceID)
  {
    Layout(a, addr, rest, b);
    Fields(b[28..56], U16(a.beaconInterval), U16(a.flags), U32(a.instanceID), U32(0), Zeros(16), 2, 4, 8, 12);
    Inner(b, 28, 56, 0, 2);
    Inner(b, 28, 56, 2, 4);
    Inner(b, 28, 56, 4, 8);
  }

  /** Decoding gives the beacon back with the address bytes on the wire, unless these are all zero. */
  lemma WireRoundTrip(a: Advert, addr: seq<byte>, rest: seq<byte>)
    requires |addr| == 16
    ensures Decode(AdvertBytes(a, addr) + rest) == if AllZero(addr) then None else Some(a.(nackAddr := addr))
  {
    Layout(a, addr, rest, AdvertBytes(a, addr) + rest);
    HeadFields(a, addr, rest, AdvertBytes(a, addr) + rest);
    MiddleFields(a, addr, rest, AdvertBytes(a, addr) + rest);
    TailFields(a, addr, rest, AdvertBytes(a, addr) + rest);
    RoundTrip32(MAGIC);
    RoundTrip16(a.nackPort);
    RoundTrip16(a.beaconInterval);
    RoundTrip16(a.flags);
    RoundTrip32(a.instanceID);
  }

  /** The beacon itself comes back exactly when its address is a non-zero 16-byte one. */
  lemma RoundTripIff(a: Advert, old16: seq<byte>, rest: seq<byte>)
    requires |old16| == 16
    ensures var addr := match To16(a.nackAddr) case Some(x) => x case None => old16;
      Decode(AdvertBytes(a, addr) + rest) == Some(a) <==> |a.nackAddr| == 16 && !AllZero(a.nackAddr)
  {
    var addr := match To16(a.nackAddr) case Some(x) => x case None => old16;
    WireRoundTrip(a, addr, rest);
    if |a.nackAddr| != 16 { assert |a.(nackAddr := addr).nackAddr| == 16; }
  }

  /** An IPv4 beacon comes back with the mapped address. */
  lemma Ipv4RoundTrip(a: Advert, rest: seq<byte>)
    requires |a.nackAddr| == 4
    ensures Decode(AdvertBytes(a, To16(a.nackAddr).value) + rest) ==
      Some(a.(nackAddr := Zeros(10) + [0xFF, 0xFF] + a.nackAddr))
  {
    var addr := To16(a.nackAddr).value;
    assert addr[10] == 0xFF;
    WireRoundTrip(a, addr, rest);
  }

  /** No byte string is taken for two kinds of message. */
  lemma OneKindOnly(b: seq<byte>)
    ensures !(NackWire.Decode(b).Some? && NackWire.DecodeResponse(b).Some?)
    ensures !(NackWire.Decode(b).Some? && Decode(b).Some?)
    ensures !(NackWire.DecodeResponse(b).Some? && Decode(b).Some?)
  {
  }
}
