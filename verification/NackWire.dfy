/** The BRC-126 NACK request and its ACK/MISS response on the wire. */
module NackWire {
  import opened Common
  import opened Bytes

  const NACK_SIZE: nat := 64
  const RESPONSE_SIZE: nat := 16
  const MSG_NACK: byte := 0x10
  const MSG_MISS: byte := 0x11
  const MSG_ACK: byte := 0x12
  const MAGIC: uint32 := 0xE3E1F3E8
  const PROTO_VER: uint16 := 0x02BF

  datatype Nack = Nack(msgType: byte, hashKey: uint64, startSeq: uint64, endSeq: uint64, subtreeID: Id32)

  datatype Response = Response(msgType: byte, flags: byte, seqNum: uint64)

  function NackBytes(n: Nack): (bs: seq<byte>)
    ensures |bs| == NACK_SIZE
  {
    U32(MAGIC) + U16(PROTO_VER) + [n.msgType] + [0] + U64(n.hashKey) + U64(n.startSeq) + U64(n.endSeq) + n.subtreeID
  }

  function ResponseBytes(r: Response): (bs: seq<byte>)
    ensures |bs| == RESPONSE_SIZE
  {
    U32(MAGIC) + U16(PROTO_VER) + [r.msgType] + [r.flags] + U64(r.seqNum)
  }

  /** Writes the first 64 bytes of the buffer and leaves the rest alone. */
  method Encode(n: Nack, buf: array<byte>)
    requires buf.Length >= NACK_SIZE
    modifies buf
    ensures buf[..] == NackBytes(n) + old(buf[NACK_SIZE..])
  {
    EncodeHead(n.msgType, 0, buf);
    ghost var was := old(buf[..]);
    ghost var a := U32(MAGIC) + U16(PROTO_VER) + [n.msgType] + [0];
    Put(buf, 8, U64(n.hashKey));
    Extends(was, a, U64(n.hashKey));
    ghost var b := a + U64(n.hashKey);
    Put(buf, 16, U64(n.startSeq));
    Extends(was, b, U64(n.startSeq));
    ghost var c := b + U64(n.startSeq);
    Put(buf, 24, U64(n.endSeq));
    Extends(was, c, U64(n.endSeq));
    ghost var d := c + U64(n.endSeq);
    Put(buf, 32, n.subtreeID);
    Extends(was, d, n.subtreeID);
  }

  /** The eight header bytes that requests and responses share. */
  method EncodeHead(msgType: byte, flags: byte, buf: array<byte>)
    requires buf.Length >= 8
    modifies buf
    ensures buf[..] == U32(MAGIC) + U16(PROTO_VER) + [msgType] + [flags] + old(buf[8..])
  {
    ghost var was := buf[..];
    ghost var a, b := U32(MAGIC), U32(MAGIC) + U16(PROTO_VER);
    Put(buf, 0, U32(MAGIC));
    assert [] + was[0..] == was && [] + a == a;
    Extends(was, [], a);
    Put(buf, 4, U16(PROTO_VER));
    Extends(was, a, U16(PROTO_VER));
    Put(buf, 6, [msgType]);
    Extends(was, b, [msgType]);
    Put(buf, 7, [flags]);
    Extends(was, b + [msgType], [flags]);
  }

  method EncodeResponse(r: Response, buf: array<byte>)
    requires buf.Length >= RESPONSE_SIZE
    modifies buf
    ensures buf[..] == ResponseBytes(r) + old(buf[RESPONSE_SIZE..])
  {
    EncodeHead(r.msgType, r.flags, buf);
    ghost var a := U32(MAGIC) + U16(PROTO_VER) + [r.msgType] + [r.flags];
    Put(buf, 8, U64(r.seqNum));
    Extends(old(buf[..]), a, U64(r.seqNum));
  }

  /** None stands for the invalid-datagram error. */
  function Decode(buf: seq<byte>): Option<Nack> {
    if |buf| < NACK_SIZE then None
    else if GetU32(buf[0..4]) != MAGIC then None
    else if buf[6] != MSG_NACK then None
    else Some(Nack(buf[6], GetU64(buf[8..16]), GetU64(buf[16..24]), GetU64(buf[24..32]), buf[32..64]))
  }

  function DecodeResponse(buf: seq<byte>): Option<Response> {
    if |buf| < RESPONSE_SIZE then None
    else if GetU32(buf[0..4]) != MAGIC then None
    else if buf[6] != MSG_MISS && buf[6] != MSG_ACK then None
    else Some(Response(buf[6], buf[7], GetU64(buf[8..16])))
  }

  /** The fields of an encoded NACK, by offset, whatever follows it in the buffer. */
  lemma NackLayout(n: Nack, rest: seq<byte>, b: seq<byte>)
    requires b == NackBytes(n) + rest
    ensures b[0..4] == U32(MAGIC) && b[4..6] == U16(PROTO_VER) && b[6] == n.msgType && b[7] == 0
    ensures b[8..16] == U64(n.hashKey) && b[16..24] == U64(n.startSeq)
    ensures b[24..32] == U64(n.endSeq) && b[32..64] == n.subtreeID
  {
  }

  lemma ResponseLayout(r: Response, rest: seq<byte>, b: seq<byte>)
    requires b == ResponseBytes(r) + rest
    ensures b[0..4] == U32(MAGIC) && b[6] == r.msgType && b[7] == r.flags && b[8..16] == U64(r.seqNum)
  {
  }

  /** Decoding what was encoded gives it back, exactly for the message types the decoder is for. */
  /** The first eight bytes of a request and of a response, byte by byte. */
  lemma HeadBytes(n: Nack, r: Response)
    ensures NackBytes(n)[..8] == [0xE3, 0xE1, 0xF3, 0xE8, 0x02, 0xBF, n.msgType, 0]
    ensures ResponseBytes(r)[..8] == [0xE3, 0xE1, 0xF3, 0xE8, 0x02, 0xBF, r.msgType, r.flags]
  {
    MagicBytes();
  }

  lemma NackRoundTrip(n: Nack, rest: seq<byte>)
    ensures Decode(NackBytes(n) + rest) == if n.msgType == MSG_NACK then Some(n) else None
  {
    NackLayout(n, rest, NackBytes(n) + rest);
    RoundTrip32(MAGIC);
    RoundTrip64(n.hashKey);
    RoundTrip64(n.startSeq);
    RoundTrip64(n.endSeq);
  }

  lemma ResponseRoundTrip(r: Response, rest: seq<byte>)
    ensures DecodeResponse(ResponseBytes(r) + rest) ==
      if r.msgType == MSG_MISS || r.msgType == MSG_ACK then Some(r) else None
  {
    ResponseLayout(r, rest, ResponseBytes(r) + rest);
    RoundTrip32(MAGIC);
    RoundTrip64(r.seqNum);
  }

  /** Encoding an accepted NACK again restores its bytes exactly when the two fields the decoder skips are standard. */
  lemma ReencodesIff(b: seq<byte>)
    requires Decode(b).Some?
    ensures NackBytes(Decode(b).value) == b[..NACK_SIZE] <==> b[4..6] == U16(PROTO_VER) && b[7] == 0
  {
    var n := Decode(b).value;
    Restores32(b[0..4]);
    Restores64(b[8..16]);
    Restores64(b[16..24]);
    Restores64(b[24..32]);
    assert b[..64] == b[0..4] + b[4..6] + [b[6]] + [b[7]] + b[8..16] + b[16..24] + b[24..32] + b[32..64];
    NackLayout(n, [], NackBytes(n) + []);
    assert NackBytes(n) + [] == NackBytes(n);
    if NackBytes(n) == b[..64] {
      assert b[4..6] == b[..64][4..6];
      assert b[7] == b[..64][7];
    }
  }
}
