/** V2 datagram framing: a 52-byte fixed header in network byte order, then the payload. */
module Codec {
  import opened Prelude

  type Bytes = seq<u8>

  // ---------------------------------------------------------------------
  // Big-endian integers
  // ---------------------------------------------------------------------

  function BigEndian(width: nat, x: nat): (b: Bytes)
    ensures |b| == width
  {
    if width == 0 then [] else BigEndian(width - 1, x / 256) + [x % 256]
  }

  function Value(b: Bytes): nat {
    if b == [] then 0 else Value(b[..|b| - 1]) * 256 + b[|b| - 1]
  }

  function Values(width: nat): nat {
    if width == 0 then 1 else 256 * Values(width - 1)
  }

  lemma {:induction false} ValueInvertsBigEndian(width: nat, x: nat)
    requires x < Values(width)
    ensures Value(BigEndian(width, x)) == x
  {
    if width > 0 {
      ValueInvertsBigEndian(width - 1, x / 256);
      assert BigEndian(width, x)[..width - 1] == BigEndian(width - 1, x / 256);
    }
  }

  lemma {:induction false} BigEndianInvertsValue(b: Bytes)
    ensures Value(b) < Values(|b|)
    ensures BigEndian(|b|, Value(b)) == b
  {
    if b != [] {
      BigEndianInvertsValue(b[..|b| - 1]);
      assert b == b[..|b| - 1] + [b[|b| - 1]];
    }
  }

  /** Dividing by 256 and then by `v` is dividing by both at once. */
  lemma DividesTwice(x: nat, v: nat)
    requires v > 0
    ensures x / 256 / v == x / (256 * v)
  {
    var q, r := x / 256 / v, x / 256 % v;
    var rest := 256 * r + x % 256;
    assert x == 256 * (v * q + r) + x % 256 == 256 * v * q + rest;
    assert rest < 256 * v;
    QuotientIs(x, 256 * v, q, rest);
  }

  lemma TimesGrows(d: nat, a: nat, b: nat)
    requires a < b
    ensures d * a + d <= d * b
  {
    var k := b - a - 1;
    assert b == a + 1 + k;
    assert d * b == d * a + d + d * k;
  }

  lemma QuotientIs(x: nat, d: nat, q: nat, r: nat)
    requires r < d && x == d * q + r
    ensures x / d == q
  {
    var p := x / d;
    assert x == d * p + x % d;
    if p > q {
      TimesGrows(d, q, p);
    } else if p < q {
      TimesGrows(d, p, q);
    }
  }

  /** The most significant byte comes first: byte `i` has `width - 1 - i` bytes after it. */
  lemma {:induction false} BytesFallInWeight(width: nat, x: nat, i: nat)
    requires i < width
    ensures Values(width - 1 - i) > 0
    ensures BigEndian(width, x)[i] == x / Values(width - 1 - i) % 256
  {
    if i < width - 1 {
      BytesFallInWeight(width - 1, x / 256, i);
      DividesTwice(x, Values(width - 2 - i));
    }
  }

  lemma Widths()
    ensures Values(2) == U16_MAX + 1 && Values(4) == U32_MAX + 1 && Values(8) == U64_MAX + 1
  {
    assert Values(1) == 256 && Values(2) == 256 * 256 && Values(3) == 0x1_000000 && Values(4) == 0x1_0000_0000;
    assert Values(5) == 0x100_0000_0000 && Values(6) == 0x1_0000_0000_0000 && Values(7) == 0x100_0000_0000_0000;
  }

  function U16(b: Bytes): u16
    requires |b| == 2
  {
    BigEndianInvertsValue(b); Widths(); Value(b)
  }

  function U32(b: Bytes): u32
    requires |b| == 4
  {
    BigEndianInvertsValue(b); Widths(); Value(b)
  }

  function U64(b: Bytes): u64
    requires |b| == 8
  {
    BigEndianInvertsValue(b); Widths(); Value(b)
  }

  // ---------------------------------------------------------------------
  // Envelope
  // ---------------------------------------------------------------------

  const VERSION: u8 := 0x02
  const FIXED_HEADER_LEN: nat := 52

  datatype TrafficClass = Realtime | Interactive | Bulk | Control

  datatype Direction = ClientToGateway | GatewayToClient

  type SessionId = s: Bytes | |s| == 16 witness [0, 0, 0, 0, 0, 0, 0, 0, 0, 0, 0, 0, 0, 0, 0, 0]

  datatype Header = Header(trafficClass: TrafficClass, direction: Direction, sessionId: SessionId,
                           pathId: u16, pathEpoch: u64, keyEpoch: u32, flowId: u64, packetId: u64)

  datatype Envelope = Envelope(header: Header, payload: Bytes)

  datatype EnvelopeError =
    | TruncatedHeader
    | UnsupportedVersion(version: u8)
    | ReservedFlags(flags: u8)
    | UnknownTrafficClass(wire: u8)
    | ControlDatagram
    | UnknownDirection(wire: u8)
    | ZeroPathEpoch
    | ZeroKeyEpoch
    | EmptyPayload
    | PayloadExceedsLimit(length: nat, limit: nat)
    | PayloadLengthOverflow
    | TruncatedPayload(declared: nat, actual: nat)
    | TrailingData(declared: nat, actual: nat)

  function ClassToWire(c: TrafficClass): u8 {
    match c case Realtime => 0 case Interactive => 1 case Bulk => 2 case Control => 3
  }

  function ClassFromWire(b: u8): Option<TrafficClass> {
    match b
    case 0 => Some(Realtime)
    case 1 => Some(Interactive)
    case 2 => Some(Bulk)
    case 3 => Some(Control)
    case _ => None
  }

  function DirectionToWire(d: Direction): u8 {
    match d case ClientToGateway => 1 case GatewayToClient => 2
  }

  function DirectionFromWire(b: u8): Option<Direction> {
    match b
    case 1 => Some(ClientToGateway)
    case 2 => Some(GatewayToClient)
    case _ => None
  }

  function HeaderError(h: Header): Option<EnvelopeError> {
    if h.trafficClass == Control then Some(ControlDatagram)
    else if h.pathEpoch == 0 then Some(ZeroPathEpoch)
    else if h.keyEpoch == 0 then Some(ZeroKeyEpoch)
    else None
  }

  function PayloadLenError(len: nat, limit: nat): Option<EnvelopeError> {
    if len == 0 then Some(EmptyPayload)
    else if len > limit then Some(PayloadExceedsLimit(len, limit))
    else if len > U16_MAX then Some(PayloadLengthOverflow)
    else None
  }

  function HeaderBytes(h: Header, payloadLen: nat): (b: Bytes)
    ensures |b| == FIXED_HEADER_LEN
  {
    [VERSION, ClassToWire(h.trafficClass), 0, DirectionToWire(h.direction)]
    + h.sessionId
    + BigEndian(2, h.pathId)
    + BigEndian(8, h.pathEpoch)
    + BigEndian(4, h.keyEpoch)
    + BigEndian(8, h.flowId)
    + BigEndian(8, h.packetId)
    + BigEndian(2, payloadLen)
  }

  function Encode(e: Envelope, limit: nat): Result<Bytes, EnvelopeError> {
    var badHeader := HeaderError(e.header);
    var badLength := PayloadLenError(|e.payload|, limit);
    if badHeader.Some? then Err(badHeader.value)
    else if badLength.Some? then Err(badLength.value)
    else Ok(HeaderBytes(e.header, |e.payload|) + e.payload)
  }

  function Decode(d: Bytes, limit: nat): Result<Envelope, EnvelopeError> {
    if |d| < FIXED_HEADER_LEN then Err(TruncatedHeader)
    else if d[0] != VERSION then Err(UnsupportedVersion(d[0]))
    else if ClassFromWire(d[1]).None? then Err(UnknownTrafficClass(d[1]))
    else if d[2] != 0 then Err(ReservedFlags(d[2]))
    else if ClassFromWire(d[1]) == Some(Control) then Err(ControlDatagram)
    else if DirectionFromWire(d[3]).None? then Err(UnknownDirection(d[3]))
    else
      var h := Header(ClassFromWire(d[1]).value, DirectionFromWire(d[3]).value, d[4..20],
                      U16(d[20..22]), U64(d[22..30]), U32(d[30..34]), U64(d[34..42]), U64(d[42..50]));
      var declared := U16(d[50..52]);
      var actual := |d| - FIXED_HEADER_LEN;
      var badHeader := HeaderError(h);
      var badLength := PayloadLenError(declared, limit);
      if badHeader.Some? then Err(badHeader.value)
      else if badLength.Some? then Err(badLength.value)
      else if actual < declared then Err(TruncatedPayload(declared, actual))
      else if actual > declared then Err(TrailingData(declared, actual))
      else Ok(Envelope(h, d[FIXED_HEADER_LEN..]))
  }

  // ---------------------------------------------------------------------
  // The codec is a bijection
  // ---------------------------------------------------------------------

  /** What each header field of an encoded datagram holds. */
  lemma HeaderLayout(h: Header, payloadLen: nat, payload: Bytes)
    ensures var d := HeaderBytes(h, payloadLen) + payload;
            && d[0] == 0x02 && d[2] == 0
            && d[1] == (match h.trafficClass case Realtime => 0 case Interactive => 1 case Bulk => 2 case Control => 3)
            && d[3] == (match h.direction case ClientToGateway => 1 case GatewayToClient => 2)
            && d[4..20] == h.sessionId
            && d[20..22] == BigEndian(2, h.pathId)
            && d[22..30] == BigEndian(8, h.pathEpoch)
            && d[30..34] == BigEndian(4, h.keyEpoch)
            && d[34..42] == BigEndian(8, h.flowId)
            && d[42..50] == BigEndian(8, h.packetId)
            && d[50..52] == BigEndian(2, payloadLen)
            && d[FIXED_HEADER_LEN..] == payload
  {
  }

  /** Every encoded envelope decodes to itself, under any limit that admits its payload. */
  lemma DecodeInvertsEncode(e: Envelope, limit: nat, decodeLimit: nat)
    requires Encode(e, limit).Ok? && |e.payload| <= decodeLimit
    ensures Decode(Encode(e, limit).value, decodeLimit) == Ok(e)
    ensures |Encode(e, limit).value| == FIXED_HEADER_LEN + |e.payload|
  {
    HeaderLayout(e.header, |e.payload|, e.payload);
    FieldsReadBack(e.header, |e.payload|);
  }

  lemma FieldsReadBack(h: Header, payloadLen: u16)
    ensures U16(BigEndian(2, h.pathId)) == h.pathId
    ensures U64(BigEndian(8, h.pathEpoch)) == h.pathEpoch
    ensures U32(BigEndian(4, h.keyEpoch)) == h.keyEpoch
    ensures U64(BigEndian(8, h.flowId)) == h.flowId
    ensures U64(BigEndian(8, h.packetId)) == h.packetId
    ensures U16(BigEndian(2, payloadLen)) == payloadLen
  {
    Widths();
    ValueInvertsBigEndian(2, h.pathId);
    ValueInvertsBigEndian(8, h.pathEpoch);
    ValueInvertsBigEndian(4, h.keyEpoch);
    ValueInvertsBigEndian(8, h.flowId);
    ValueInvertsBigEndian(8, h.packetId);
    ValueInvertsBigEndian(2, payloadLen);
  }

  lemma FieldsWriteBack(d: Bytes)
    requires |d| >= FIXED_HEADER_LEN
    ensures BigEndian(2, U16(d[20..22])) == d[20..22]
    ensures BigEndian(8, U64(d[22..30])) == d[22..30]
    ensures BigEndian(4, U32(d[30..34])) == d[30..34]
    ensures BigEndian(8, U64(d[34..42])) == d[34..42]
    ensures BigEndian(8, U64(d[42..50])) == d[42..50]
    ensures BigEndian(2, U16(d[50..52])) == d[50..52]
  {
    BigEndianInvertsValue(d[20..22]);
    BigEndianInvertsValue(d[22..30]);
    BigEndianInvertsValue(d[30..34]);
    BigEndianInvertsValue(d[34..42]);
    BigEndianInvertsValue(d[42..50]);
    BigEndianInvertsValue(d[50..52]);
  }

  lemma FieldsReassemble(d: Bytes)
    requires |d| >= FIXED_HEADER_LEN
    ensures d == (d[..4] + d[4..20] + d[20..22] + d[22..30] + d[30..34] + d[34..42] + d[42..50] + d[50..52]) + d[52..]
  {
  }

  /** Any datagram that decodes re-encodes to the same bytes: there is one encoding per envelope. */
  lemma EncodeInvertsDecode(d: Bytes, limit: nat)
    requires Decode(d, limit).Ok?
    ensures Encode(Decode(d, limit).value, limit) == Ok(d)
  {
    var e := Decode(d, limit).value;
    FieldsWriteBack(d);
    assert d[..4] == [VERSION, ClassToWire(e.header.trafficClass), 0, DirectionToWire(e.header.direction)];
    FieldsReassemble(d);
  }

  /** Under one limit the codec is a bijection between encodable envelopes and decodable datagrams. */
  lemma CodecIsBijection(e: Envelope, d: Bytes, limit: nat)
    ensures Encode(e, limit) == Ok(d) <==> Decode(d, limit) == Ok(e)
  {
    if Encode(e, limit) == Ok(d) {
      DecodeInvertsEncode(e, limit, limit);
    }
    if Decode(d, limit) == Ok(e) {
      EncodeInvertsDecode(d, limit);
    }
  }

  // ---------------------------------------------------------------------
  // What encodes and what decodes
  // ---------------------------------------------------------------------

  /** Which envelopes encode, and the error of each other one: the first condition that fails. */
  lemma EncodesExactly(e: Envelope, limit: nat)
    ensures var r := Encode(e, limit);
            var n := |e.payload|;
            var data := e.header.trafficClass != Control;
            var dated := data && e.header.pathEpoch > 0 && e.header.keyEpoch > 0;
            && (r.Ok? <==> dated && 0 < n <= limit && n <= 65535)
            && (r == Err(ControlDatagram) <==> !data)
            && (r == Err(ZeroPathEpoch) <==> data && e.header.pathEpoch == 0)
            && (r == Err(ZeroKeyEpoch) <==> data && e.header.pathEpoch > 0 && e.header.keyEpoch == 0)
            && (r == Err(EnvelopeError.EmptyPayload) <==> dated && n == 0)
            && (r == Err(PayloadExceedsLimit(n, limit)) <==> dated && n > 0 && n > limit)
            && (r == Err(PayloadLengthOverflow) <==> dated && 65535 < n <= limit)
  {
  }

  /** The header is long enough, of this version, and its four leading bytes are all known. */
  ghost predicate LeadIsKnown(d: Bytes) {
    |d| >= 52 && d[0] == 2 && d[1] in {0, 1, 2} && d[2] == 0 && d[3] in {1, 2}
  }

  /** Which byte sequences decode, and what each field is read from. */
  lemma DecodesExactly(d: Bytes, limit: nat)
    ensures var r := Decode(d, limit);
            && (r.Ok? <==>
                  && LeadIsKnown(d) && Value(d[22..30]) > 0 && Value(d[30..34]) > 0
                  && 0 < Value(d[50..52]) <= limit && |d| == 52 + Value(d[50..52]))
            && (r.Ok? ==>
                  && ClassToWire(r.value.header.trafficClass) == d[1]
                  && DirectionToWire(r.value.header.direction) == d[3]
                  && r.value.header.sessionId == d[4..20] && r.value.header.pathId == Value(d[20..22])
                  && r.value.header.pathEpoch == Value(d[22..30]) && r.value.header.keyEpoch == Value(d[30..34])
                  && r.value.header.flowId == Value(d[34..42]) && r.value.header.packetId == Value(d[42..50])
                  && r.value.payload == d[52..])
  {
  }

  /** The error of a byte sequence that does not decode: the first condition that fails. */
  lemma DecodeErrors(d: Bytes, limit: nat)
    ensures var r := Decode(d, limit);
            && (r == Err(TruncatedHeader) <==> |d| < 52)
            && (|d| >= 52 ==>
                  && (d[0] != 2 <==> r == Err(UnsupportedVersion(d[0])))
                  && (d[0] == 2 && d[1] > 3 <==> r == Err(UnknownTrafficClass(d[1])))
                  && (d[0] == 2 && d[1] <= 3 && d[2] != 0 <==> r == Err(ReservedFlags(d[2])))
                  && (d[0] == 2 && d[1] == 3 && d[2] == 0 <==> r == Err(ControlDatagram))
                  && (d[0] == 2 && d[1] < 3 && d[2] == 0 && d[3] !in {1, 2} <==> r == Err(UnknownDirection(d[3]))))
  {
  }

  /** The same once the leading bytes are known. */
  lemma FieldErrors(d: Bytes, limit: nat)
    requires LeadIsKnown(d)
    ensures var r := Decode(d, limit);
            var epochs := Value(d[22..30]) > 0 && Value(d[30..34]) > 0;
            var n, actual := Value(d[50..52]), |d| - 52;
            && (r == Err(ZeroPathEpoch) <==> Value(d[22..30]) == 0)
            && (r == Err(ZeroKeyEpoch) <==> Value(d[22..30]) > 0 && Value(d[30..34]) == 0)
            && (r == Err(EnvelopeError.EmptyPayload) <==> epochs && n == 0)
            && (r == Err(PayloadExceedsLimit(n, limit)) <==> epochs && n > 0 && n > limit)
            && (r == Err(TruncatedPayload(n, actual)) <==> epochs && 0 < n <= limit && actual < n)
            && (r == Err(TrailingData(n, actual)) <==> epochs && 0 < n <= limit && actual > n)
  {
  }
}
