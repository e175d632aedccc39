/**
 The heartbeat acknowledgement the platform sends back to a gateway
 (`HeartBeatResponse`): the `of` factory and `toBytes`, which fixes the
 header fields, lays out the 7-octet body and hands header and body to the
 frame helpers of `TcpMessageHeader`.

 `TcpMessageHeader` (header serialiser, CRC, start tag, final assembly,
 platform clock) is not part of this model: its helpers are the fields of
 `FrameSupport` and the platform time stamp is an input.
 */
module HeartBeat {
  import opened Wrappers
  import opened Bytes

  /** The header fields of `TcpMessageHeader` that a response sets; 16-bit fields as unsigned patterns. */
  datatype MessageHeader = MessageHeader(
    deviceId: string,
    seqId: int32,
    messageLength: u16,
    messageTypeId: u16,
    protocolId: u16,
    secureId: u16)

  /** A heartbeat response: the common header and the one-octet operation indicator. */
  datatype HeartBeatResponse = HeartBeatResponse(header: MessageHeader, opIndicator: byte)

  /** The `TcpMessageHeader` helpers `toBytes` calls. */
  datatype FrameSupport = FrameSupport(
    serializeHeader: MessageHeader -> seq<byte>,                                   // super.toBytes()
    crc16: (seq<byte>, seq<byte>) -> seq<byte>,                                    // doGetCrc(head, body)
    startTag: seq<byte>,                                                           // getStartTag()
    finalMessage: (seq<byte>, seq<byte>, seq<byte>, seq<byte>) -> seq<byte>)       // getFinalMessage(...)

  /** The parts `toBytes` builds, and the response with its header fields updated. */
  datatype Encoded = Encoded(
    response: HeartBeatResponse,
    head: seq<byte>,
    body: seq<byte>,
    crc: seq<byte>,
    frame: seq<byte>)

  /** Octets the header and trailer add to the body in `messageLength`. */
  const HeaderOverhead := 28

  /** Octets of the acknowledgement body: the indicator and a 6-octet time stamp. */
  const BodyLength := 7

  /** Message type of a heartbeat acknowledgement. */
  const HeartBeatAckType: u16 := 0x8003

  /** Protocol id written into every response. */
  const ProtocolId: u16 := 0x0200

  /** Secure id of an unencrypted response. */
  const PlainSecureId: u16 := 0x0000

  /**
   `HeartBeatResponse.of`: a fresh response for a device and sequence number;
   the acknowledgement code is narrowed to a byte. Header fields not set here
   keep Java's zero default.
   */
  function Of(deviceId: string, seqId: int32, ask: int32): (r: HeartBeatResponse)
    ensures r.header.deviceId == deviceId && r.header.seqId == seqId
    ensures (ask - r.opIndicator) % 256 == 0
    ensures 0 <= ask < 256 ==> r.opIndicator == ask
  {
    HeartBeatResponse(MessageHeader(deviceId, seqId, 0, 0, 0, 0), ByteCast(ask))
  }

  /** The acknowledgement body: the indicator, then the first six octets of the platform time stamp. */
  function AckBody(opIndicator: byte, hostTimeStamp: seq<byte>): (body: seq<byte>)
    requires |hostTimeStamp| >= 6
    ensures |body| == BodyLength
    ensures body[0] == opIndicator
    ensures body[1..] == hostTimeStamp[..6]
  {
    [opIndicator] + hostTimeStamp[..6]
  }

  /** How a gateway reads an acknowledgement body: the partner of `AckBody`. */
  function ParseAckBody(body: seq<byte>): (r: Option<(byte, seq<byte>)>)
    ensures r.Some? <==> |body| == BodyLength
    ensures r.Some? ==> |r.value.1| == 6 && [r.value.0] + r.value.1 == body
  {
    if |body| != BodyLength then None else Some((body[0], body[1..]))
  }

  /** Reading back an acknowledgement body yields the indicator and time stamp written into it. */
  lemma AckBodyRoundTrip(opIndicator: byte, hostTimeStamp: seq<byte>)
    requires |hostTimeStamp| >= 6
    ensures ParseAckBody(AckBody(opIndicator, hostTimeStamp)) == Some((opIndicator, hostTimeStamp[..6]))
  {
  }

  /** The header fields `toBytes` fixes, whatever they held before. */
  predicate AckHeader(h: MessageHeader) {
    && h.messageLength == BodyLength + HeaderOverhead
    && h.messageTypeId == HeartBeatAckType
    && h.protocolId == ProtocolId
    && h.secureId == PlainSecureId
  }

  /**
   `toBytes`: sets length, type, protocol and secure id, builds the body from
   the indicator and the platform time stamp, computes the CRC over the
   serialised header and the body, and assembles the frame. The order and
   length of the final frame are decided by `finalMessage`.
   */
  function ToBytes(r: HeartBeatResponse, support: FrameSupport, hostTimeStamp: seq<byte>): (e: Encoded)
    requires |hostTimeStamp| >= 6
    ensures AckHeader(e.response.header)
    ensures e.response.header.messageLength == |e.body| + HeaderOverhead == 35
    ensures e.response.header.deviceId == r.header.deviceId
    ensures e.response.header.seqId == r.header.seqId
    ensures e.response.opIndicator == r.opIndicator
    ensures ParseAckBody(e.body) == Some((r.opIndicator, hostTimeStamp[..6]))
    ensures e.head == support.serializeHeader(e.response.header)
    ensures e.crc == support.crc16(e.head, e.body)
    ensures e.frame == support.finalMessage(support.startTag, e.head, e.body, e.crc)
  {
    var body := AckBody(r.opIndicator, hostTimeStamp);
    AckBodyRoundTrip(r.opIndicator, hostTimeStamp);
    var header := r.header.(
      messageLength := ShortCast(|body| + HeaderOverhead),
      messageTypeId := ShortCast(0x8003),
      protocolId := ShortCast(0x0200),
      secureId := ShortCast(0x0000));
    var head := support.serializeHeader(header);
    var crc := support.crc16(head, body);
    var frame := support.finalMessage(support.startTag, head, body, crc);
    Encoded(r.(header := header), head, body, crc, frame)
  }

  /** Sending a response twice at the same instant gives the same frame and leaves it unchanged. */
  lemma ToBytesIdempotent(r: HeartBeatResponse, support: FrameSupport, hostTimeStamp: seq<byte>)
    requires |hostTimeStamp| >= 6
    ensures
      var e := ToBytes(r, support, hostTimeStamp);
      ToBytes(e.response, support, hostTimeStamp) == e
  {
  }

  /** Only device id, sequence number and indicator of the prior response reach the frame. */
  lemma PriorHeaderIrrelevant(r1: HeartBeatResponse, r2: HeartBeatResponse, support: FrameSupport, hostTimeStamp: seq<byte>)
    requires |hostTimeStamp| >= 6
    requires r1.header.deviceId == r2.header.deviceId && r1.header.seqId == r2.header.seqId
    requires r1.opIndicator == r2.opIndicator
    ensures ToBytes(r1, support, hostTimeStamp) == ToBytes(r2, support, hostTimeStamp)
  {
  }

  /** The start tag is not covered by the CRC: changing it changes neither header, body nor CRC. */
  lemma CrcExcludesStartTag(r: HeartBeatResponse, support: FrameSupport, startTag: seq<byte>, hostTimeStamp: seq<byte>)
    requires |hostTimeStamp| >= 6
    ensures
      var e1 := ToBytes(r, support, hostTimeStamp);
      var e2 := ToBytes(r, support.(startTag := startTag), hostTimeStamp);
      e1.head == e2.head && e1.body == e2.body && e1.crc == e2.crc
  {
  }

  /** The acknowledgement for `of(deviceId, seqId, ask)` names the device and sequence and carries `ask`'s low octet. */
  lemma AcknowledgeHeartBeat(deviceId: string, seqId: int32, ask: int32, support: FrameSupport, hostTimeStamp: seq<byte>)
    requires |hostTimeStamp| >= 6
    ensures
      var e := ToBytes(Of(deviceId, seqId, ask), support, hostTimeStamp);
      && e.response.header.deviceId == deviceId
      && e.response.header.seqId == seqId
      && AckHeader(e.response.header)
      && (ask - e.body[0]) % 256 == 0
      && e.body[1..] == hostTimeStamp[..6]
  {
  }
}
