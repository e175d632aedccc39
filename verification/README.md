# RFID gateway frame codec: label report and heartbeat acknowledgement

This Dafny project models two parts of the frame codec of a JetLinks protocol
plugin for an RFID positioning gateway.

- **`Tlv8b01`**: the antenna/label report record, TLV type 0x8b01.
  - **Decoding.** The decoding constructor reads fixed offsets of the TLV segment: antenna channel, label type, 4-octet label id, check byte, status, rssi and a 6-octet device time stamp.
  - **Label id.** The id is rendered as 8 lower-case hex digits.
  - **Check byte.** It is verified over octets 5..9. A mismatch is a `LabelCheckSumError`.
  - **Classifier.** It turns a record into a platform event: register, unregister, online, offline or a property report. Bits 7 ("in boundary") and 6 ("attached to station") of the antenna channel decide presence.
- **`HeartBeatResponse`**: the acknowledgement the platform sends to a heartbeat.
  - The `of` factory.
  - `toBytes`: it fixes the header fields (length = body + 28, type 0x8003, protocol 0x0200, secure id 0), builds the 7-octet body (indicator plus platform time stamp) and feeds header and body to the CRC.

Modules, one per file:

- `Wrappers` (`wrappers.dfy`): `Option` and `Result`.
- `Bytes` (`bytes.dfy`): octets as their unsigned values 0..255, Java's `(byte)`/`(short)` casts and the signed value of a `Byte`. Bit tests are arithmetic (`Bit(b, k)`, `LowNibble`). `MasksAreArithmetic` proves, for every `bv8` pattern, that the source's mask-and-shift expressions give exactly `Bit` and `LowNibble` of its unsigned value.
- `Hex` (`hex.dfy`): `Hex.encodeHexString` and the parse that inverts it, with both round trips.
- `LabelReport` (`label_report.dfy`): the `Tlv8b01` record and its decoder. `Encode`, the wire form a device sends, is the partner that `Decode` inverts.
- `LabelEvents` (`label_events.dfy`): the closed `Event` datatype and the classifier.
- `HeartBeat` (`heartbeat_response.dfy`): the response, its header fields and `toBytes`.

Helpers of the superclasses `TlvHeader` and `TcpMessageHeader` are not part of this model. They are passed in as function-valued inputs:
- the check-byte routine `sendRcvByteNum`;
- `toTimeString`;
- the header serialiser;
- `doGetCrc`;
- `getStartTag`;
- `getFinalMessage`.

No polynomial or sum rule is assumed for any of them. The platform clock (`getHostTimeStamp`) is an input too.

Notes on the code as modelled:
- **Check byte.** The check-byte routine `sendRcvByteNum` is not visible, so it is a parameter and no sum or XOR rule is assumed.
- **Short buffers.** The constructor does no length check of its own. It reads octets up to 10, compares the check byte, then reads octets 13..20, and a buffer that ends early fails with Java's index-out-of-bounds exception. So a short buffer whose check byte mismatches raises `LabelCheckSumError`. `Decode` keeps this order, with `IndexOutOfBounds` standing for the exception.
- **Signed property values.** The property values `labelType` and `rssi` are boxed Java `Byte`s, so they are signed. The model states that they lie in -128..127 and carry the octet's bits.

## Model

| member | source | states |
|---|---|---|
| Bytes.ByteCast | src/main/java/org/company/protocol/rfid/message/HeartBeatResponse.java:34 | `(byte)ask` agrees with `ask` modulo 256 and is `ask` itself when it is in 0..255 |
| Bytes.ShortCast | src/main/java/org/company/protocol/rfid/message/HeartBeatResponse.java:50-53 | `(short)x` agrees with `x` modulo 65536 and is `x` itself when it fits |
| Bytes.Signed | src/main/java/org/company/protocol/rfid/message/Tlv8b01.java:148-150 | a boxed `Byte` lies in -128..127, carries the octet modulo 256 and is negative exactly when bit 7 is set |
| Bytes.Bit | src/main/java/org/company/protocol/rfid/message/Tlv8b01.java:141-146 | each flag the source extracts (bits 7 and 6 of the channel, bits 4 and 0 of the status) is 0 or 1 |
| Bytes.LowNibble | src/main/java/org/company/protocol/rfid/message/Tlv8b01.java:144 | the antenna direction lies in 0..15 and agrees with the channel modulo 16 |
| Bytes.MasksAreArithmetic | src/main/java/org/company/protocol/rfid/message/Tlv8b01.java:141-146 | on every octet pattern `x`, `(x & 0x80) >> 7`, `(x & 0x40) >> 6`, `(x & 0x10) >> 4` and `x & 0x01` equal `Bit` 7, 6, 4 and 0 of its unsigned value, and `x & 0x0f` equals its `LowNibble` |
| Hex.HexDigit | src/main/java/org/company/protocol/rfid/message/Tlv8b01.java:40 | each nibble renders as a lower-case hex digit that reads back as the same nibble |
| Hex.EncodeHex | src/main/java/org/company/protocol/rfid/message/Tlv8b01.java:38-40 | the label id has two lower-case hex digits per octet |
| Hex.DecodeEncode | src/main/java/org/company/protocol/rfid/message/Tlv8b01.java:38-40 | parsing a rendered label id yields exactly the label octets |
| Hex.EncodeDecode | src/main/java/org/company/protocol/rfid/message/Tlv8b01.java:38-40 | every even-length lower-case hex string is the rendering of the octets it parses to |
| Hex.EncodeInjective | src/main/java/org/company/protocol/rfid/message/Tlv8b01.java:38-40 | distinct label octets give distinct label ids |
| LabelReport.Decode | src/main/java/org/company/protocol/rfid/message/Tlv8b01.java:32-52 | succeeds iff the buffer has 21 octets and the check byte over octets 5..9 equals octet 10. Fails with the check-byte error iff octet 10 exists and mismatches. On success it reads channel, type, check, status, rssi and stamp from offsets 4, 5, 10, 13, 14 and 15..20, and the id parses back to octets 6..9 |
| LabelReport.Encode | src/main/java/org/company/protocol/rfid/message/Tlv8b01.java:32-52 | the wire form of a well-formed record is 21 octets behind the 4-octet TLV header |
| LabelReport.DecodedWellFormed | src/main/java/org/company/protocol/rfid/message/Tlv8b01.java:42-47 | every decoded record has an 8-digit id, a 6-octet stamp and a check byte that matches its type and id octets |
| LabelReport.DecodeOfEncode | src/main/java/org/company/protocol/rfid/message/Tlv8b01.java:32-52 | decoding the wire form of a well-formed record returns that record |
| LabelReport.EncodeOfDecode | src/main/java/org/company/protocol/rfid/message/Tlv8b01.java:32-52 | re-encoding a decoded record restores every octet of the first 21 except the reserved 11..12 |
| LabelReport.ReservedIgnored | src/main/java/org/company/protocol/rfid/message/Tlv8b01.java:27-52 | the reserved octets 11..12 (`dummy`) never influence the decode result |
| LabelReport.CheckSumMismatchRejected | src/main/java/org/company/protocol/rfid/message/Tlv8b01.java:42-47 | a mismatching check byte always yields `LabelCheckSumError`, whatever the buffer length |
| LabelEvents.ChildHeaders | src/main/java/org/company/protocol/rfid/message/Tlv8b01.java:62-63 | the headers are exactly productId "002-8b01" and deviceName "rfid定位标签" followed by the label id |
| LabelEvents.DepartedIffBitsClear | src/main/java/org/company/protocol/rfid/message/Tlv8b01.java:74-80 | the source's test "bits 7 and 6 both zero" holds exactly when the channel octet is below 0x40 |
| LabelEvents.ToRegisterInfo | src/main/java/org/company/protocol/rfid/message/Tlv8b01.java:54-66 | always a register child message: child = label id, parent = gateway, with the product and name headers |
| LabelEvents.ToOnlineInfo | src/main/java/org/company/protocol/rfid/message/Tlv8b01.java:110-115 | always an online message for the label id |
| LabelEvents.ToUnRegisterInfo | src/main/java/org/company/protocol/rfid/message/Tlv8b01.java:72-88 | an unregister child message (label, gateway, headers) iff the tag has departed, otherwise online for the label |
| LabelEvents.ToOffLineInfo | src/main/java/org/company/protocol/rfid/message/Tlv8b01.java:90-108 | offline for the label iff the tag has departed, online for the label otherwise |
| LabelEvents.DigitString | src/main/java/org/company/protocol/rfid/message/Tlv8b01.java:152 | `String.valueOf` of a digit is the one-character decimal numeral |
| LabelEvents.ToPropertyInfo | src/main/java/org/company/protocol/rfid/message/Tlv8b01.java:132-161 | a report for the label under the gateway with exactly the nine keys. `isInboundary` is "/" iff bit 6 is set, else "1"/"0" from bit 7. attachStation, isRemoved and lowPower are bits 6, 4 and 0, and the direction is the low nibble. Type and rssi are signed bytes carrying the octets |
| LabelEvents.PropertyCount | src/main/java/org/company/protocol/rfid/message/Tlv8b01.java:147-157 | the report map holds exactly nine entries |
| LabelEvents.PropertyRanges | src/main/java/org/company/protocol/rfid/message/Tlv8b01.java:141-146 | the three flags are in {0, 1} and the direction in 0..15 |
| LabelEvents.UnregisterOfflineAgree | src/main/java/org/company/protocol/rfid/message/Tlv8b01.java:72-108 | unregister falls back to online exactly when offline does |
| LabelEvents.LowChannelBitsIrrelevant | src/main/java/org/company/protocol/rfid/message/Tlv8b01.java:72-108 | changing bits 0..5 of the antenna channel changes neither the unregister nor the offline result |
| LabelEvents.UnregisterMirrorsRegister | src/main/java/org/company/protocol/rfid/message/Tlv8b01.java:117-130 | a departed tag's unregister message has the child, parent and headers of its register message |
| LabelEvents.ChannelExamples | src/main/java/org/company/protocol/rfid/message/Tlv8b01.java:72-161 | channel 0x00 gives unregister and offline. 0x40 gives online for both and `isInboundary` "/". 0x80 gives `isInboundary` "1" |
| LabelEvents.SampleLabelId | src/main/java/org/company/protocol/rfid/message/Tlv8b01.java:40 | octets AA BB CC DD render as "aabbccdd" |
| LabelEvents.SampleReport | src/main/java/org/company/protocol/rfid/message/Tlv8b01.java:32-115 | a sample report with a matching check byte decodes and its online event names "aabbccdd" |
| HeartBeat.Of | src/main/java/org/company/protocol/rfid/message/HeartBeatResponse.java:29-36 | keeps device id and sequence number, and the indicator is `ask` modulo 256 |
| HeartBeat.AckBody | src/main/java/org/company/protocol/rfid/message/HeartBeatResponse.java:44-48 | the body has 7 octets: the indicator, then the first 6 octets of the platform time stamp |
| HeartBeat.ParseAckBody | src/main/java/org/company/protocol/rfid/message/HeartBeatResponse.java:44-48 | a body reads back iff it has 7 octets, and indicator plus stamp reassemble it |
| HeartBeat.AckBodyRoundTrip | src/main/java/org/company/protocol/rfid/message/HeartBeatResponse.java:44-48 | reading a built body returns the indicator and stamp written into it |
| HeartBeat.ToBytes | src/main/java/org/company/protocol/rfid/message/HeartBeatResponse.java:43-65 | sets length 35 (= body + 28), type 0x8003, protocol 0x0200 and secure id 0. Keeps device id, sequence number and indicator. The body reads back as (indicator, stamp), and the CRC input is exactly the serialised header and the body |
| HeartBeat.ToBytesIdempotent | src/main/java/org/company/protocol/rfid/message/HeartBeatResponse.java:50-61 | encoding an already-encoded response at the same instant changes nothing |
| HeartBeat.PriorHeaderIrrelevant | src/main/java/org/company/protocol/rfid/message/HeartBeatResponse.java:43-61 | the prior length, type, protocol and secure id never reach the frame |
| HeartBeat.CrcExcludesStartTag | src/main/java/org/company/protocol/rfid/message/HeartBeatResponse.java:54-59 | the start tag changes neither header, body nor CRC |
| HeartBeat.AcknowledgeHeartBeat | src/main/java/org/company/protocol/rfid/message/HeartBeatResponse.java:29-61 | the ack for `of(deviceId, seqId, ask)` names the device and sequence, has the fixed header fields and carries `ask`'s low octet and the stamp |

## Left out

- `TlvHeader` and `TcpMessageHeader` are not part of this model. Their helpers are function-valued inputs (`checkByte`, `toTimeString`, `FrameSupport`), so no CRC16 variant or check-byte rule is fixed.
- `super(bytes)` of `TlvHeader` is not modelled: any exception it raises, and how it reads octets 0..3, are outside the model. The gateway device id it supplies is an input of `Decode`.
- HeartBeat.ToBytes: does not state the final frame's concatenation order or total length, because `getFinalMessage` is not part of this model.
- HeartBeat.ToBytes: the header serialiser is taken as a function of the header fields only; any clock it reads itself is folded into it.
- HeartBeat.Of: header fields that `of` does not set are taken as Java's zero defaults; the real `TcpMessageHeader` constructor is not visible.
- The current wall-clock time is an input (`hostTimeStamp`), not read from a clock.
- HeartBeat.AckBody: requires the platform time stamp to have at least 6 octets. The source copies 6 octets from `getHostTimeStamp()` and would throw for a shorter stamp; that exception is not modelled.
- HeartBeat.ToBytes: requires the same 6-octet platform time stamp, for the same reason; a shorter stamp would make the source throw at line 48, before any header field is set.
- The `timeStamp` field of `HeartBeatResponse` is never read by `toBytes`, and the `HeartBeatResponse(byte[])` constructor is empty, so neither is modelled.
- The jetlinks message classes are replaced by the closed `Event` datatype. `ChildDeviceMessage`'s child id and the wrapped message's device id are always the label id, so they share one `childId` field.
- Frame-header decoding with its length checks and unsupported message types is not part of these source files and is not modelled.
- Lombok accessors, logging and concurrency are not modelled; every operation is a pure function.
