/**
 The antenna/label report record, TLV type 0x8b01, as the decoding
 constructor of `Tlv8b01` reads it from the TLV segment of a frame.

 Offsets are relative to the start of the TLV segment; octets 0..3 belong to
 the TLV header (`TlvHeader`), which is not part of this model. Layout:

   4      antenna channel (bit 7 in boundary, bit 6 attached to station,
          bits 0..3 antenna direction)
   5      label type
   6..9   label id
   10     check byte over octets 5..9
   11..12 reserved, never read
   13     label status (bit 4 removed, bit 0 low power)
   14     rssi
   15..20 device time stamp
 */
module LabelReport {
  import opened Wrappers
  import opened Bytes
  import opened Hex

  /** Octets the decoder touches: the record ends with the 6-octet time stamp at offset 15. */
  const RecordLength := 21

  /** Why a record could not be decoded. */
  datatype DecodeError =
    | IndexOutOfBounds   // the buffer ends before an octet the decoder reads
    | LabelCheckSumError // the check byte does not match octets 5..9

  /** A decoded label report. `deviceId` is the gateway id carried by the TLV header. */
  datatype Tlv8b01 = Tlv8b01(
    deviceId: string,
    antennaChannel: byte,
    labelType: byte,
    labelId: string,
    idCheckSum: byte,
    dummy: u16,
    labelStatus: byte,
    rssi: byte,
    timeStamp: seq<byte>)

  /**
   Decodes a label report. `deviceId` is what the TLV header supplies and
   `checkByte` is the header's check-byte routine (`sendRcvByteNum`); neither
   is visible here, so both are inputs.

   The checks happen in the constructor's order: the label id and check
   byte are read (octets up to 10), then the check is compared, and only then
   are octets 13..20 read. A short buffer whose check already fails is thus
   reported as a check-byte error.
   */
  function Decode(b: seq<byte>, deviceId: string, checkByte: seq<byte> -> byte): (r: Result<Tlv8b01, DecodeError>)
    ensures r.Success? <==> |b| >= RecordLength && checkByte(b[5..10]) == b[10]
    ensures r == Failure(LabelCheckSumError) <==> |b| > 10 && checkByte(b[5..10]) != b[10]
    ensures r.Success? ==>
      var t := r.value;
      && t.deviceId == deviceId
      && t.antennaChannel == b[4]
      && t.labelType == b[5]
      && t.idCheckSum == b[10]
      && checkByte([t.labelType] + b[6..10]) == t.idCheckSum
      && t.dummy == 0
      && t.labelStatus == b[13]
      && t.rssi == b[14]
      && t.timeStamp == b[15..21]
      && |t.labelId| == 8 && IsLowerHex(t.labelId)
      && DecodeHex(t.labelId) == Some(b[6..10])
  {
    if |b| <= 10 then Failure(IndexOutOfBounds)
    else if checkByte(b[5..10]) != b[10] then Failure(LabelCheckSumError)
    else if |b| < RecordLength then Failure(IndexOutOfBounds)
    else
      DecodeEncode(b[6..10]);
      assert b[5..10] == [b[5]] + b[6..10];
      Success(Tlv8b01(deviceId, b[4], b[5], EncodeHex(b[6..10]), b[10], 0, b[13], b[14], b[15..21]))
  }

  /** The four label-id octets a record's id names. */
  function LabelOctets(t: Tlv8b01): (id: seq<byte>)
    requires DecodeHex(t.labelId).Some?
    ensures 2 * |id| == |t.labelId|
  {
    DecodeHex(t.labelId).value
  }

  /** A record a device could send: an 8-digit lower-case id, a 6-octet stamp, a matching check byte. */
  predicate WellFormed(t: Tlv8b01, checkByte: seq<byte> -> byte) {
    && |t.labelId| == 8
    && IsLowerHex(t.labelId)
    && |t.timeStamp| == 6
    && t.dummy == 0
    && DecodeHex(t.labelId).Some?
    && checkByte([t.labelType] + LabelOctets(t)) == t.idCheckSum
  }

  /**
   The wire form of a record behind a 4-octet TLV header `tlvHeader`, with
   the reserved octets zero: the partner that `Decode` inverts.
   */
  function Encode(tlvHeader: seq<byte>, t: Tlv8b01, checkByte: seq<byte> -> byte): (b: seq<byte>)
    requires |tlvHeader| == 4 && WellFormed(t, checkByte)
    ensures |b| == RecordLength
    ensures b[..4] == tlvHeader
  {
    tlvHeader + [t.antennaChannel, t.labelType] + LabelOctets(t)
      + [t.idCheckSum, 0, 0, t.labelStatus, t.rssi] + t.timeStamp
  }

  /** Every successfully decoded record is well formed. */
  lemma DecodedWellFormed(b: seq<byte>, deviceId: string, checkByte: seq<byte> -> byte)
    requires Decode(b, deviceId, checkByte).Success?
    ensures WellFormed(Decode(b, deviceId, checkByte).value, checkByte)
  {
  }

  /** Decoding the wire form of a well-formed record gives the record back. */
  lemma DecodeOfEncode(tlvHeader: seq<byte>, t: Tlv8b01, checkByte: seq<byte> -> byte)
    requires |tlvHeader| == 4 && WellFormed(t, checkByte)
    ensures Decode(Encode(tlvHeader, t, checkByte), t.deviceId, checkByte) == Success(t)
  {
    var b := Encode(tlvHeader, t, checkByte);
    var id := LabelOctets(t);
    EncodeDecode(t.labelId);
    assert b[4] == t.antennaChannel && b[5] == t.labelType;
    assert b[6..10] == id;
    assert b[5..10] == [t.labelType] + id;
    assert b[10] == t.idCheckSum && b[13] == t.labelStatus && b[14] == t.rssi;
    assert b[15..21] == t.timeStamp;
    var r := Decode(b, t.deviceId, checkByte).value;
    assert DecodeHex(r.labelId) == DecodeHex(t.labelId);
    EncodeDecode(r.labelId);
    assert r.labelId == t.labelId;
  }

  /** Re-encoding a decoded record restores every octet the decoder reads; only the reserved 11..12 may differ. */
  lemma EncodeOfDecode(b: seq<byte>, deviceId: string, checkByte: seq<byte> -> byte)
    requires Decode(b, deviceId, checkByte).Success?
    ensures
      var t := Decode(b, deviceId, checkByte).value;
      var e := Encode(b[..4], t, checkByte);
      forall i :: 0 <= i < RecordLength && i != 11 && i != 12 ==> e[i] == b[i]
  {
  }

  /** The reserved octets 11..12 never influence decoding. */
  lemma ReservedIgnored(b1: seq<byte>, b2: seq<byte>, deviceId: string, checkByte: seq<byte> -> byte)
    requires |b1| == |b2|
    requires forall i :: 0 <= i < |b1| && i != 11 && i != 12 ==> b1[i] == b2[i]
    ensures Decode(b1, deviceId, checkByte) == Decode(b2, deviceId, checkByte)
  {
    if |b1| > 10 {
      assert b1[5..10] == b2[5..10];
      assert b1[6..10] == b2[6..10];
      if |b1| >= RecordLength {
        assert b1[15..21] == b2[15..21];
      }
    }
  }

  /** A check-byte mismatch is always reported as such, never as a short buffer or a record. */
  lemma CheckSumMismatchRejected(b: seq<byte>, deviceId: string, checkByte: seq<byte> -> byte)
    requires |b| > 10 && checkByte(b[5..10]) != b[10]
    ensures Decode(b, deviceId, checkByte) == Failure(LabelCheckSumError)
  {
  }
}
