/**
 The lifecycle classifier of `Tlv8b01`: turns a decoded label report into
 the device-platform event the gateway forwards (register, unregister,
 online, offline or a property report).

 Two bits of the antenna channel decide presence: bit 7 "in boundary" and
 bit 6 "attached to station". Only when both are clear has the tag left;
 any other combination keeps it online.
 */
module LabelEvents {
  import opened Wrappers
  import opened Bytes
  import opened Hex
  import opened LabelReport

  /** A property value as the report map holds it: a boxed Byte, a boxed Integer or a String. */
  datatype PropertyValue =
    | JavaByte(byteValue: int)
    | JavaInt(intValue: int)
    | JavaString(text: string)

  /**
   The event handed to the platform. Register, unregister and property
   reports are child-device messages: `childId` is the label id (also the id
   of the wrapped message) and `parentId` the gateway's device id.
   */
  datatype Event =
    | Register(childId: string, parentId: string, headers: map<string, string>)
    | Unregister(childId: string, parentId: string, headers: map<string, string>)
    | Online(deviceId: string)
    | Offline(deviceId: string)
    | PropertyReport(childId: string, parentId: string, properties: map<string, PropertyValue>)

  /** Product id every label is registered under. */
  const ProductId := "002-8b01"

  /** Device-name prefix: "rfid" followed by the Chinese for "positioning label". */
  const DeviceNamePrefix := "rfid\U{5B9A}\U{4F4D}\U{6807}\U{7B7E}"

  /** The nine keys of a property report, with the source's spelling. */
  const PropertyKeys: set<string> := {
    "labelType", "labelId", "rssi", "timeStamp", "isInboundary",
    "attachStation", "isRemoved", "lowPower", "antennaDireciton"
  }

  /** Headers of a register or unregister message for a label. */
  function ChildHeaders(labelId: string): (h: map<string, string>)
    ensures h.Keys == {"productId", "deviceName"}
    ensures h["productId"] == ProductId
    ensures |h["deviceName"]| == |DeviceNamePrefix| + |labelId|
    ensures h["deviceName"][..|DeviceNamePrefix|] == DeviceNamePrefix
    ensures h["deviceName"][|DeviceNamePrefix|..] == labelId
  {
    map["productId" := ProductId, "deviceName" := DeviceNamePrefix + labelId]
  }

  /** Reference test for a departed tag: bits 7 and 6 clear means the channel octet is below 0x40. */
  predicate Departed(antennaChannel: byte) {
    antennaChannel < 0x40
  }

  /** The source's test, bits 7 and 6 both zero, agrees with the reference test. */
  lemma DepartedIffBitsClear(ch: byte)
    ensures Departed(ch) <==> Bit(ch, 7) == 0 && Bit(ch, 6) == 0
  {
  }

  /** `toRegisterInfo`: always a register child message for the label under the gateway. */
  function ToRegisterInfo(t: Tlv8b01): (e: Event)
    ensures e.Register?
    ensures e.childId == t.labelId && e.parentId == t.deviceId
    ensures e.headers.Keys == {"productId", "deviceName"}
    ensures e.headers["productId"] == ProductId
    ensures e.headers["deviceName"] == DeviceNamePrefix + t.labelId
  {
    Register(t.labelId, t.deviceId, ChildHeaders(t.labelId))
  }

  /** `toOnlineInfo`: always an online message for the label. */
  function ToOnlineInfo(t: Tlv8b01): (e: Event)
    ensures e.Online? && e.deviceId == t.labelId
  {
    Online(t.labelId)
  }

  /** `toUnRegisterInfo`: unregister once the tag has departed, otherwise fall back to online. */
  function ToUnRegisterInfo(t: Tlv8b01): (e: Event)
    ensures e.Unregister? <==> Departed(t.antennaChannel)
    ensures e.Unregister? ==>
      e.childId == t.labelId && e.parentId == t.deviceId && e.headers == ChildHeaders(t.labelId)
    ensures !e.Unregister? ==> e == Online(t.labelId)
  {
    DepartedIffBitsClear(t.antennaChannel);
    var isInboundary := Bit(t.antennaChannel, 7);
    var attachStation := Bit(t.antennaChannel, 6);
    if attachStation == 0 && isInboundary == 0 then
      Unregister(t.labelId, t.deviceId, ChildHeaders(t.labelId))
    else
      ToOnlineInfo(t)
  }

  /** `toOffLineInfo`: offline once the tag has departed, otherwise fall back to online. */
  function ToOffLineInfo(t: Tlv8b01): (e: Event)
    ensures e == Offline(t.labelId) <==> Departed(t.antennaChannel)
    ensures e == Online(t.labelId) <==> !Departed(t.antennaChannel)
  {
    DepartedIffBitsClear(t.antennaChannel);
    var isInboundary := Bit(t.antennaChannel, 7);
    var attachStation := Bit(t.antennaChannel, 6);
    if attachStation == 0 && isInboundary == 0 then
      Offline(t.labelId)
    else
      ToOnlineInfo(t)
  }

  /** `String.valueOf` of a single decimal digit. */
  function DigitString(n: int): (s: string)
    requires 0 <= n < 10
    ensures |s| == 1 && '0' <= s[0] <= '9' && s[0] as int - 48 == n
  {
    [(48 + n) as char]
  }

  /**
   `toPropertyInfo`: the property report. `toTimeString` is the TLV header's
   time-stamp formatter, an input here.
   */
  function ToPropertyInfo(t: Tlv8b01, toTimeString: seq<byte> -> string): (e: Event)
    ensures e.PropertyReport? && e.childId == t.labelId && e.parentId == t.deviceId
    ensures e.properties.Keys == PropertyKeys
    ensures e.properties["labelId"] == JavaString(t.labelId)
    ensures e.properties["timeStamp"] == JavaString(toTimeString(t.timeStamp))
    ensures e.properties["labelType"].JavaByte?
      && -128 <= e.properties["labelType"].byteValue < 128
      && e.properties["labelType"].byteValue % 256 == t.labelType
    ensures e.properties["rssi"].JavaByte?
      && -128 <= e.properties["rssi"].byteValue < 128
      && e.properties["rssi"].byteValue % 256 == t.rssi
    ensures e.properties["isInboundary"] == JavaString("/") <==> Bit(t.antennaChannel, 6) == 1
    ensures Bit(t.antennaChannel, 6) == 0 ==>
      e.properties["isInboundary"] == JavaString(if Bit(t.antennaChannel, 7) == 1 then "1" else "0")
    ensures e.properties["attachStation"] == JavaInt(Bit(t.antennaChannel, 6))
    ensures e.properties["isRemoved"] == JavaInt(Bit(t.labelStatus, 4))
    ensures e.properties["lowPower"] == JavaInt(Bit(t.labelStatus, 0))
    ensures e.properties["antennaDireciton"] == JavaInt(t.antennaChannel % 16)
  {
    var isInboundary := Bit(t.antennaChannel, 7);
    var attachStation := Bit(t.antennaChannel, 6);
    var antennaDireciton := LowNibble(t.antennaChannel);
    var isRemoved := Bit(t.labelStatus, 4);
    var lowPower := Bit(t.labelStatus, 0);
    var properties := map[
      "labelType" := JavaByte(Signed(t.labelType)),
      "labelId" := JavaString(t.labelId),
      "rssi" := JavaByte(Signed(t.rssi)),
      "timeStamp" := JavaString(toTimeString(t.timeStamp)),
      "isInboundary" := JavaString(if attachStation > 0 then "/" else DigitString(isInboundary)),
      "attachStation" := JavaInt(attachStation),
      "isRemoved" := JavaInt(isRemoved),
      "lowPower" := JavaInt(lowPower),
      "antennaDireciton" := JavaInt(antennaDireciton)
    ];
    PropertyReport(t.labelId, t.deviceId, properties)
  }

  /** The property report carries exactly nine properties. */
  lemma PropertyCount(t: Tlv8b01, toTimeString: seq<byte> -> string)
    ensures |ToPropertyInfo(t, toTimeString).properties| == 9
  {
  }

  /** The flag properties are Java ints in {0, 1} and the direction is a nibble. */
  lemma PropertyRanges(t: Tlv8b01, toTimeString: seq<byte> -> string)
    ensures
      var p := ToPropertyInfo(t, toTimeString).properties;
      && p["attachStation"].intValue in {0, 1}
      && p["isRemoved"].intValue in {0, 1}
      && p["lowPower"].intValue in {0, 1}
      && 0 <= p["antennaDireciton"].intValue < 16
  {
  }

  /** Unregister and offline make the same presence decision. */
  lemma UnregisterOfflineAgree(t: Tlv8b01)
    ensures ToUnRegisterInfo(t).Online? <==> ToOffLineInfo(t).Online?
    ensures ToUnRegisterInfo(t).Unregister? <==> ToOffLineInfo(t).Offline?
  {
  }

  /**
   Bits 0..5 of the antenna channel never change the unregister or offline
   decision: channels with the same bits 7 and 6 (the same quotient by 0x40)
   classify alike.
   */
  lemma LowChannelBitsIrrelevant(t: Tlv8b01, channel: byte)
    requires channel / 0x40 == t.antennaChannel / 0x40
    ensures ToUnRegisterInfo(t.(antennaChannel := channel)) == ToUnRegisterInfo(t)
    ensures ToOffLineInfo(t.(antennaChannel := channel)) == ToOffLineInfo(t)
  {
  }

  /** A departed tag's unregister message withdraws exactly what its register message announced. */
  lemma UnregisterMirrorsRegister(t: Tlv8b01)
    requires Departed(t.antennaChannel)
    ensures
      var u := ToUnRegisterInfo(t);
      var r := ToRegisterInfo(t);
      u.childId == r.childId && u.parentId == r.parentId && u.headers == r.headers
  {
  }

  /** Sample channel values 0x00, 0x40 and 0x80. */
  lemma ChannelExamples(t: Tlv8b01, toTimeString: seq<byte> -> string)
    ensures t.antennaChannel == 0x00 ==>
      ToUnRegisterInfo(t).Unregister? && ToOffLineInfo(t) == Offline(t.labelId)
    ensures t.antennaChannel == 0x40 ==>
      && ToUnRegisterInfo(t) == Online(t.labelId)
      && ToOffLineInfo(t) == Online(t.labelId)
      && ToPropertyInfo(t, toTimeString).properties["isInboundary"] == JavaString("/")
    ensures t.antennaChannel == 0x80 ==>
      ToPropertyInfo(t, toTimeString).properties["isInboundary"] == JavaString("1")
  {
  }

  /** The label id AA BB CC DD renders as "aabbccdd". */
  lemma SampleLabelId()
    ensures EncodeHex([0xAA, 0xBB, 0xCC, 0xDD]) == "aabbccdd"
  {
  }

  /**
   A sample report: channel 0x00, label type 0x01, id AA BB CC DD with a
   matching check byte, rssi 0x2A. It decodes and its online event names
   the label "aabbccdd".
   */
  lemma SampleReport(tlvHeader: seq<byte>, stamp: seq<byte>, deviceId: string, checkByte: seq<byte> -> byte)
    requires |tlvHeader| == 4 && |stamp| == 6
    ensures
      var b := tlvHeader + [0x00, 0x01, 0xAA, 0xBB, 0xCC, 0xDD,
                            checkByte([0x01, 0xAA, 0xBB, 0xCC, 0xDD]), 0, 0, 0x00, 0x2A] + stamp;
      var r := Decode(b, deviceId, checkByte);
      r.Success? && ToOnlineInfo(r.value) == Online("aabbccdd")
  {
    var b := tlvHeader + [0x00, 0x01, 0xAA, 0xBB, 0xCC, 0xDD,
                          checkByte([0x01, 0xAA, 0xBB, 0xCC, 0xDD]), 0, 0, 0x00, 0x2A] + stamp;
    assert b[5..10] == [0x01, 0xAA, 0xBB, 0xCC, 0xDD];
    assert b[6..10] == [0xAA, 0xBB, 0xCC, 0xDD];
    assert b[10] == checkByte([0x01, 0xAA, 0xBB, 0xCC, 0xDD]);
    var r := Decode(b, deviceId, checkByte);
    assert r.Success?;
    EncodeDecode(r.value.labelId);
    SampleLabelId();
  }
}
