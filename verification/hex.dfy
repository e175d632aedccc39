/**
 Lower-case hexadecimal rendering of octets, the form commons-codec's
 `Hex.encodeHexString` gives a label id, and the parse that undoes it.
 */
module Hex {
  import opened Wrappers
  import opened Bytes

  /** A digit `encodeHexString` may emit. */
  predicate IsLowerHexDigit(c: char) {
    ('0' <= c <= '9') || ('a' <= c <= 'f')
  }

  /** A string of lower-case hex digits only. */
  predicate IsLowerHex(s: string) {
    forall i :: 0 <= i < |s| ==> IsLowerHexDigit(s[i])
  }

  /** The digit for a nibble, lower-case. */
  function HexDigit(n: int): (c: char)
    requires 0 <= n < 16
    ensures IsLowerHexDigit(c)
    ensures DigitValue(c) == Some(n)
  {
    if n < 10 then (48 + n) as char else (87 + n) as char
  }

  /** The nibble a hex digit stands for; digits of either ASCII case are accepted. */
  function DigitValue(c: char): (r: Option<int>)
    ensures r.Some? ==> 0 <= r.value < 16
  {
    if '0' <= c <= '9' then Some(c as int - 48)
    else if 'a' <= c <= 'f' then Some(c as int - 87)
    else if 'A' <= c <= 'F' then Some(c as int - 55)
    else None
  }

  /** `Hex.encodeHexString`: two lower-case digits per octet, high nibble first. */
  function EncodeHex(bs: seq<byte>): (s: string)
    ensures |s| == 2 * |bs|
    ensures IsLowerHex(s)
  {
    if bs == [] then []
    else [HexDigit(bs[0] / 16), HexDigit(bs[0] % 16)] + EncodeHex(bs[1..])
  }

  /** The octet whose high and low nibbles are given. */
  function OctetOf(hi: int, lo: int): (b: byte)
    requires 0 <= hi < 16 && 0 <= lo < 16
    ensures b / 16 == hi && b % 16 == lo
  {
    hi * 16 + lo
  }

  /** The octets a hex string spells, or None for an odd length or a non-digit. */
  function DecodeHex(s: string): (r: Option<seq<byte>>)
    ensures r.Some? ==> 2 * |r.value| == |s|
    decreases |s|
  {
    if s == [] then Some([])
    else if |s| == 1 then None
    else
      var hi := DigitValue(s[0]);
      var lo := DigitValue(s[1]);
      var rest := DecodeHex(s[2..]);
      if hi.None? || lo.None? || rest.None? then None
      else Some([OctetOf(hi.value, lo.value)] + rest.value)
  }

  /** Parsing a rendered label id gives back exactly its octets. */
  lemma {:induction false} DecodeEncode(bs: seq<byte>)
    ensures DecodeHex(EncodeHex(bs)) == Some(bs)
  {
    if bs != [] {
      var s := EncodeHex(bs);
      assert s[0] == HexDigit(bs[0] / 16) && s[1] == HexDigit(bs[0] % 16);
      assert s[2..] == EncodeHex(bs[1..]);
      DecodeEncode(bs[1..]);
      assert OctetOf(bs[0] / 16, bs[0] % 16) == bs[0];
      assert [bs[0]] + bs[1..] == bs;
    }
  }

  /** Rendering is injective: distinct label octets give distinct ids. */
  lemma EncodeInjective(a: seq<byte>, b: seq<byte>)
    requires EncodeHex(a) == EncodeHex(b)
    ensures a == b
  {
    DecodeEncode(a);
    DecodeEncode(b);
  }

  /** A lower-case hex string of even length parses, and rendering the result restores it. */
  lemma {:induction false} EncodeDecode(s: string)
    requires IsLowerHex(s) && |s| % 2 == 0
    ensures DecodeHex(s).Some?
    ensures EncodeHex(DecodeHex(s).value) == s
  {
    if s != [] {
      assert IsLowerHexDigit(s[0]) && IsLowerHexDigit(s[1]);
      var hi := DigitValue(s[0]).value;
      var lo := DigitValue(s[1]).value;
      assert HexDigit(hi) == s[0] && HexDigit(lo) == s[1];
      assert IsLowerHex(s[2..]) by {
        forall i | 0 <= i < |s[2..]| ensures IsLowerHexDigit(s[2..][i]) {
          assert s[2..][i] == s[i + 2];
        }
      }
      EncodeDecode(s[2..]);
      var rest := DecodeHex(s[2..]).value;
      var b := OctetOf(hi, lo);
      assert DecodeHex(s) == Some([b] + rest);
      assert ([b] + rest)[1..] == rest;
      assert EncodeHex([b] + rest) == [s[0], s[1]] + s[2..];
    }
  }
}
