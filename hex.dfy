/**
 * `bytesToHex`: the lower-case hexadecimal rendering of a digest, one byte
 * after the other, each byte as `("00" + x.toString(16)).slice(-2)`.
 */
module Hex {
  import opened Wrappers
  import opened Text

  /** An element of a `Uint8Array`. */
  newtype uint8 = x: int | 0 <= x < 256

  /** One byte as the source writes it: zero-padded to exactly two lower-case hex digits. */
  function ByteToHex(b: uint8): (r: string)
    ensures r == [DigitChar(b as nat / 16), DigitChar(b as nat % 16)]
  {
    var digits := Radix(b as nat, 16);
    assert b >= 16 ==> Radix(b as nat / 16, 16) == [DigitChar(b as nat / 16)];
    SliceFromEnd("00" + digits, 2)
  }

  /** The whole buffer: the byte at index `i` fills positions `2i` and `2i + 1`. */
  function BytesToHex(bytes: seq<uint8>): (r: string)
    ensures |r| == 2 * |bytes|
    ensures forall i :: 0 <= i < |bytes| ==>
      r[2 * i] == DigitChar(bytes[i] as nat / 16) && r[2 * i + 1] == DigitChar(bytes[i] as nat % 16)
  {
    if |bytes| == 0 then ""
    else
      var head, tail := ByteToHex(bytes[0]), BytesToHex(bytes[1..]);
      assert forall i :: 1 <= i < |bytes| ==> bytes[i] == bytes[1..][i - 1];
      head + tail
  }

  /** Every character `bytesToHex` produces is one of `0-9a-f`. */
  lemma BytesToHexAlphabet(bytes: seq<uint8>)
    ensures forall k :: 0 <= k < |BytesToHex(bytes)| ==> IsLowerHexDigit(BytesToHex(bytes)[k])
  {
    var r := BytesToHex(bytes);
    forall k | 0 <= k < |r| ensures IsLowerHexDigit(r[k]) {
      var i := k / 2;
      assert i < |bytes| && (k == 2 * i || k == 2 * i + 1);
      assert bytes[i] as nat / 16 < 16 && bytes[i] as nat % 16 < 16;
    }
  }

  /** The value of one lower-case hex digit; anything else is rejected. */
  function DigitValue(c: char): (r: Option<nat>)
    ensures r.Some? <==> IsLowerHexDigit(c)
    ensures r.Some? ==> r.value < 16 && DigitChar(r.value) == c
  {
    if '0' <= c <= '9' then Some(c as int - '0' as int)
    else if 'a' <= c <= 'f' then Some(c as int - 'a' as int + 10)
    else None
  }

  /**
   * The inverse of `BytesToHex`: reads pairs of lower-case hex digits back into bytes.
   * It is not part of the program; it states that the encoding loses nothing.
   */
  function HexToBytes(s: string): (r: Option<seq<uint8>>)
    decreases |s|
  {
    if |s| == 0 then Some([])
    else if |s| == 1 then None
    else
      match (DigitValue(s[0]), DigitValue(s[1]), HexToBytes(s[2..]))
      case (Some(hi), Some(lo), Some(rest)) => Some([(16 * hi + lo) as uint8] + rest)
      case _ => None
  }

  lemma {:induction false} HexRoundTrip(bytes: seq<uint8>)
    ensures HexToBytes(BytesToHex(bytes)) == Some(bytes)
  {
    if |bytes| > 0 {
      var s := BytesToHex(bytes);
      var b := bytes[0] as nat;
      assert s == ByteToHex(bytes[0]) + BytesToHex(bytes[1..]);
      assert s[2..] == BytesToHex(bytes[1..]);
      HexRoundTrip(bytes[1..]);
      DigitRoundTrip(b);
      assert [bytes[0]] + bytes[1..] == bytes;
    }
  }

  /** The two digits of a byte read back as that byte. */
  lemma DigitRoundTrip(b: nat)
    requires b < 256
    ensures DigitValue(DigitChar(b / 16)) == Some(b / 16)
    ensures DigitValue(DigitChar(b % 16)) == Some(b % 16)
    ensures 16 * (b / 16) + b % 16 == b
  {
  }

  /** Whatever `HexToBytes` accepts is exactly what `BytesToHex` prints for the decoded bytes. */
  lemma {:induction false} HexToBytesInverse(s: string, bytes: seq<uint8>)
    requires HexToBytes(s) == Some(bytes)
    ensures BytesToHex(bytes) == s
  {
    if |s| > 0 {
      var hi, lo := DigitValue(s[0]).value, DigitValue(s[1]).value;
      var rest := HexToBytes(s[2..]).value;
      assert bytes == [(16 * hi + lo) as uint8] + rest;
      HexToBytesInverse(s[2..], rest);
      var b := bytes[0] as nat;
      assert b / 16 == hi && b % 16 == lo;
      assert bytes[1..] == rest;
      assert ByteToHex(bytes[0]) == s[..2];
      assert s == s[..2] + s[2..];
    }
  }

  /** Distinct buffers render as distinct strings. */
  lemma BytesToHexInjective(a: seq<uint8>, b: seq<uint8>)
    requires BytesToHex(a) == BytesToHex(b)
    ensures a == b
  {
    HexRoundTrip(a);
    HexRoundTrip(b);
  }
}
