/** Go's encoding/hex: lower-case encoding, case-insensitive decoding. */
module GoHex {
  import opened Wrappers

  /** Go's byte: an unsigned 8-bit value. */
  newtype byte = x: int | 0 <= x < 256

  /** The lower-case digit for a value below 16. */
  function HexDigit(v: int): (c: char)
    requires 0 <= v < 16
    ensures ('0' <= c <= '9') || ('a' <= c <= 'f')
  {
    if v < 10 then ('0' as int + v) as char else ('a' as int + v - 10) as char
  }

  /** The value of a hexadecimal digit of either case; None for any other character. */
  function DigitValue(c: char): (v: Option<int>)
    ensures v.Some? ==> 0 <= v.value < 16
    ensures v.Some? <==> ('0' <= c <= '9') || ('a' <= c <= 'f') || ('A' <= c <= 'F')
  {
    if '0' <= c <= '9' then Some(c as int - '0' as int)
    else if 'a' <= c <= 'f' then Some(c as int - 'a' as int + 10)
    else if 'A' <= c <= 'F' then Some(c as int - 'A' as int + 10)
    else None
  }

  predicate IsHexDigit(c: char) {
    DigitValue(c).Some?
  }

  lemma DigitRoundTrip(v: int)
    requires 0 <= v < 16
    ensures DigitValue(HexDigit(v)) == Some(v)
  {
  }

  /** hex.EncodeToString: two lower-case digits per byte, high nibble first. */
  function EncodeToString(b: seq<byte>): (s: string)
    ensures |s| == 2 * |b|
    ensures forall i :: 0 <= i < |s| ==> IsHexDigit(s[i]) && !('A' <= s[i] <= 'F')
  {
    if b == [] then ""
    else [HexDigit(b[0] as int / 16), HexDigit(b[0] as int % 16)] + EncodeToString(b[1..])
  }

  /** hex.DecodeString: fails on an odd length or on any character that is not a hexadecimal digit. */
  function DecodeString(s: string): (r: Option<seq<byte>>)
    ensures r.Some? <==> |s| % 2 == 0 && forall i :: 0 <= i < |s| ==> IsHexDigit(s[i])
    ensures r.Some? ==> |r.value| == |s| / 2
  {
    if s == [] then Some([])
    else if |s| == 1 then None
    else
      var rest := DecodeString(s[2..]);
      assert forall i :: 2 <= i < |s| ==> s[i] == s[2..][i - 2];
      match (DigitValue(s[0]), DigitValue(s[1]), rest)
      case (Some(hi), Some(lo), Some(tail)) => Some([(hi * 16 + lo) as byte] + tail)
      case _ => None
  }

  /** A byte is its high nibble times 16 plus its low nibble. */
  lemma ByteNibbles(x: byte)
    ensures ((x as int / 16) * 16 + x as int % 16) as byte == x
  {
  }

  /** Decoding two digits in front of a decodable tail. */
  lemma DecodeCons(hi: int, lo: int, tail: string)
    requires 0 <= hi < 16 && 0 <= lo < 16
    requires DecodeString(tail).Some?
    ensures DecodeString([HexDigit(hi), HexDigit(lo)] + tail)
         == Some([(hi * 16 + lo) as byte] + DecodeString(tail).value)
  {
    var s := [HexDigit(hi), HexDigit(lo)] + tail;
    assert s[2..] == tail;
    DigitRoundTrip(hi);
    DigitRoundTrip(lo);
  }

  lemma {:induction false} DecodeEncode(b: seq<byte>)
    ensures DecodeString(EncodeToString(b)) == Some(b)
  {
    if b != [] {
      var hi, lo := b[0] as int / 16, b[0] as int % 16;
      var tail := EncodeToString(b[1..]);
      assert EncodeToString(b) == [HexDigit(hi), HexDigit(lo)] + tail;
      DecodeEncode(b[1..]);
      DecodeCons(hi, lo, tail);
      ByteNibbles(b[0]);
      assert [(hi * 16 + lo) as byte] + b[1..] == b;
    }
  }

  /** Distinct byte strings have distinct encodings. */
  lemma EncodeInjective(a: seq<byte>, b: seq<byte>)
    requires EncodeToString(a) == EncodeToString(b)
    ensures a == b
  {
    DecodeEncode(a);
    DecodeEncode(b);
  }
}
