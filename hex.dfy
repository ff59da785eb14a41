/** Base16 (section 8 of RFC 4648) as Node's `Buffer` does it:
    `toString('hex')` writes lower-case digits, and `Buffer.from(s, 'hex')`
    reads pairs of digits of either case, stopping at the first pair that is
    not two hex digits and ignoring an odd last character. */
module Hex {
  import opened Wrappers
  import opened Utf8

  function HexDigit(v: int): char
    requires 0 <= v < 16
  {
    if v < 10 then ('0' as int + v) as char else ('a' as int + (v - 10)) as char
  }

  predicate IsLowerHex(c: char) {
    ('0' <= c <= '9') || ('a' <= c <= 'f')
  }

  /** The value of a hex digit of either case. */
  function HexValue(c: char): (r: Option<int>)
    ensures r.Some? ==> 0 <= r.value < 16
    ensures IsLowerHex(c) ==> r.Some? && HexDigit(r.value) == c
  {
    if '0' <= c <= '9' then Some(c as int - '0' as int)
    else if 'a' <= c <= 'f' then Some(c as int - 'a' as int + 10)
    else if 'A' <= c <= 'F' then Some(c as int - 'A' as int + 10)
    else None
  }

  /** `buf.toString('hex')`. */
  function HexEncode(b: seq<Byte>): string {
    if b == [] then [] else [HexDigit(b[0] / 16), HexDigit(b[0] % 16)] + HexEncode(b[1..])
  }

  /** `Buffer.from(s, 'hex')`. */
  function HexDecode(s: string): (b: seq<Byte>)
    ensures |b| <= |s| / 2
  {
    if |s| < 2 then []
    else
      match (HexValue(s[0]), HexValue(s[1]))
      case (Some(hi), Some(lo)) => [hi * 16 + lo] + HexDecode(s[2..])
      case _ => []
  }

  /** Encoding writes two lower-case hex digits per byte, so never a `:`. */
  lemma {:induction false} HexEncodeShape(b: seq<Byte>)
    ensures |HexEncode(b)| == 2 * |b|
    ensures forall i :: 0 <= i < |HexEncode(b)| ==> IsLowerHex(HexEncode(b)[i])
    ensures ':' !in HexEncode(b)
  {
    if b != [] {
      HexEncodeShape(b[1..]);
    }
  }

  /** Decoding inverts encoding. */
  lemma {:induction false} HexRoundTrip(b: seq<Byte>)
    ensures HexDecode(HexEncode(b)) == b
  {
    if b != [] {
      HexRoundTrip(b[1..]);
      var s := HexEncode(b);
      assert s[2..] == HexEncode(b[1..]);
      assert HexValue(s[0]) == Some(b[0] / 16) && HexValue(s[1]) == Some(b[0] % 16);
      assert [b[0]] + b[1..] == b;
    }
  }
}
