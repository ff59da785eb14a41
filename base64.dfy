/** Base64 (section 4 of RFC 4648) and its URL-safe, unpadded variant
    (section 5, with the padding of section 3.2 omitted).

    Encoding is described once, as the sequence of 6-bit groups ("sextets")
    a byte string splits into; the two alphabets and the padding are applied
    on top of that. `StdEncode` is what `Buffer.toString('base64')` returns,
    `UrlEncode` what `digest('base64url')` returns, and `UrlRewrite` the
    three `replace` calls the token encoder applies to the former. */
module Base64 {
  import opened Wrappers
  import opened Utf8
  import Text

  predicate IsSextets(xs: seq<int>) {
    forall i :: 0 <= i < |xs| ==> 0 <= xs[i] < 64
  }

  /** Table 1 of RFC 4648: the standard alphabet. */
  function StdChar(v: int): char
    requires 0 <= v < 64
  {
    if v < 26 then ('A' as int + v) as char
    else if v < 52 then ('a' as int + (v - 26)) as char
    else if v < 62 then ('0' as int + (v - 52)) as char
    else if v == 62 then '+'
    else '/'
  }

  /** Table 2 of RFC 4648: the URL and filename safe alphabet. */
  function UrlChar(v: int): char
    requires 0 <= v < 64
  {
    if v < 62 then StdChar(v) else if v == 62 then '-' else '_'
  }

  predicate IsUrlChar(c: char) {
    ('A' <= c <= 'Z') || ('a' <= c <= 'z') || ('0' <= c <= '9') || c == '-' || c == '_'
  }

  /** The value of a character of the URL-safe alphabet. */
  function UrlCharValue(c: char): (r: Option<int>)
    ensures r.Some? <==> IsUrlChar(c)
    ensures r.Some? ==> 0 <= r.value < 64 && UrlChar(r.value) == c
  {
    if 'A' <= c <= 'Z' then Some(c as int - 'A' as int)
    else if 'a' <= c <= 'z' then Some(c as int - 'a' as int + 26)
    else if '0' <= c <= '9' then Some(c as int - '0' as int + 52)
    else if c == '-' then Some(62)
    else if c == '_' then Some(63)
    else None
  }

  /** The four sextets of a group of three bytes (section 4 of RFC 4648). */
  function Group(b0: Byte, b1: Byte, b2: Byte): (xs: seq<int>)
    ensures |xs| == 4 && IsSextets(xs)
  {
    [b0 / 4, (b0 % 4) * 16 + b1 / 16, (b1 % 16) * 4 + b2 / 64, b2 % 64]
  }

  /** The three bytes four sextets stand for. */
  function Ungroup(x0: int, x1: int, x2: int, x3: int): seq<Byte>
    requires 0 <= x0 < 64 && 0 <= x1 < 64 && 0 <= x2 < 64 && 0 <= x3 < 64
  {
    [x0 * 4 + x1 / 16, (x1 % 16) * 16 + x2 / 4, (x2 % 4) * 64 + x3]
  }

  /** The 6-bit groups of a byte string, most significant bits first; a final
      group of one or two bytes is filled up with zero bits (section 4 of
      RFC 4648), and no padding groups are produced. */
  function Sextets(b: seq<Byte>): (xs: seq<int>)
    ensures IsSextets(xs)
    ensures |xs| == (4 * |b| + 2) / 3
  {
    if |b| == 0 then []
    else if |b| == 1 then Group(b[0], 0, 0)[..2]
    else if |b| == 2 then Group(b[0], b[1], 0)[..3]
    else Group(b[0], b[1], b[2]) + Sextets(b[3..])
  }

  /** The `=` characters that complete the last quantum (section 3.2). */
  function Padding(n: nat): string {
    if n % 3 == 1 then "==" else if n % 3 == 2 then "=" else ""
  }

  /** `Buffer.from(bytes).toString('base64')`. */
  function StdEncode(b: seq<Byte>): string {
    var xs := Sextets(b);
    seq(|xs|, i requires 0 <= i < |xs| => StdChar(xs[i])) + Padding(|b|)
  }

  /** Sextets written in the URL-safe alphabet. */
  function UrlText(xs: seq<int>): (s: string)
    requires IsSextets(xs)
    ensures |s| == |xs|
  {
    seq(|xs|, i requires 0 <= i < |xs| => UrlChar(xs[i]))
  }

  /** Unpadded base64url, as `digest('base64url')` produces it. */
  function UrlEncode(b: seq<Byte>): string {
    UrlText(Sextets(b))
  }

  /** The rewrite of services/auth-service/src/utils/jwt.ts:6-8, in its order:
      `+` to `-`, then `/` to `_`, then every `=` deleted. */
  function UrlRewrite(s: string): string {
    Text.DeleteChar(Text.ReplaceChar(Text.ReplaceChar(s, '+', '-'), '/', '_'), '=')
  }

  /** Decoding, the inverse of Sextets: each group of four sextets gives three
      bytes, a final group of two or three gives one or two. A lone final
      sextet cannot come from any byte string. */
  function FromSextets(xs: seq<int>): Option<seq<Byte>>
    requires IsSextets(xs)
  {
    if |xs| == 0 then Some([])
    else if |xs| == 1 then None
    else if |xs| == 2 then Some(Ungroup(xs[0], xs[1], 0, 0)[..1])
    else if |xs| == 3 then Some(Ungroup(xs[0], xs[1], xs[2], 0)[..2])
    else
      match FromSextets(xs[4..])
      case None => None
      case Some(rest) => Some(Ungroup(xs[0], xs[1], xs[2], xs[3]) + rest)
  }

  /** The sextet values of a URL-safe text, or None at the first character
      outside the alphabet. */
  function UrlValues(s: string): (r: Option<seq<int>>)
    ensures r.Some? ==> IsSextets(r.value) && |r.value| == |s|
  {
    if s == [] then Some([])
    else
      match UrlCharValue(s[0])
      case None => None
      case Some(v) =>
        match UrlValues(s[1..])
        case None => None
        case Some(vs) => Some([v] + vs)
  }

  /** Unpadded base64url decoding. */
  function UrlDecode(s: string): Option<seq<Byte>> {
    match UrlValues(s)
    case None => None
    case Some(xs) => FromSextets(xs)
  }

  /** Unpadded output has ceil(4n/3) characters. */
  lemma UrlEncodeLength(b: seq<Byte>)
    ensures |UrlEncode(b)| == (4 * |b| + 2) / 3
    ensures |StdEncode(b)| == 4 * ((|b| + 2) / 3)
  {
    var n, q := |b|, |b| / 3;
    assert |StdEncode(b)| == (4 * n + 2) / 3 + |Padding(n)|;
    if n % 3 == 0 {
      assert n == 3 * q && (4 * n + 2) / 3 == 4 * q && (n + 2) / 3 == q;
    } else if n % 3 == 1 {
      assert n == 3 * q + 1 && (4 * n + 2) / 3 == 4 * q + 2 && (n + 2) / 3 == q + 1;
    } else {
      assert n == 3 * q + 2 && (4 * n + 2) / 3 == 4 * q + 3 && (n + 2) / 3 == q + 1;
    }
  }

  /** Unpadded base64url uses only letters, digits, `-` and `_`: never `+`,
      `/`, `=` or the `.` that separates token segments. */
  lemma UrlEncodeAlphabet(b: seq<Byte>)
    ensures forall i :: 0 <= i < |UrlEncode(b)| ==> IsUrlChar(UrlEncode(b)[i])
    ensures '+' !in UrlEncode(b) && '/' !in UrlEncode(b)
    ensures '=' !in UrlEncode(b) && '.' !in UrlEncode(b)
  {
    var s := UrlEncode(b);
    forall i | 0 <= i < |s| ensures IsUrlChar(s[i]) {
      var v := Sextets(b)[i];
      assert UrlCharValue(UrlChar(v)) == Some(v);
    }
  }

  /** The three replacements turn standard base64 into unpadded base64url:
      each `+` and `/` is rewritten in place, the padding is deleted, and
      every other character keeps its position. */
  lemma RewriteStdIsUrl(b: seq<Byte>)
    ensures UrlRewrite(StdEncode(b)) == UrlEncode(b)
  {
    var xs := Sextets(b);
    var body := seq(|xs|, i requires 0 <= i < |xs| => StdChar(xs[i]));
    var pad := Padding(|b|);
    assert StdEncode(b) == body + pad;
    var swapped := Text.ReplaceChar(Text.ReplaceChar(body + pad, '+', '-'), '/', '_');
    assert swapped == UrlEncode(b) + pad;
    Text.DeleteCharAppend(UrlEncode(b), pad, '=');
    UrlEncodeAlphabet(b);
    Text.DeleteCharAbsent(UrlEncode(b), '=');
    if |b| % 3 == 1 {
      assert pad == ['='] + ['='];
      Text.DeleteCharAppend(['='], ['='], '=');
    }
  }

  /** On any text, the rewrite leaves no `+`, `/` or `=`; on text without
      padding it changes only `+` (to `-`) and `/` (to `_`), every character
      keeping its position. */
  lemma UrlRewriteInPlace(s: string)
    ensures '+' !in UrlRewrite(s) && '/' !in UrlRewrite(s) && '=' !in UrlRewrite(s)
    ensures '=' !in s ==>
      && |UrlRewrite(s)| == |s|
      && forall i :: 0 <= i < |s| ==>
           UrlRewrite(s)[i] == if s[i] == '+' then '-' else if s[i] == '/' then '_' else s[i]
  {
    var swapped := Text.ReplaceChar(Text.ReplaceChar(s, '+', '-'), '/', '_');
    Text.DeleteCharNotIn(swapped, '=');
    if '+' in UrlRewrite(s) {
      Text.DeleteCharSubset(swapped, '=', '+');
      assert false;
    }
    if '/' in UrlRewrite(s) {
      Text.DeleteCharSubset(swapped, '=', '/');
      assert false;
    }
    if '=' !in s {
      Text.DeleteCharAbsent(swapped, '=');
    }
  }

  /** Reassembling the sextets of one group gives back its bytes. */
  lemma GroupRoundTrip(b0: Byte, b1: Byte, b2: Byte)
    ensures var g := Group(b0, b1, b2); Ungroup(g[0], g[1], g[2], g[3]) == [b0, b1, b2]
  {
  }

  /** A final group of one byte round-trips. */
  lemma OneByteRoundTrip(b: seq<Byte>)
    requires |b| == 1
    ensures FromSextets(Sextets(b)) == Some(b)
  {
    var g := Group(b[0], 0, 0);
    GroupRoundTrip(b[0], 0, 0);
    var xs := Sextets(b);
    assert g[2] == 0 && g[3] == 0 && xs == g[..2];
    assert Ungroup(xs[0], xs[1], 0, 0) == [b[0], 0, 0];
    assert [b[0], 0, 0][..1] == [b[0]] == b;
  }

  /** A final group of two bytes round-trips. */
  lemma TwoBytesRoundTrip(b: seq<Byte>)
    requires |b| == 2
    ensures FromSextets(Sextets(b)) == Some(b)
  {
    var g := Group(b[0], b[1], 0);
    GroupRoundTrip(b[0], b[1], 0);
    var xs := Sextets(b);
    assert g[3] == 0 && xs == g[..3];
    assert Ungroup(xs[0], xs[1], xs[2], 0) == [b[0], b[1], 0];
    assert [b[0], b[1], 0][..2] == [b[0], b[1]] == b;
  }

  lemma {:induction false} SextetsRoundTrip(b: seq<Byte>)
    ensures FromSextets(Sextets(b)) == Some(b)
  {
    if |b| == 1 {
      OneByteRoundTrip(b);
    } else if |b| == 2 {
      TwoBytesRoundTrip(b);
    } else if |b| >= 3 {
      var xs := Sextets(b);
      SextetsRoundTrip(b[3..]);
      assert xs[..4] == Group(b[0], b[1], b[2]) && xs[4..] == Sextets(b[3..]);
      GroupRoundTrip(b[0], b[1], b[2]);
      assert [b[0], b[1], b[2]] + b[3..] == b;
    }
  }

  lemma UrlTextTail(xs: seq<int>)
    requires IsSextets(xs) && xs != []
    ensures UrlText(xs) == [UrlChar(xs[0])] + UrlText(xs[1..])
  {
  }

  lemma {:induction false} UrlValuesOfEncode(xs: seq<int>)
    requires IsSextets(xs)
    ensures UrlValues(UrlText(xs)) == Some(xs)
  {
    if xs != [] {
      var s := UrlText(xs);
      UrlTextTail(xs);
      UrlValuesOfEncode(xs[1..]);
      assert s[0] == UrlChar(xs[0]) && s[1..] == UrlText(xs[1..]);
      assert UrlCharValue(s[0]) == Some(xs[0]);
      assert [xs[0]] + xs[1..] == xs;
    }
  }

  /** Decoding inverts encoding. */
  lemma UrlRoundTrip(b: seq<Byte>)
    ensures UrlDecode(UrlEncode(b)) == Some(b)
  {
    UrlValuesOfEncode(Sextets(b));
    SextetsRoundTrip(b);
  }

  /** Different byte strings never share an encoding. */
  lemma UrlEncodeInjective(a: seq<Byte>, b: seq<Byte>)
    requires UrlEncode(a) == UrlEncode(b)
    ensures a == b
  {
    UrlRoundTrip(a);
    UrlRoundTrip(b);
  }
}
