/** Token issuance of the identity service
    (services/auth-service/src/utils/jwt.ts): a JSON Web Token (RFC 7519) in
    the JWS compact serialization (section 7.1 of RFC 7515), signed with
    HS256 (section 3.2 of RFC 7518).

    The signing secret, the clock and HMAC-SHA256 (RFC 2104) are parameters:
    the secret is the environment variable, absent or present; the clock is
    the two readings of `Date.now()` the issuer takes; HMAC is any function
    from key bytes and message bytes to digest bytes. */
module Jwt {
  import opened Wrappers
  import opened Utf8
  import Text
  import Base64
  import Decimal

  /** HMAC-SHA256 as a function of key and message. */
  type Mac = (seq<Byte>, seq<Byte>) -> seq<Byte>

  datatype Payload = Payload(sub: int, iat: int, exp: int)

  datatype TokenError = SecretMissing

  /** One hour, the lifetime the issuer adds to the clock. */
  const Lifetime: int := 60 * 60

  /** `JSON.stringify({ alg: 'HS256', typ: 'JWT' })`. */
  const HeaderJson: string := "{\"alg\":\"HS256\",\"typ\":\"JWT\"}"

  /** `JSON.stringify(payload)`: the three fields in declaration order. */
  function PayloadJson(p: Payload): string {
    "{\"sub\":" + Decimal.IntText(p.sub)
    + ",\"iat\":" + Decimal.IntText(p.iat)
    + ",\"exp\":" + Decimal.IntText(p.exp) + "}"
  }

  /** `base64UrlEncode`: the UTF-8 bytes of the text in standard base64, with
      the alphabet rewritten and the padding removed. */
  function Base64UrlEncode(str: string): string {
    Base64.UrlRewrite(Base64.StdEncode(Utf8.Encode(str)))
  }

  /** The claims `generateToken` puts in the payload: the subject, the first
      clock reading in whole seconds, and the second reading in MILLISECONDS
      plus 3600 (the expiry mixes units). */
  function Claims(userId: int, iatClockMs: int, expClockMs: int): Payload {
    Payload(userId, iatClockMs / 1000, expClockMs + Lifetime)
  }

  /** The HMAC over the signing input, keyed by the secret, in base64url. */
  function Signature(secret: string, signatureInput: string, hmac: Mac): string {
    Base64.UrlEncode(hmac(Utf8.Encode(secret), Utf8.Encode(signatureInput)))
  }

  /** `generateToken(userId)`. The secret is taken as given: `None` when the
      environment variable is not set. */
  function GenerateToken(secret: Option<string>, userId: int, iatClockMs: int, expClockMs: int,
                         hmac: Mac): (r: Result<string, TokenError>)
    ensures r.Err? <==> secret.None? || secret.value == ""
  {
    if secret.None? || secret.value == "" then Err(SecretMissing)
    else
      var encodedHeader := Base64UrlEncode(HeaderJson);
      var encodedPayload := Base64UrlEncode(PayloadJson(Claims(userId, iatClockMs, expClockMs)));
      var signatureInput := encodedHeader + "." + encodedPayload;
      var signature := Signature(secret.value, signatureInput, hmac);
      Ok(signatureInput + "." + signature)
  }

  /** A reader for payload text of the shape the issuer writes: the three
      claims, in order, as integers. */
  function ParsePayload(text: string): Option<Payload> {
    match ReadClaim("{\"sub\":", text)
    case None => None
    case Some((sub, r1)) =>
      match ReadClaim(",\"iat\":", r1)
      case None => None
      case Some((iat, r2)) =>
        match ReadClaim(",\"exp\":", r2)
        case None => None
        case Some((exp, r3)) => if r3 == "}" then Some(Payload(sub, iat, exp)) else None
  }

  function ReadClaim(key: string, s: string): Option<(int, string)> {
    if Text.StartsWith(s, key) then Decimal.ReadInt(s[|key|..]) else None
  }

  // ---------------------------------------------------------------------
  // Properties of the encoder

  /** The encoder gives unpadded base64url of the UTF-8 bytes: letters, digits,
      `-` and `_` only, ceil(4n/3) characters for n bytes. */
  lemma Base64UrlEncodeIsUnpadded(str: string)
    ensures Base64UrlEncode(str) == Base64.UrlEncode(Utf8.Encode(str))
    ensures |Base64UrlEncode(str)| == (4 * |Utf8.Encode(str)| + 2) / 3
    ensures forall i :: 0 <= i < |Base64UrlEncode(str)| ==> Base64.IsUrlChar(Base64UrlEncode(str)[i])
    ensures '+' !in Base64UrlEncode(str) && '/' !in Base64UrlEncode(str)
    ensures '=' !in Base64UrlEncode(str) && '.' !in Base64UrlEncode(str)
  {
    Base64.RewriteStdIsUrl(Utf8.Encode(str));
    Base64.UrlEncodeAlphabet(Utf8.Encode(str));
  }

  /** Decoding an encoded segment gives back the UTF-8 bytes of the text. */
  lemma Base64UrlDecodeEncode(str: string)
    ensures Base64.UrlDecode(Base64UrlEncode(str)) == Some(Utf8.Encode(str))
  {
    Base64UrlEncodeIsUnpadded(str);
    Base64.UrlRoundTrip(Utf8.Encode(str));
  }

  // ---------------------------------------------------------------------
  // Properties of the payload text

  lemma PayloadJsonIsAscii(p: Payload)
    ensures Utf8.IsAscii(PayloadJson(p))
  {
    IntTextIsAscii(p.sub);
    IntTextIsAscii(p.iat);
    IntTextIsAscii(p.exp);
  }

  lemma IntTextIsAscii(n: int)
    ensures Utf8.IsAscii(Decimal.IntText(n))
  {
  }

  lemma ReadClaimOf(key: string, n: int, rest: string)
    requires rest == [] || !Decimal.IsDigit(rest[0])
    ensures ReadClaim(key, key + Decimal.IntText(n) + rest) == Some((n, rest))
  {
    var s := key + Decimal.IntText(n) + rest;
    assert s[..|key|] == key;
    assert s[|key|..] == Decimal.IntText(n) + rest;
    Decimal.ReadIntText(n, rest);
  }

  /** The payload text determines the claims: reading it back gives them. */
  lemma ParsePayloadJson(p: Payload)
    ensures ParsePayload(PayloadJson(p)) == Some(p)
  {
    var sub, iat, exp := Decimal.IntText(p.sub), Decimal.IntText(p.iat), Decimal.IntText(p.exp);
    var k1, k2, k3 := "{\"sub\":", ",\"iat\":", ",\"exp\":";
    var r2 := k3 + exp + "}";
    var r1 := k2 + iat + r2;
    assert PayloadJson(p) == k1 + sub + r1;
    ReadClaimOf(k1, p.sub, r1);
    ReadClaimOf(k2, p.iat, r2);
    ReadClaimOf(k3, p.exp, "}");
  }

  // ---------------------------------------------------------------------
  // Properties of issued tokens

  /** The first segment of every token. */
  function EncodedHeader(): string {
    Base64UrlEncode(HeaderJson)
  }

  /** The second segment of the token issued with these claims. */
  function EncodedPayload(p: Payload): string {
    Base64UrlEncode(PayloadJson(p))
  }

  /** An issued token is three dot-separated segments: the fixed header, the
      payload, and the signature over the first two joined by a dot. None of
      them contains a dot, so splitting on `.` gives exactly those three. */
  lemma TokenShape(secret: string, userId: int, iatClockMs: int, expClockMs: int, hmac: Mac)
    requires secret != ""
    ensures var p := Claims(userId, iatClockMs, expClockMs);
      var input := EncodedHeader() + "." + EncodedPayload(p);
      && GenerateToken(Some(secret), userId, iatClockMs, expClockMs, hmac)
         == Ok(input + "." + Signature(secret, input, hmac))
      && Text.Split(GenerateToken(Some(secret), userId, iatClockMs, expClockMs, hmac).value, '.')
         == [EncodedHeader(), EncodedPayload(p), Signature(secret, input, hmac)]
  {
    var p := Claims(userId, iatClockMs, expClockMs);
    var input := EncodedHeader() + "." + EncodedPayload(p);
    var sig := Signature(secret, input, hmac);
    Base64UrlEncodeIsUnpadded(HeaderJson);
    Base64UrlEncodeIsUnpadded(PayloadJson(p));
    Base64.UrlEncodeAlphabet(hmac(Utf8.Encode(secret), Utf8.Encode(input)));
    Text.SplitThree(EncodedHeader(), EncodedPayload(p), sig, '.');
  }

  /** The payload segment decodes to the JSON text of exactly these claims:
      `sub` is the user id, `iat` the first clock reading in seconds (rounded
      down) and `exp` the second reading in milliseconds plus 3600. */
  lemma TokenPayload(secret: string, userId: int, iatClockMs: int, expClockMs: int, hmac: Mac)
    requires secret != ""
    ensures var parts := Text.Split(GenerateToken(Some(secret), userId, iatClockMs, expClockMs, hmac).value, '.');
      && |parts| == 3
      && Base64.UrlDecode(parts[1]).Some?
      && ParsePayload(Utf8.AsciiText(Base64.UrlDecode(parts[1]).value))
         == Some(Payload(userId, iatClockMs / 1000, expClockMs + 3600))
  {
    var p := Claims(userId, iatClockMs, expClockMs);
    TokenShape(secret, userId, iatClockMs, expClockMs, hmac);
    Base64UrlDecodeEncode(PayloadJson(p));
    PayloadJsonIsAscii(p);
    Utf8.AsciiRoundTrip(PayloadJson(p));
    ParsePayloadJson(p);
  }

  /** The signature segment is the base64url form of the HMAC, keyed by the
      secret, of the first two segments joined by a dot, and decodes back to
      that digest. */
  lemma TokenSignature(secret: string, userId: int, iatClockMs: int, expClockMs: int, hmac: Mac)
    requires secret != ""
    ensures var parts := Text.Split(GenerateToken(Some(secret), userId, iatClockMs, expClockMs, hmac).value, '.');
      && |parts| == 3
      && Base64.UrlDecode(parts[2])
         == Some(hmac(Utf8.Encode(secret), Utf8.Encode(parts[0] + "." + parts[1])))
  {
    var p := Claims(userId, iatClockMs, expClockMs);
    var input := EncodedHeader() + "." + EncodedPayload(p);
    TokenShape(secret, userId, iatClockMs, expClockMs, hmac);
    Base64.UrlRoundTrip(hmac(Utf8.Encode(secret), Utf8.Encode(input)));
  }

  /** Every token carries the same first segment, whatever the subject, the
      clock or the secret. */
  lemma HeaderIsFixed(s1: string, u1: int, i1: int, e1: int, s2: string, u2: int, i2: int, e2: int, hmac: Mac)
    requires s1 != "" && s2 != ""
    ensures Text.Split(GenerateToken(Some(s1), u1, i1, e1, hmac).value, '.')[0]
         == Text.Split(GenerateToken(Some(s2), u2, i2, e2, hmac).value, '.')[0]
         == Base64UrlEncode(HeaderJson)
  {
    TokenShape(s1, u1, i1, e1, hmac);
    TokenShape(s2, u2, i2, e2, hmac);
  }

  /** Two tokens under the same secret whose claims agree are identical: the
      signature depends on nothing but the secret and the first two segments.
      Conversely, tokens that agree have the same claims. */
  lemma TokenDeterminedByClaims(secret: string, u1: int, i1: int, e1: int, u2: int, i2: int, e2: int, hmac: Mac)
    requires secret != ""
    ensures GenerateToken(Some(secret), u1, i1, e1, hmac) == GenerateToken(Some(secret), u2, i2, e2, hmac)
        <==> Claims(u1, i1, e1) == Claims(u2, i2, e2)
  {
    var t1 := GenerateToken(Some(secret), u1, i1, e1, hmac).value;
    var t2 := GenerateToken(Some(secret), u2, i2, e2, hmac).value;
    TokenPayload(secret, u1, i1, e1, hmac);
    TokenPayload(secret, u2, i2, e2, hmac);
    if t1 == t2 {
      assert Payload(u1, i1 / 1000, e1 + 3600) == Payload(u2, i2 / 1000, e2 + 3600);
    }
  }

  /** The expiry is not one hour after the issue time: once the clock reads a
      second or more, `exp - iat` exceeds 3600, because `exp` counts
      milliseconds while `iat` counts seconds. */
  lemma ExpiryMixesUnits(secret: string, userId: int, nowMs: int, hmac: Mac)
    requires secret != "" && nowMs >= 1000
    ensures var parts := Text.Split(GenerateToken(Some(secret), userId, nowMs, nowMs, hmac).value, '.');
      && |parts| == 3
      && Base64.UrlDecode(parts[1]).Some?
      && var claims := ParsePayload(Utf8.AsciiText(Base64.UrlDecode(parts[1]).value));
      && claims.Some?
      && claims.value.exp - claims.value.iat > Lifetime
  {
    TokenPayload(secret, userId, nowMs, nowMs, hmac);
    assert nowMs / 1000 < nowMs;
  }
}
