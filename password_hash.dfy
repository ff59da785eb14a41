/** The password hash record of the identity service
    (services/auth-service/src/utils/hash.ts): the stored text is the hex of
    a 64-byte key derived with scrypt (RFC 7914), a `:`, and the hex of the
    16 random salt bytes.

    scrypt is a parameter, a function of the password text, the salt text and
    the key length; the random salt bytes are a parameter too. */
module PasswordHash {
  import opened Wrappers
  import opened Utf8
  import Text
  import Hex

  /** `scrypt(password, salt, keylen)`. */
  type Kdf = (string, string, nat) -> seq<Byte>

  const SaltLength: nat := 16
  const KeyLength: nat := 64

  /** scrypt returns exactly the key length it is asked for. */
  ghost predicate DerivesKeyLength(kdf: Kdf) {
    forall password: string, salt: string ::
      |kdf(password, salt, KeyLength)| == KeyLength
  }

  /** What `verifyPassword` can raise instead of answering: `SaltMissing` when
      the stored text has no `:` (scrypt is then called without a salt), and
      `LengthMismatch` when `timingSafeEqual` is handed buffers of different
      lengths. */
  datatype VerifyError = SaltMissing | LengthMismatch

  /** `hashPassword(password)`, with `saltBytes` the 16 bytes that
      `randomBytes(16)` returned. */
  function HashPassword(password: string, saltBytes: seq<Byte>, kdf: Kdf): string {
    var salt := Hex.HexEncode(saltBytes);
    Hex.HexEncode(kdf(password, salt, KeyLength)) + ":" + salt
  }

  /** `verifyPassword(stored, supplied)`. The key is re-derived from the salt
      TEXT after the first `:` (anything after a second `:` is ignored), and
      the bytes before it are read as hex. */
  function VerifyPassword(stored: string, supplied: string, kdf: Kdf): Result<bool, VerifyError> {
    var parts := Text.Split(stored, ':');
    if |parts| < 2 then Err(SaltMissing)
    else
      var hashedPassword, salt := parts[0], parts[1];
      var buf := kdf(supplied, salt, KeyLength);
      var suppliedBuf := Hex.HexDecode(hashedPassword);
      if |buf| != |suppliedBuf| then Err(LengthMismatch)
      else Ok(buf == suppliedBuf)
  }

  /** The stored text: 128 hex digits of key, one `:`, 32 hex digits of salt;
      splitting it on `:` gives back exactly the two hex parts. */
  lemma StoredFormat(password: string, saltBytes: seq<Byte>, kdf: Kdf)
    requires DerivesKeyLength(kdf) && |saltBytes| == SaltLength
    ensures var stored := HashPassword(password, saltBytes, kdf);
      var salt := Hex.HexEncode(saltBytes);
      && |stored| == 2 * KeyLength + 1 + 2 * SaltLength
      && Text.Count(stored, ':') == 1
      && Text.Split(stored, ':') == [Hex.HexEncode(kdf(password, salt, KeyLength)), salt]
  {
    var salt := Hex.HexEncode(saltBytes);
    var key := Hex.HexEncode(kdf(password, salt, KeyLength));
    Hex.HexEncodeShape(saltBytes);
    Hex.HexEncodeShape(kdf(password, salt, KeyLength));
    Text.SplitTwo(key, salt, ':');
    Text.CountAbsent(key, ':');
    Text.CountAbsent(salt, ':');
    Text.CountAppend(key, ":", ':');
    Text.CountAppend(key + ":", salt, ':');
  }

  /** Verification answers once the stored text has a `:`, exactly when the
      hex before it decodes to as many bytes as scrypt returns; the answer is
      whether the two keys are equal. */
  lemma VerifyOutcomes(stored: string, supplied: string, kdf: Kdf)
    ensures VerifyPassword(stored, supplied, kdf) == Err(SaltMissing) <==> ':' !in stored
    ensures ':' in stored ==>
      var parts := Text.Split(stored, ':');
      var buf := kdf(supplied, parts[1], KeyLength);
      var suppliedBuf := Hex.HexDecode(parts[0]);
      && (VerifyPassword(stored, supplied, kdf) == Err(LengthMismatch) <==> |buf| != |suppliedBuf|)
      && (VerifyPassword(stored, supplied, kdf) == Ok(true) <==> buf == suppliedBuf)
  {
    Text.SplitPieces(stored, ':');
    CountPositive(stored, ':');
  }

  lemma {:induction false} CountPositive(s: string, c: char)
    ensures Text.Count(s, c) > 0 <==> c in s
  {
    if s != [] {
      CountPositive(s[1..], c);
      assert s == [s[0]] + s[1..];
    }
  }

  /** A stored text whose key part does not decode to 64 bytes makes
      verification raise instead of answering false, whatever password is
      supplied. */
  lemma CorruptedKeyRaises(stored: string, supplied: string, kdf: Kdf)
    requires DerivesKeyLength(kdf)
    requires ':' in stored
    requires |Hex.HexDecode(Text.Split(stored, ':')[0])| != KeyLength
    ensures VerifyPassword(stored, supplied, kdf) == Err(LengthMismatch)
  {
    VerifyOutcomes(stored, supplied, kdf);
    Text.SplitPieces(stored, ':');
    CountPositive(stored, ':');
    var parts := Text.Split(stored, ':');
    assert |kdf(supplied, parts[1], KeyLength)| == KeyLength;
  }

  /** Verifying a password against its own record succeeds: both sides
      derive from the same salt text, and the stored key decodes back to the
      derived bytes. Against any other password the answer is whether scrypt
      gives that password the same key under this salt, so it is false
      unless the two keys collide. */
  lemma HashThenVerify(password: string, supplied: string, saltBytes: seq<Byte>, kdf: Kdf)
    requires DerivesKeyLength(kdf) && |saltBytes| == SaltLength
    ensures var salt := Hex.HexEncode(saltBytes);
      VerifyPassword(HashPassword(password, saltBytes, kdf), supplied, kdf)
      == Ok(kdf(supplied, salt, KeyLength) == kdf(password, salt, KeyLength))
  {
    var salt := Hex.HexEncode(saltBytes);
    StoredFormat(password, saltBytes, kdf);
    Hex.HexRoundTrip(kdf(password, salt, KeyLength));
  }

  lemma VerifyOwnPassword(password: string, saltBytes: seq<Byte>, kdf: Kdf)
    requires DerivesKeyLength(kdf) && |saltBytes| == SaltLength
    ensures VerifyPassword(HashPassword(password, saltBytes, kdf), password, kdf) == Ok(true)
  {
    HashThenVerify(password, password, saltBytes, kdf);
  }

  lemma VerifyWrongPassword(password: string, wrong: string, saltBytes: seq<Byte>, kdf: Kdf)
    requires DerivesKeyLength(kdf) && |saltBytes| == SaltLength
    requires kdf(wrong, Hex.HexEncode(saltBytes), KeyLength) != kdf(password, Hex.HexEncode(saltBytes), KeyLength)
    ensures VerifyPassword(HashPassword(password, saltBytes, kdf), wrong, kdf) == Ok(false)
  {
    HashThenVerify(password, wrong, saltBytes, kdf);
  }
}
