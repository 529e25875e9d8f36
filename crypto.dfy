/** The password-hash envelope of src/lib/crypto.ts: `v1:<salt>:<hex of the derived key>`.
    The key derivation (scrypt with fixed parameters) is a deterministic function supplied by
    the caller, and the random salt is supplied as a value. */
module Crypto {
  import opened Common

  type Byte = b: int | 0 <= b < 256

  const SaltLength: nat := 16
  const KeyLength: nat := 64
  const SaltChars: string := "0123456789"
  const Version: string := "v1"

  /** A derived key: scrypt is always asked for KeyLength bytes. */
  type Key = k: seq<Byte> | |k| == KeyLength witness seq(64, (i: int) => 0 as Byte)

  /** The key derivation function, uninterpreted: deterministic in its password and salt. */
  type Kdf = (string, string) -> Key

  /** What `generateRandomString(CHARS, SALT_LENGTH)` yields. */
  predicate IsSalt(salt: string) {
    |salt| == SaltLength && forall i :: 0 <= i < |salt| ==> salt[i] in SaltChars
  }

  const HexChars: string := "0123456789abcdef"

  /** `encodeHexLowerCase`: two lowercase hex digits per byte, high nibble first. */
  function HexLower(bytes: seq<Byte>): (h: string)
    ensures |h| == 2 * |bytes|
    ensures forall c :: c in h ==> c in HexChars
  {
    if bytes == [] then []
    else [HexChars[bytes[0] / 16], HexChars[bytes[0] % 16]] + HexLower(bytes[1..])
  }

  function HexValue(c: char): Option<nat> {
    if '0' <= c <= '9' then Some(c as int - '0' as int)
    else if 'a' <= c <= 'f' then Some(c as int - 'a' as int + 10)
    else if 'A' <= c <= 'F' then Some(c as int - 'A' as int + 10)
    else None
  }

  /** `Buffer.from(s, "hex")`: pairs of hex digits become bytes; decoding stops at the first pair
      that is not two hex digits, and a trailing odd digit is dropped. */
  function HexDecode(s: string): (b: seq<Byte>)
    ensures |b| <= |s| / 2
  {
    if |s| < 2 then []
    else
      match (HexValue(s[0]), HexValue(s[1]))
      case (Some(hi), Some(lo)) =>
        if hi < 16 && lo < 16 then [hi * 16 + lo] + HexDecode(s[2..]) else []
      case _ => []
  }

  lemma HexValueOfHexChar(n: nat)
    requires n < 16
    ensures HexValue(HexChars[n]) == Some(n)
  {
  }

  /** Decoding the lowercase hex of some bytes gives those bytes back. */
  lemma {:induction false} HexRoundTrip(bytes: seq<Byte>)
    ensures HexDecode(HexLower(bytes)) == bytes
  {
    if bytes != [] {
      DecodeFirstByte(bytes);
      HexRoundTrip(bytes[1..]);
      assert [bytes[0]] + bytes[1..] == bytes;
    }
  }

  /** The first two digits of the hex spelling decode to the first byte. */
  lemma DecodeFirstByte(bytes: seq<Byte>)
    requires bytes != []
    ensures HexDecode(HexLower(bytes)) == [bytes[0]] + HexDecode(HexLower(bytes[1..]))
  {
    var b, h, t := bytes[0], HexLower(bytes), HexLower(bytes[1..]);
    var hi, lo := b / 16, b % 16;
    DivMod(b, 16);
    assert hi * 16 + lo == b;
    HexLowerHead(bytes);
    HexValueOfHexChar(hi);
    HexValueOfHexChar(lo);
    HexDecodePair(h, hi, lo);
    assert HexDecode(h) == [b] + HexDecode(h[2..]);
    assert h[2..] == t;
  }

  /** The hex spelling starts with the two digits of the first byte. */
  lemma HexLowerHead(bytes: seq<Byte>)
    requires bytes != []
    ensures |HexLower(bytes)| >= 2
    ensures HexLower(bytes)[0] == HexChars[bytes[0] / 16]
    ensures HexLower(bytes)[1] == HexChars[bytes[0] % 16]
    ensures HexLower(bytes)[2..] == HexLower(bytes[1..])
  {
  }

  /** Two hex digits at the front decode to one byte. */
  lemma HexDecodePair(h: string, hi: nat, lo: nat)
    requires |h| >= 2 && hi < 16 && lo < 16
    requires HexValue(h[0]) == Some(hi) && HexValue(h[1]) == Some(lo)
    ensures HexDecode(h) == [hi * 16 + lo] + HexDecode(h[2..])
  {
  }

  /** `generateScryptHash(input)` with the salt drawn beforehand: the version, the salt and the
      hex of the derived key, separated by colons. */
  function GenerateScryptHash(input: string, salt: string, kdf: Kdf): (h: string)
    requires IsSalt(salt)
    ensures Split(h, ':') == [Version, salt, HexLower(kdf(input, salt))]
    ensures |HexLower(kdf(input, salt))| == 2 * KeyLength
  {
    var hex := HexLower(kdf(input, salt));
    var parts := [Version, salt, hex];
    assert ':' !in salt && ':' !in hex;
    assert parts[1..][1..] == [hex];
    SplitJoin(parts, ':');
    Join(parts, ':')
  }

  /** `verifyScryptHash(input, hashedInput)`: the stored string is split on ":", a version other
      than "v1" throws, the key is re-derived with the stored salt and compared with the stored
      hash. A missing salt or hash field, or a stored hash that does not decode to KeyLength
      bytes, makes scrypt, `Buffer.from` or `timingSafeEqual` throw. */
  function VerifyScryptHash(input: string, hashed: string, kdf: Kdf): (r: Result<bool>)
    ensures Split(hashed, ':')[0] != Version ==> r.Thrown?
    ensures !r.Fail?
    ensures r.Ok? <==> |Split(hashed, ':')| >= 3 && Split(hashed, ':')[0] == Version
                       && |HexDecode(Split(hashed, ':')[2])| == KeyLength
    ensures r.Ok? ==> r.value == (HexDecode(Split(hashed, ':')[2]) == kdf(input, Split(hashed, ':')[1]))
  {
    var parts := Split(hashed, ':');
    var version := parts[0];
    if version != Version then Thrown("Invalid hash version: " + version + ". Input: " + hashed)
    else if |parts| < 2 then Thrown("The salt argument must be a string")
    else
      var derived := kdf(input, parts[1]);
      if |parts| < 3 then Thrown("The hash argument must be a string")
      else
        var stored := HexDecode(parts[2]);
        HexRoundTrip(derived);
        if |stored| != KeyLength then Thrown("Input buffers must have the same byte length")
        else Ok(HexDecode(HexLower(derived)) == stored)
  }

  /** Verifying a password against a generated hash compares the keys the two passwords derive
      with the stored salt. */
  lemma VerifyGenerated(password: string, candidate: string, salt: string, kdf: Kdf)
    requires IsSalt(salt)
    ensures VerifyScryptHash(candidate, GenerateScryptHash(password, salt, kdf), kdf)
         == Ok(kdf(candidate, salt) == kdf(password, salt))
  {
    var key := kdf(password, salt);
    HexRoundTrip(key);
  }

  /** In particular the password a hash was generated from verifies against it. */
  lemma VerifyOwnHash(password: string, salt: string, kdf: Kdf)
    requires IsSalt(salt)
    ensures VerifyScryptHash(password, GenerateScryptHash(password, salt, kdf), kdf) == Ok(true)
  {
    VerifyGenerated(password, password, salt, kdf);
  }
}
