/**
 * The gateway's password hasher, which accepts the legacy md5 and sha512
 * password hashes before deferring to ASP.NET Identity's own hasher
 * (ApiGateway/Extentions/Authorization/Services/GatewayPasswordHasher.cs).
 *
 * MD5, SHA-512, UTF-8 and Base64 are not part of this model: they are the
 * functions of a `Crypto` value, and the base hasher is the function
 * `baseVerify`. The only thing the code relies on of the digests is that
 * each algorithm's output has a fixed length, which sizes `outputBytes`.
 */
module GatewayPasswordHasher {
  import opened Wrappers
  import opened NetStrings

  datatype PasswordVerificationResult = Failed | Success | SuccessRehashNeeded

  datatype Crypto = Crypto(
    utf8: string -> seq<byte>,
    md5: seq<byte> -> seq<byte>,
    sha512: seq<byte> -> seq<byte>,
    base64: seq<byte> -> string)

  /** MD5 yields 16 bytes and SHA-512 64 bytes, whatever the input. */
  ghost predicate ValidCrypto(crypto: Crypto)
  {
    && (forall b :: |crypto.md5(b)| == 16)
    && (forall b :: |crypto.sha512(b)| == 64)
  }

  // ---------------------------------------------------------------------------
  // The iterated digest (lines 105-116, 144-155)

  /**
   * `iterations` hashes in all: the salted bytes, then each time the last
   * digest followed by the salted bytes. A count below one still hashes once.
   */
  function IteratedDigest(hash: seq<byte> -> seq<byte>, saltedBytes: seq<byte>, iterations: int): seq<byte>
    decreases iterations
  {
    if iterations <= 1 then hash(saltedBytes)
    else hash(IteratedDigest(hash, saltedBytes, iterations - 1) + saltedBytes)
  }

  /** Buffer.BlockCopy of a whole source into `dst` at `offset`. */
  method BlockCopy(src: seq<byte>, dst: array<byte>, offset: nat)
    requires offset + |src| <= dst.Length
    modifies dst
    ensures dst[offset..offset + |src|] == src
    ensures forall i :: 0 <= i < dst.Length && !(offset <= i < offset + |src|) ==> dst[i] == old(dst[i])
  {
    for k := 0 to |src|
      invariant forall i :: offset <= i < offset + k ==> dst[i] == src[i - offset]
      invariant forall i :: 0 <= i < dst.Length && !(offset <= i < offset + k) ==> dst[i] == old(dst[i])
    {
      dst[offset + k] := src[k];
    }
  }

  /** The hashing loop: the digest and the salted bytes are copied into one buffer, which is hashed again. */
  method Digest(hash: seq<byte> -> seq<byte>, digestLength: nat, saltedBytes: seq<byte>, iterations: int)
    returns (digest: seq<byte>)
    requires forall b :: |hash(b)| == digestLength
    ensures digest == IteratedDigest(hash, saltedBytes, iterations)
    ensures |digest| == digestLength
  {
    digest := hash(saltedBytes);
    var outputBytes := new byte[|digest| + |saltedBytes|];
    var iteration := 1;
    while iteration < iterations
      invariant 1 <= iteration
      invariant iteration <= iterations || iteration == 1
      invariant digest == IteratedDigest(hash, saltedBytes, iteration)
      invariant |digest| == digestLength && outputBytes.Length == digestLength + |saltedBytes|
    {
      BlockCopy(digest, outputBytes, 0);
      BlockCopy(saltedBytes, outputBytes, |digest|);
      assert outputBytes[..] == digest + saltedBytes by {
        assert outputBytes[..] == outputBytes[0..|digest|] + outputBytes[|digest|..|digest| + |saltedBytes|];
      }
      digest := hash(outputBytes[..]);
      iteration := iteration + 1;
    }
  }

  // ---------------------------------------------------------------------------
  // Lower-case hexadecimal (lines 118-125)

  /** A lower-case hexadecimal digit, '0'-'9' then 'a'-'f'. */
  function HexDigit(d: nat): (c: char)
    requires d < 16
    ensures IsHexDigit(c)
  {
    if d < 10 then ('0' as int + d) as char else ('a' as int + d - 10) as char
  }

  predicate IsHexDigit(c: char)
  {
    '0' <= c <= '9' || 'a' <= c <= 'f'
  }

  /** b.ToString("x2"). */
  function HexByte(b: byte): string
  {
    [HexDigit(b / 16), HexDigit(b % 16)]
  }

  /** The digest as lower-case hexadecimal, two digits per byte. */
  function HexLower(digest: seq<byte>): (s: string)
    ensures |s| == 2 * |digest|
    ensures forall i :: 0 <= i < |s| ==> IsHexDigit(s[i])
  {
    if digest == [] then "" else HexLower(digest[..|digest| - 1]) + HexByte(digest[|digest| - 1])
  }

  /** The StringBuilder loop appending each byte's two hexadecimal digits. */
  method ToHex(digest: seq<byte>) returns (s: string)
    ensures s == HexLower(digest)
  {
    s := "";
    for k := 0 to |digest|
      invariant s == HexLower(digest[..k])
    {
      assert digest[..k + 1][..k] == digest[..k];
      s := s + HexByte(digest[k]);
    }
    assert digest[..|digest|] == digest;
  }

  function HexValue(c: char): (d: nat)
    ensures d < 16
    ensures forall e :: 0 <= e < 16 && c == HexDigit(e) ==> d == e
  {
    if '0' <= c <= '9' then c as int - '0' as int
    else if 'a' <= c <= 'f' then c as int - 'a' as int + 10
    else 0
  }

  /** The bytes written as hexadecimal digits, two per byte. */
  function ParseHex(s: string): seq<byte>
    requires |s| % 2 == 0
  {
    if s == [] then []
    else
      var v := HexValue(s[|s| - 2]) * 16 + HexValue(s[|s| - 1]);
      ParseHex(s[..|s| - 2]) + [if v < 256 then v else 0]
  }

  /** Hexadecimal encoding loses nothing: the digest is read back from it. */
  lemma {:induction false} ParseHexLower(digest: seq<byte>)
    ensures ParseHex(HexLower(digest)) == digest
  {
    if digest != [] {
      var init := digest[..|digest| - 1];
      var b := digest[|digest| - 1];
      var s := HexLower(digest);
      assert s[..|s| - 2] == HexLower(init);
      ParseHexLower(init);
      assert s[|s| - 2] == HexDigit(b / 16) && s[|s| - 1] == HexDigit(b % 16);
      assert init + [b] == digest;
    }
  }

  /** Two digests have the same hexadecimal form only if they are equal. */
  lemma HexLowerInjective(d1: seq<byte>, d2: seq<byte>)
    requires HexLower(d1) == HexLower(d2)
    ensures d1 == d2
  {
    ParseHexLower(d1);
    ParseHexLower(d2);
  }

  // ---------------------------------------------------------------------------
  // The legacy check (lines 30-167)

  /** The stored hash a legacy algorithm produces for the password and salt; None for an unknown algorithm. */
  function ExpectedLegacyHash(crypto: Crypto, algorithm: string, iterations: int, providedPassword: string, salt: string): Option<string>
  {
    if algorithm == "md5" then
      Some(HexLower(IteratedDigest(crypto.md5, crypto.utf8(providedPassword + salt), iterations)))
    else if algorithm == "sha512" then
      Some(crypto.base64(IteratedDigest(crypto.sha512, crypto.utf8(providedPassword + "{" + salt + "}"), iterations)))
    else None
  }

  /** IsValidSupportedLegacyCredential: the provided password hashes to the stored hash. */
  method IsValidSupportedLegacyCredential(
    crypto: Crypto,
    algorithm: string,
    iterations: int,
    hashedPassword: string,
    providedPassword: string,
    salt: string)
    returns (isValid: bool)
    requires ValidCrypto(crypto)
    ensures isValid <==> ExpectedLegacyHash(crypto, algorithm, iterations, providedPassword, salt) == Some(hashedPassword)
  {
    isValid := false;
    if algorithm == "md5" {
      var passwordSalted := providedPassword + salt;
      var saltedBytes := crypto.utf8(passwordSalted);
      var digest := Digest(crypto.md5, 16, saltedBytes, iterations);
      var result := ToHex(digest);
      isValid := result == hashedPassword;
    } else if algorithm == "sha512" {
      var passwordSalted := providedPassword + "{" + salt + "}";
      var saltedBytes := crypto.utf8(passwordSalted);
      var digest := Digest(crypto.sha512, 64, saltedBytes, iterations);
      var result := crypto.base64(digest);
      isValid := result == hashedPassword;
    }
  }

  /** Where the salt and the hash sit in the stored value: before and after the first '|', or 40 characters and the rest. */
  function LegacyCredentialMatches(crypto: Crypto, hashedPassword: string, providedPassword: string): (valid: bool)
    ensures IsBlank(hashedPassword) || IsBlank(providedPassword) ==> !valid
  {
    if IsBlank(hashedPassword) || IsBlank(providedPassword) then false
    else match IndexOf(hashedPassword, "|")
      case Some(k) =>
        ExpectedLegacyHash(crypto, "md5", 1, providedPassword, hashedPassword[..k]) == Some(hashedPassword[k + 1..])
      case None =>
        |hashedPassword| > 40
        && ExpectedLegacyHash(crypto, "sha512", 512, providedPassword, hashedPassword[..40]) == Some(hashedPassword[40..])
  }

  /** IsValidLegacyCredential. */
  method IsValidLegacyCredential(crypto: Crypto, hashedPassword: string, providedPassword: string) returns (isValid: bool)
    requires ValidCrypto(crypto)
    ensures isValid == LegacyCredentialMatches(crypto, hashedPassword, providedPassword)
  {
    if IsBlank(hashedPassword) || IsBlank(providedPassword) {
      return false;
    }
    var saltDelimiterIndex := IndexOf(hashedPassword, "|");
    if saltDelimiterIndex.Some? {
      var k := saltDelimiterIndex.value;
      isValid := IsValidSupportedLegacyCredential(crypto, "md5", 1, hashedPassword[k + 1..], providedPassword, hashedPassword[..k]);
      return;
    }
    if |hashedPassword| <= 40 {
      return false;
    }
    isValid := IsValidSupportedLegacyCredential(crypto, "sha512", 512, hashedPassword[40..], providedPassword, hashedPassword[..40]);
  }

  /** VerifyHashedPassword (lines 17-28): a valid legacy credential succeeds, anything else goes to the base hasher. */
  method VerifyHashedPassword(
    crypto: Crypto,
    baseVerify: (string, string) -> PasswordVerificationResult,
    hashedPassword: string,
    providedPassword: string)
    returns (result: PasswordVerificationResult)
    requires ValidCrypto(crypto)
    ensures LegacyCredentialMatches(crypto, hashedPassword, providedPassword) ==> result == Success
    ensures !LegacyCredentialMatches(crypto, hashedPassword, providedPassword) ==> result == baseVerify(hashedPassword, providedPassword)
  {
    var legacy := IsValidLegacyCredential(crypto, hashedPassword, providedPassword);
    if legacy {
      return Success;
    }
    result := baseVerify(hashedPassword, providedPassword);
  }

  // ---------------------------------------------------------------------------
  // Properties

  /** A stored value "salt|hash" is checked with md5 over password + salt, hashed exactly once, in lower-case hexadecimal. */
  lemma Md5Branch(crypto: Crypto, salt: string, hash: string, providedPassword: string)
    requires '|' !in salt && !IsBlank(providedPassword)
    ensures LegacyCredentialMatches(crypto, salt + "|" + hash, providedPassword)
      <==> HexLower(crypto.md5(crypto.utf8(providedPassword + salt))) == hash
  {
    var stored := salt + "|" + hash;
    IndexOfAfterPrefix(salt, "|", hash);
    assert stored[|salt|] == '|';
    assert stored[..|salt|] == salt && stored[|salt| + 1..] == hash;
  }

  /** Without '|', a stored value of 40 characters or fewer is never a legacy credential. */
  lemma ShortSha512Rejected(crypto: Crypto, hashedPassword: string, providedPassword: string)
    requires '|' !in hashedPassword && |hashedPassword| <= 40
    ensures !LegacyCredentialMatches(crypto, hashedPassword, providedPassword)
  {
    NoIndexWithoutChar(hashedPassword, '|');
  }

  /** Without '|', the first 40 characters are the salt and the rest the Base64 of 512 rounds of sha512 over password + "{salt}". */
  lemma Sha512Branch(crypto: Crypto, hashedPassword: string, providedPassword: string)
    requires '|' !in hashedPassword && |hashedPassword| > 40 && !IsBlank(hashedPassword) && !IsBlank(providedPassword)
    ensures LegacyCredentialMatches(crypto, hashedPassword, providedPassword) <==>
      crypto.base64(IteratedDigest(crypto.sha512, crypto.utf8(providedPassword + "{" + hashedPassword[..40] + "}"), 512))
        == hashedPassword[40..]
  {
    NoIndexWithoutChar(hashedPassword, '|');
  }

  lemma {:induction false} NoIndexWithoutChar(s: string, c: char)
    requires c !in s
    ensures IndexOf(s, [c]).None?
    decreases |s|
  {
    if s != [] {
      assert s[0] != c;
      assert c !in s[1..];
      NoIndexWithoutChar(s[1..], c);
    }
  }

  /** An unknown algorithm never matches. */
  lemma UnknownAlgorithmRejected(crypto: Crypto, algorithm: string, iterations: int, providedPassword: string, salt: string)
    requires algorithm != "md5" && algorithm != "sha512"
    ensures ExpectedLegacyHash(crypto, algorithm, iterations, providedPassword, salt).None?
  {
  }
}
