/**
 * URL-safe obfuscation of listing ids (ApiGateway/Auth/IdCryptoProvider.cs).
 *
 * Encrypt salts the id with a random prefix whose length is a prime
 * derived from the id, swaps the halves of the salted id, writes the salt
 * length and the marker "eyJ" in front, reverses the whole and encodes it
 * as URL-safe Base64 without padding. Decrypt undoes each step and yields
 * None (the source's null) on any malformed input.
 *
 * The random number generators become parameters: `prefixSize` is the
 * value Random.Next(1, max) returned, and the salts are built from byte
 * streams `prefixRandom` and `saltRandom`.
 */
module IdCryptoProvider {
  import opened Wrappers
  import opened NetStrings
  import opened StringExtentions

  // ---------------------------------------------------------------------------
  // Primes (lines 132-159)

  /** A prime: at least 2 and without a divisor strictly between 1 and itself. */
  predicate IsPrimeNumber(n: int)
  {
    n >= 2 && forall d :: 2 <= d < n ==> n % d != 0
  }

  lemma MulMonotone(a: int, b: int, c: int)
    requires a <= b && c >= 0
    ensures a * c <= b * c
  {
  }

  /** Euclidean division is unique. */
  lemma ModUnique(x: int, q: int, k: int, r: int)
    requires q > 0 && x == q * k + r && 0 <= r < q
    ensures x % q == r
  {
    var k' := x / q;
    var r' := x % q;
    assert q * (k - k') == r' - r;
    if k - k' >= 1 {
      MulMonotone(1, k - k', q);
    } else if k - k' <= -1 {
      MulMonotone(k - k', -1, q);
    }
  }

  /** A number with a proper divisor has one whose square is at most the number. */
  lemma SmallDivisor(n: int, d: int) returns (e: int)
    requires 2 <= d < n && n % d == 0
    ensures 2 <= e && e * e <= n && n % e == 0
  {
    var q := n / d;
    assert n == d * q;
    if d * d <= n {
      e := d;
    } else {
      if q <= 1 {
        MulMonotone(q, 1, d);
      }
      if q >= d {
        MulMonotone(d, q, d);
      }
      MulMonotone(q, d, q);
      ModUnique(n, q, d, 0);
      e := q;
    }
  }

  /** Isprime: trial division by every divisor whose square is at most the candidate. */
  method IsPrime(candidate: int) returns (prime: bool)
    ensures prime <==> IsPrimeNumber(candidate)
  {
    if candidate < 2 {
      return false;
    }
    var divisor := 2;
    while divisor * divisor <= candidate
      invariant 2 <= divisor
      invariant forall d :: 2 <= d < divisor ==> candidate % d != 0
      decreases candidate - divisor
    {
      MulMonotone(2, divisor, divisor);
      if candidate % divisor == 0 {
        return false;
      }
      divisor := divisor + 1;
    }
    forall d | 2 <= d < candidate
      ensures candidate % d != 0
    {
      if candidate % d == 0 {
        var e := SmallDivisor(candidate, d);
        if e >= divisor {
          MulMonotone(divisor, e, e);
          MulMonotone(divisor, e, divisor);
        }
      }
    }
    return true;
  }

  /**
   * PrimeOfOurHash: the largest prime not above `length`, found by counting
   * down; 1 when there is none; an InvalidOperationException when `length`
   * is not positive.
   */
  method PrimeOfOurHash(length: int) returns (r: Result<int>)
    ensures length <= 0 <==> r.Thrown?
    ensures length <= 0 ==> r == Thrown("InvalidOperationException")
    ensures length == 1 ==> r == Ok(1)
    ensures length >= 2 ==>
      && r.Ok? && r.value <= length && IsPrimeNumber(r.value)
      && forall q :: r.value < q <= length ==> !IsPrimeNumber(q)
  {
    if length <= 0 {
      return Thrown("InvalidOperationException");
    }
    var i := length;
    while i > 0
      invariant 0 <= i <= length
      invariant forall q :: i < q <= length ==> !IsPrimeNumber(q)
    {
      var prime := IsPrime(i);
      if prime {
        return Ok(i);
      }
      i := i - 1;
    }
    assert IsPrimeNumber(2) ==> length < 2;
    return Ok(length);
  }

  // ---------------------------------------------------------------------------
  // Salt (lines 114-130)

  const SaltChars: string := "abcdefghijklmnopqrstuvwxyzABCDEFGHIJKLMNOPQRSTUVWXYZ1234567890"

  /** CreateSalt: one character of SaltChars per random byte, chosen by the byte modulo 62. */
  method CreateSalt(maxSize: nat, random: nat -> byte) returns (salt: string)
    ensures |salt| == maxSize
    ensures forall i :: 0 <= i < maxSize ==> salt[i] == SaltChars[random(i) % |SaltChars|]
    ensures forall i :: 0 <= i < maxSize ==> salt[i] in SaltChars
  {
    var data := seq(maxSize, i requires 0 <= i => random(i));
    salt := "";
    for k := 0 to maxSize
      invariant |salt| == k
      invariant forall i :: 0 <= i < k ==> salt[i] == SaltChars[data[i] % |SaltChars|]
    {
      salt := salt + [SaltChars[data[k] % |SaltChars|]];
    }
  }

  // ---------------------------------------------------------------------------
  // The encrypted form

  /** The marker between the salt length and the salted id. */
  const Marker: string := "eyJ"

  /** The text Encrypt reverses and encodes: salt length, marker, then the salted id with its halves swapped. */
  function IdCode(saltLength: nat, code: string): string
    requires !IsBlank(code)
  {
    var h := SplitInHalf(code, false).value;
    NatToString(saltLength) + Marker + (h.second + h.first)
  }

  /** Line 109: the padding dropped, then '+' and '/' replaced by '-' and '_'. */
  function UrlSafe(t: string): (u: string)
    ensures forall i :: 0 <= i < |u| ==> u[i] != '+' && u[i] != '/'
  {
    ReplaceChar(ReplaceChar(TrimEndChar(t, '='), '+', '-'), '/', '_')
  }

  /** Lines 28-40: '-' and '_' mapped back and the padding restored from the length modulo 4. */
  function RestoreBase64(encryptedId: string): (t: string)
    ensures |encryptedId| <= |t| <= |encryptedId| + 2
    ensures |encryptedId| % 4 != 1 ==> |t| % 4 == 0
    ensures forall i :: 0 <= i < |encryptedId| ==> t[i] != '-' && t[i] != '_'
    ensures forall i :: |encryptedId| <= i < |t| ==> t[i] == '='
  {
    var encodedId := ReplaceChar(ReplaceChar(encryptedId, '_', '/'), '-', '+');
    var paddingLength := |encryptedId| % 4;
    if paddingLength == 2 then encodedId + "=="
    else if paddingLength == 3 then encodedId + "="
    else encodedId
  }

  /** RestoreBase64 undoes UrlSafe on padded Base64 text. */
  lemma RestoreUrlSafe(t: string)
    requires IsPaddedBase64(t)
    ensures RestoreBase64(UrlSafe(t)) == t
  {
    var body := TrimEndChar(t, '=');
    var u := UrlSafe(t);
    assert ReplaceChar(ReplaceChar(u, '_', '/'), '-', '+') == body;
    var pad := |t| - |body|;
    if pad == 1 {
      assert t == body + "=";
    } else if pad == 2 {
      assert t == body + "==";
    }
  }

  /** The text before the first marker: the first element of Split(new[] { "eyJ" }, StringSplitOptions.None). */
  function BeforeMarker(s: string): (r: string)
    ensures StartsWith(s, r)
  {
    match IndexOf(s, Marker)
    case Some(k) => s[..k]
    case None => s
  }

  /**
   * Lines 46-69, on the decoded and reversed text: parse the salt length
   * before the marker, swap the halves back (the first half is the longer
   * one when the length is odd) and drop the salt. A blank remainder makes
   * SplitInHalf return null and the code throw, a negative salt length makes
   * Substring throw; the catch-all turns both into None.
   */
  function DecodeIdCode(decoded: string): Option<string>
  {
    match TryParseInt32(BeforeMarker(decoded))
    case None => None
    case Some(saltLength) =>
      match IndexOf(decoded, Marker)
      case None => None
      case Some(k) =>
        if |decoded| > k + 3 then
          var rest := decoded[k + 3..];
          match SplitInHalf(rest, |rest| % 2 != 0)
          case None => None
          case Some(h) =>
            var code := h.second + h.first;
            if |code| > saltLength then (if saltLength < 0 then None else Some(code[saltLength..]))
            else None
        else None
  }

  /** Decrypt (lines 22-75): None for blank input and for anything that does not decode. */
  function Decrypt(codec: Base64Codec, encryptedId: string): (id: Option<string>)
    ensures IsBlank(encryptedId) ==> id.None?
  {
    if IsBlank(encryptedId) then None
    else match codec.decode(RestoreBase64(encryptedId))
      case None => None
      case Some(decoded) => DecodeIdCode(Reversed(decoded))
  }

  /** Appending to a string that is not blank keeps it so. */
  lemma NotBlankAfter(a: string, b: string)
    requires !IsBlank(b)
    ensures !IsBlank(a + b) && !IsBlank(b + a)
  {
    var j :| 0 <= j < |b| && !IsWhiteSpace(b[j]);
    assert (a + b)[|a| + j] == b[j];
    assert (b + a)[j] == b[j];
  }

  /** The salt length in front of the marker is found again, and parsed back. */
  lemma MarkerFound(saltLength: nat, rest: string)
    requires saltLength <= Int32Max
    ensures IndexOf(NatToString(saltLength) + Marker + rest, Marker) == Some(|NatToString(saltLength)|)
    ensures TryParseInt32(BeforeMarker(NatToString(saltLength) + Marker + rest)) == Some(saltLength)
  {
    var prefix := NatToString(saltLength);
    assert Marker[0] !in prefix;
    IndexOfAfterPrefix(prefix, Marker, rest);
    assert (prefix + Marker + rest)[..|prefix|] == prefix;
    TryParseNatToString(saltLength);
  }

  /** Decrypt's split of the swapped halves, the first half longer when the length is odd, gives the two halves back. */
  lemma SwapBack(code: string)
    requires !IsBlank(code)
    ensures var h := SplitInHalf(code, false).value;
      && !IsBlank(h.second + h.first)
      && SplitInHalf(h.second + h.first, |code| % 2 != 0) == Some(Halves(h.second, h.first))
  {
    var h := SplitInHalf(code, false).value;
    var j :| 0 <= j < |code| && !IsWhiteSpace(code[j]);
    if j < |h.first| {
      assert (h.second + h.first)[|h.second| + j] == code[j];
    } else {
      assert (h.second + h.first)[j - |h.first|] == code[j];
    }
  }

  /** DecodeIdCode recovers the id from IdCode whatever the salt, as long as the salt length fits an int. */
  lemma DecodeIdCodeRoundTrip(salt: string, id: string)
    requires !IsBlank(id) && |salt| <= Int32Max
    ensures !IsBlank(salt + id)
    ensures DecodeIdCode(IdCode(|salt|, salt + id)) == Some(id)
  {
    var code := salt + id;
    NotBlankAfter(salt, id);
    var h := SplitInHalf(code, false).value;
    var prefix := NatToString(|salt|);
    var rest := h.second + h.first;
    var d := IdCode(|salt|, code);
    MarkerFound(|salt|, rest);
    assert d[|prefix| + 3..] == rest;
    SwapBack(code);
    assert code[|salt|..] == id;
  }

  // ---------------------------------------------------------------------------
  // Encrypt (lines 82-112)

  /** The exclusive upper bound of the random prefix size. */
  function MaxIdPrefixSize(id: string): int
  {
    if |id| >= 32 then |id| + 1 else 32
  }

  /**
   * Ids below this length keep every intermediate length within the range
   * of an int, as .NET string lengths always are.
   */
  const MaxRoundTripIdLength: int := 0x0400_0000

  /** Base64 text is never white space. */
  lemma UrlSafeNotBlank(t: string)
    requires IsPaddedBase64(t) && t != []
    ensures !IsBlank(UrlSafe(t))
  {
    var body := TrimEndChar(t, '=');
    assert IsBase64Char(body[0]);
    assert !IsWhiteSpace(UrlSafe(t)[0]);
  }

  method Encrypt(
    codec: Base64Codec,
    id: string,
    prefixSize: int,
    prefixRandom: nat -> byte,
    saltRandom: nat -> byte)
    returns (r: Result<string>)
    requires !IsBlank(id) ==> 1 <= prefixSize < MaxIdPrefixSize(id)
    ensures IsBlank(id) ==> r == Thrown("ArgumentNullException")
    ensures ValidCodec(codec) && !IsBlank(id) ==> r.Ok?
    ensures ValidCodec(codec) && r.Ok? ==>
      forall i :: 0 <= i < |r.value| ==> r.value[i] != '+' && r.value[i] != '/' && r.value[i] != '='
    ensures ValidCodec(codec) && r.Ok? && |id| < MaxRoundTripIdLength && InBasicPlane(id) ==>
      Decrypt(codec, r.value) == Some(id)
  {
    if IsBlank(id) {
      return Thrown("ArgumentNullException");
    }
    var idPrefix := CreateSalt(prefixSize, prefixRandom);
    var idFirstCode := codec.encode(idPrefix + id);
    var primeResult := PrimeOfOurHash(|idFirstCode|);
    if primeResult.Thrown? {
      return Thrown(primeResult.exception);
    }
    var primeOfOurHash := primeResult.value;
    var salt := CreateSalt(primeOfOurHash, saltRandom);
    var code := salt + id;
    NotBlankAfter(salt, id);
    var idCode := IdCode(|salt|, code);
    var reversed := Reverse(idCode);
    var encoded := codec.encode(reversed);
    var result := UrlSafe(encoded);
    if ValidCodec(codec) {
      var body := TrimEndChar(encoded, '=');
      assert forall i :: 0 <= i < |result| ==> result[i] != '=' by {
        assert forall i :: 0 <= i < |body| ==> IsBase64Char(body[i]);
      }
      if |id| < MaxRoundTripIdLength {
        assert |salt| <= Int32Max by {
          assert |salt| <= |idFirstCode| <= 8 * |idPrefix + id| + 4;
        }
        DecodeIdCodeRoundTrip(salt, id);
        UrlSafeNotBlank(encoded);
        RestoreUrlSafe(encoded);
        ReversedTwice(idCode);
      }
    }
    return Ok(result);
  }
}
