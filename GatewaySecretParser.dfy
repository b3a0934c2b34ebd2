/**
 * The client secret parser of the gateway's token endpoint
 * (ApiGateway/Extentions/Authorization/GatewaySecretParser.cs).
 *
 * The HTTP context becomes the value of the Authorization header (None
 * when absent), and Convert.FromBase64String followed by UTF-8 decoding is
 * the `decode` of a Base64Codec. An escaping exception is `Thrown`, a null
 * result `Ok(None)`.
 */
module GatewaySecretParser {
  import opened Wrappers
  import opened NetStrings
  import opened StringExtentions

  datatype ParsedSecret = ParsedSecret(id: string, credential: string, secretType: string)

  /** The secret for a user name without a password: a token request. */
  function TokenSecret(username: string): ParsedSecret
  {
    ParsedSecret(username, "token", "token")
  }

  /**
   * Lines 33-64, on the decoded "user:password:..." text. The user name is
   * the first part only when there are at least two parts, the password the
   * second part only when there are at least three.
   */
  function SecretOf(usernamePassword: string): (r: Option<ParsedSecret>)
    ensures r.Some? ==> r.value.id != "" && ':' !in r.value.id
    ensures r.Some? ==> r.value == TokenSecret(r.value.id)
                        || (r.value.secretType == "Basic" && r.value.credential != "" && ':' !in r.value.credential)
  {
    var parts := Split(usernamePassword, ':');
    SplitPartsHaveNoSeparator(usernamePassword, ':');
    var username := if |parts| > 1 then parts[0] else "";
    var password := if |parts| > 2 then parts[1] else "";
    if username == "" then None
    else if password == "" then Some(TokenSecret(username))
    else Some(ParsedSecret(username, password, "Basic"))
  }

  /** ParseAsync (lines 22-70). */
  function ParseSecret(codec: Base64Codec, authHeader: Option<string>): (r: Result<Option<ParsedSecret>>)
    ensures authHeader.None? || !StartsWith(authHeader.value, "Basic") ==> r == Ok(None)
    ensures r.Ok? && r.value.Some? ==> authHeader.Some? && StartsWith(authHeader.value, "Basic")
    ensures r.Thrown? ==> authHeader.Some? && StartsWith(authHeader.value, "Basic")
    ensures r.Thrown? ==> r.exception == "ArgumentOutOfRangeException" || r.exception == "FormatException"
  {
    if authHeader.None? || !StartsWith(authHeader.value, "Basic") then Ok(None)
    else
      var header := Trim(Split(authHeader.value, ',')[0]);
      if |header| < |"Basic "| then Thrown("ArgumentOutOfRangeException")
      else match codec.decode(Trim(header[|"Basic "|..]))
        case None => Thrown("FormatException")
        case Some(usernamePassword) => Ok(SecretOf(usernamePassword))
  }

  /** Only the text before the first ',' of the header is read. */
  lemma {:induction false} OnlyFirstCommaPart(codec: Base64Codec, header: string, more: string)
    requires ',' !in header
    ensures ParseSecret(codec, Some(header + "," + more)) == ParseSecret(codec, Some(header))
  {
    SplitAtFirst(header, ',', more);
    SplitWithoutSeparator(header, ',');
    if StartsWith(header, "Basic") {
      assert StartsWith(header + "," + more, "Basic") by {
        assert (header + "," + more)[..5] == header[..5];
      }
    } else if |header| >= 5 {
      assert (header + "," + more)[..5] == header[..5];
    } else {
      assert !StartsWith(header + "," + more, "Basic") by {
        assert (header + "," + more)[|header|] == ',';
      }
    }
  }

  /** "user:password:..." with a non-empty password gives Basic credentials, an empty one a token request. */
  lemma UserAndPassword(username: string, password: string, rest: string)
    requires username != "" && ':' !in username && ':' !in password
    ensures SecretOf(username + ":" + password + ":" + rest) ==
      Some(if password == "" then TokenSecret(username) else ParsedSecret(username, password, "Basic"))
  {
    assert username + ":" + password + ":" + rest == username + [':'] + (password + [':'] + rest);
    SplitAtFirst(username, ':', password + [':'] + rest);
    SplitAtFirst(password, ':', rest);
  }

  /** "user:password" has only two parts, so the password is ignored and a token request results. */
  lemma UserAndPasswordWithoutTrailingColon(username: string, password: string)
    requires username != "" && ':' !in username && ':' !in password
    ensures SecretOf(username + ":" + password) == Some(TokenSecret(username))
  {
    SplitAtFirst(username, ':', password);
    SplitWithoutSeparator(password, ':');
  }

  /** Without a ':' there is no user name, and so no secret. */
  lemma NoColonNoSecret(usernamePassword: string)
    requires ':' !in usernamePassword
    ensures SecretOf(usernamePassword) == None
  {
    SplitWithoutSeparator(usernamePassword, ':');
  }

  /** An empty user name gives no secret. */
  lemma EmptyUserNoSecret(rest: string)
    ensures SecretOf(":" + rest) == None
  {
    SplitAtFirst("", ':', rest);
  }

  /** Base64 text holds only the alphabet and '='. */
  lemma PaddedBase64Chars(t: string)
    requires IsPaddedBase64(t)
    ensures forall i :: 0 <= i < |t| ==> IsBase64Char(t[i]) || t[i] == '='
  {
    var body := TrimEndChar(t, '=');
    forall i | 0 <= i < |t| ensures IsBase64Char(t[i]) || t[i] == '=' {
      if i < |body| {
        assert t[i] == body[i];
      }
    }
  }

  /** In a header "Basic " + credentials, with no ',' and no white space at either end, the credentials are what follows "Basic ". */
  lemma BasicHeaderText(encoded: string)
    requires encoded != [] && !IsWhiteSpace(encoded[0]) && !IsWhiteSpace(encoded[|encoded| - 1]) && ',' !in encoded
    ensures var header := "Basic " + encoded;
      && StartsWith(header, "Basic")
      && Trim(Split(header, ',')[0]) == header
      && |header| >= |"Basic "|
      && Trim(header[|"Basic "|..]) == encoded
  {
    var header := "Basic " + encoded;
    assert ',' !in header by {
      forall i | 0 <= i < |header| ensures header[i] != ',' {
        if i >= 6 {
          assert header[i] == encoded[i - 6];
        }
      }
    }
    SplitWithoutSeparator(header, ',');
    assert header[..5] == "Basic";
    TrimTrailingBlank(header, []);
    assert header + [] == header;
    assert header[|"Basic "|..] == encoded;
    TrimTrailingBlank(encoded, []);
    assert encoded + [] == encoded;
  }

  /** Such a header decodes exactly the credentials: FormatException when they are not Base64 of text. */
  lemma BasicCredentials(codec: Base64Codec, encoded: string)
    requires encoded != [] && !IsWhiteSpace(encoded[0]) && !IsWhiteSpace(encoded[|encoded| - 1]) && ',' !in encoded
    ensures ParseSecret(codec, Some("Basic " + encoded)) ==
      match codec.decode(encoded)
      case None => Thrown("FormatException")
      case Some(usernamePassword) => Ok(SecretOf(usernamePassword))
  {
    BasicHeaderText(encoded);
    var header := "Basic " + encoded;
    match codec.decode(encoded)
    case None =>
      assert ParseSecret(codec, Some(header)) == Thrown("FormatException");
    case Some(usernamePassword) =>
      assert ParseSecret(codec, Some(header)) == Ok(SecretOf(usernamePassword));
  }

  /** "Basic " and the Base64 of "user:password:" yields that user's secret. */
  lemma WellFormedBasicHeader(codec: Base64Codec, username: string, password: string)
    requires ValidCodec(codec) && username != "" && ':' !in username && ':' !in password
    ensures ParseSecret(codec, Some("Basic " + codec.encode(username + ":" + password + ":"))) ==
      Ok(Some(if password == "" then TokenSecret(username) else ParsedSecret(username, password, "Basic")))
  {
    var text := username + ":" + password + ":";
    var encoded := codec.encode(text);
    PaddedBase64Chars(encoded);
    assert encoded != [];
    BasicCredentials(codec, encoded);
    UserAndPassword(username, password, "");
    assert text + "" == text;
  }

  /** "Basic" followed by nothing but white space has no credentials: Substring throws. */
  lemma BasicWithoutCredentialsThrows(codec: Base64Codec, blank: string)
    requires IsBlank(blank)
    ensures ParseSecret(codec, Some("Basic" + blank)) == Thrown("ArgumentOutOfRangeException")
  {
    var header := "Basic" + blank;
    assert ',' !in header by {
      assert forall i :: 5 <= i < |header| ==> header[i] == blank[i - 5];
    }
    SplitWithoutSeparator(header, ',');
    assert header[..5] == "Basic";
    TrimTrailingBlank("Basic", blank);
  }

  /** A credential part that is not Base64 of text: Convert.FromBase64String throws. */
  lemma UndecodableThrows(codec: Base64Codec, encoded: string)
    requires encoded != [] && !IsWhiteSpace(encoded[0]) && !IsWhiteSpace(encoded[|encoded| - 1]) && ',' !in encoded
    requires codec.decode(encoded) == None
    ensures ParseSecret(codec, Some("Basic " + encoded)) == Thrown("FormatException")
  {
    BasicCredentials(codec, encoded);
  }
}
