/**
 * The auth service's stored user (AuthService/Model/User.cs): password
 * setting and validation through an encryptor, and its claim list.
 *
 * The IEncryptor implementation is not part of this model: it is a value
 * holding its two functions. Password, Salt and Claims are None while null,
 * as they are on a new User.
 */
module User {
  import opened Wrappers
  import opened UserClaims

  /** IEncryptor: GetSalt(password) and GetHash(password, salt), where the salt may be null. */
  datatype Encryptor = Encryptor(getSalt: string -> string, getHash: (string, Option<string>) -> string)

  /** ValidatePassword's answer for the stored hash and salt; a null stored hash throws. */
  function Validation(storedHash: Option<string>, storedSalt: Option<string>, encryptor: Encryptor, password: string): Result<bool>
  {
    if storedHash.None? then Thrown("NullReferenceException")
    else Ok(storedHash.value == encryptor.getHash(password, storedSalt))
  }

  /**
   * The password just set validates, and another password validates exactly
   * when the encryptor gives it the same hash under the stored salt.
   */
  lemma SetPasswordThenValidate(encryptor: Encryptor, password: string, attempt: string)
    ensures var salt := Some(encryptor.getSalt(password));
      && Validation(Some(encryptor.getHash(password, salt)), salt, encryptor, password) == Ok(true)
      && (Validation(Some(encryptor.getHash(password, salt)), salt, encryptor, attempt) == Ok(true)
          <==> encryptor.getHash(attempt, salt) == encryptor.getHash(password, salt))
  {
  }

  class User {
    var id: string
    var email: string
    var password: Option<string>
    var salt: Option<string>
    var claims: Option<seq<UserClaim>>
    var isAdmin: bool
    var createdOn: int

    /** A new User: every property at its default. */
    constructor ()
      ensures id == "" && email == "" && password.None? && salt.None?
      ensures claims.None? && !isAdmin && createdOn == 0
    {
      id := "";
      email := "";
      password := None;
      salt := None;
      claims := None;
      isAdmin := false;
      createdOn := 0;
    }

    /** SetPassword (lines 19-23): the salt is drawn for the password, then the password hashed with it. */
    method SetPassword(newPassword: string, encryptor: Encryptor)
      modifies this
      ensures salt == Some(encryptor.getSalt(newPassword))
      ensures password == Some(encryptor.getHash(newPassword, salt))
      ensures id == old(id) && email == old(email) && claims == old(claims)
      ensures isAdmin == old(isAdmin) && createdOn == old(createdOn)
    {
      salt := Some(encryptor.getSalt(newPassword));
      password := Some(encryptor.getHash(newPassword, salt));
    }

    /** ValidatePassword (lines 25-29): the stored hash equals the hash of the candidate under the stored salt. */
    method ValidatePassword(candidate: string, encryptor: Encryptor) returns (r: Result<bool>)
      ensures r == Validation(password, salt, encryptor, candidate)
    {
      if password.None? {
        return Thrown("NullReferenceException");
      }
      var isValid := password.value == encryptor.getHash(candidate, salt);
      r := Ok(isValid);
    }

    /** AddClaim (lines 31-39): a null claim throws; otherwise the claim is appended. */
    method AddClaim(claim: Option<UserClaim>) returns (outcome: Outcome)
      modifies this
      ensures claim.None? ==> outcome == Fault("ArgumentNullException") && claims == old(claims)
      ensures claim.Some? && old(claims).None? ==> outcome == Fault("NullReferenceException") && claims == old(claims)
      ensures claim.Some? && old(claims).Some? ==> outcome == Done && claims == Some(old(claims).value + [claim.value])
      ensures id == old(id) && email == old(email) && password == old(password) && salt == old(salt)
      ensures isAdmin == old(isAdmin) && createdOn == old(createdOn)
    {
      if claim.None? {
        return Fault("ArgumentNullException");
      }
      if claims.None? {
        return Fault("NullReferenceException");
      }
      claims := Some(claims.value + [claim.value]);
      outcome := Done;
    }

    /** RemoveClaim (lines 41-54): every claim matching Type and Value is removed, the others kept in order. */
    method RemoveClaim(claim: Option<UserClaim>) returns (outcome: Outcome)
      modifies this
      ensures (claim.None? || old(claims).None?) ==> outcome == Fault("ArgumentNullException") && claims == old(claims)
      ensures claim.Some? && old(claims).Some? ==>
        outcome == Done && claims == Some(WithoutClaim(old(claims).value, claim.value))
      ensures id == old(id) && email == old(email) && password == old(password) && salt == old(salt)
      ensures isAdmin == old(isAdmin) && createdOn == old(createdOn)
    {
      if claim.None? || claims.None? {
        return Fault("ArgumentNullException");
      }
      var c := claim.value;
      var items := Matching(claims.value, c);
      for k := 0 to |items|
        invariant claims.Some?
        invariant WithoutClaim(claims.value, c) == WithoutClaim(old(claims).value, c)
        invariant |Matching(claims.value, c)| == |items| - k
        invariant id == old(id) && email == old(email) && password == old(password) && salt == old(salt)
        invariant isAdmin == old(isAdmin) && createdOn == old(createdOn)
      {
        assert items[k] in items;
        MatchingPresent(claims.value, items[k], c);
        RemoveMatchingStep(claims.value, items[k], c);
        claims := Some(RemoveFirst(claims.value, items[k]));
      }
      NoMatchKeepsAll(claims.value, c);
      outcome := Done;
    }
  }
}
