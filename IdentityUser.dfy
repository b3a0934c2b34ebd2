/**
 * The auth service's user entity (AuthService/Models/IdentityUser.cs): its
 * constructors, claim list and soft delete.
 *
 * The Guid the named constructor draws becomes the `id` parameter and
 * DateTime.Now the `now` parameter (ticks). Claims is None while the list is
 * null, as it is after the parameterless constructor; a null claim argument
 * is None. An exception is a `Fault` and leaves the user unchanged.
 */
module IdentityUser {
  import opened Wrappers
  import opened NetStrings
  import opened UserClaims

  /** Delete's transition on DeletedOn: the outcome and the new DeletedOn. */
  function DeleteTransition(deletedOn: Option<int>, now: int): (Outcome, Option<int>)
  {
    if deletedOn.Some? then (Fault("InvalidOperationException"), deletedOn)
    else (Done, Some(now))
  }

  /** A user is deleted at most once: the second Delete always fails and keeps the first date. */
  lemma SecondDeleteFails(deletedOn: Option<int>, first: int, second: int)
    ensures DeleteTransition(DeleteTransition(deletedOn, first).1, second).0 == Fault("InvalidOperationException")
    ensures DeleteTransition(DeleteTransition(deletedOn, first).1, second).1 == DeleteTransition(deletedOn, first).1
    ensures deletedOn.None? ==> DeleteTransition(deletedOn, first) == (Done, Some(first))
  {
  }

  class IdentityUser {
    var id: string
    var userName: string
    var email: string
    var claims: Option<seq<UserClaim>>
    var createdOn: int
    var deletedOn: Option<int>

    /** The parameterless constructor (lines 10-12): every property keeps its default, Claims is null. */
    constructor ()
      ensures id == "" && userName == "" && email == ""
      ensures claims.None? && createdOn == 0 && deletedOn.None?
    {
      id := "";
      userName := "";
      email := "";
      claims := None;
      createdOn := 0;
      deletedOn := None;
    }

    constructor Named(userName: string, id: string, now: int)
      requires !IsBlank(userName)
      ensures this.userName == userName && this.id == id && createdOn == now
      ensures email == "" && claims == Some([]) && deletedOn.None?
    {
      this.id := id;
      this.userName := userName;
      this.email := "";
      this.claims := Some([]);
      this.createdOn := now;
      this.deletedOn := None;
    }

    /** IdentityUser(userName) (lines 19-31): a blank user name throws, otherwise the user starts with an empty claim list. */
    static method Create(userName: string, id: string, now: int) returns (r: Result<IdentityUser>)
      ensures IsBlank(userName) <==> r == Thrown("ArgumentNullException")
      ensures r.Ok? ==> fresh(r.value)
      ensures r.Ok? ==> r.value.userName == userName && r.value.id == id && r.value.createdOn == now
      ensures r.Ok? ==> r.value.email == "" && r.value.claims == Some([]) && r.value.deletedOn.None?
    {
      if IsBlank(userName) {
        return Thrown("ArgumentNullException");
      }
      var user := new IdentityUser.Named(userName, id, now);
      r := Ok(user);
    }

    /** IdentityUser(userName, email) (lines 14-17): the named constructor, then Email. */
    static method CreateWithEmail(userName: string, email: string, id: string, now: int) returns (r: Result<IdentityUser>)
      ensures IsBlank(userName) <==> r == Thrown("ArgumentNullException")
      ensures r.Ok? ==> fresh(r.value)
      ensures r.Ok? ==> r.value.userName == userName && r.value.email == email && r.value.id == id
      ensures r.Ok? ==> r.value.createdOn == now && r.value.claims == Some([]) && r.value.deletedOn.None?
    {
      r := Create(userName, id, now);
      if r.Ok? {
        r.value.email := email;
      }
    }

    /** AddClaim (lines 43-51): a null claim throws; otherwise the claim is appended. */
    method AddClaim(claim: Option<UserClaim>) returns (outcome: Outcome)
      modifies this
      ensures claim.None? ==> outcome == Fault("ArgumentNullException") && claims == old(claims)
      ensures claim.Some? && old(claims).None? ==> outcome == Fault("NullReferenceException") && claims == old(claims)
      ensures claim.Some? && old(claims).Some? ==> outcome == Done && claims == Some(old(claims).value + [claim.value])
      ensures id == old(id) && userName == old(userName) && email == old(email)
      ensures createdOn == old(createdOn) && deletedOn == old(deletedOn)
    {
      if claim.None? {
        return Fault("ArgumentNullException");
      }
      if claims.None? {
        return Fault("NullReferenceException");
      }
      claims := Some(claims.value + [claim.value]);
      outcome := Done;
    }

    /**
     * RemoveClaim (lines 53-66): a null claim, or a null list (LINQ's Where),
     * throws; otherwise the matching claims are collected and removed one at
     * a time, and the other claims stay in their order.
     */
    method RemoveClaim(claim: Option<UserClaim>) returns (outcome: Outcome)
      modifies this
      ensures (claim.None? || old(claims).None?) ==> outcome == Fault("ArgumentNullException") && claims == old(claims)
      ensures claim.Some? && old(claims).Some? ==>
        outcome == Done && claims == Some(WithoutClaim(old(claims).value, claim.value))
      ensures id == old(id) && userName == old(userName) && email == old(email)
      ensures createdOn == old(createdOn) && deletedOn == old(deletedOn)
    {
      if claim.None? || claims.None? {
        return Fault("ArgumentNullException");
      }
      var c := claim.value;
      var items := Matching(claims.value, c);
      for k := 0 to |items|
        invariant claims.Some?
        invariant WithoutClaim(claims.value, c) == WithoutClaim(old(claims).value, c)
        invariant |Matching(claims.value, c)| == |items| - k
        invariant id == old(id) && userName == old(userName) && email == old(email)
        invariant createdOn == old(createdOn) && deletedOn == old(deletedOn)
      {
        assert items[k] in items;
        MatchingPresent(claims.value, items[k], c);
        RemoveMatchingStep(claims.value, items[k], c);
        claims := Some(RemoveFirst(claims.value, items[k]));
      }
      NoMatchKeepsAll(claims.value, c);
      outcome := Done;
    }

    /** Delete (lines 68-76): a user already deleted throws; otherwise DeletedOn is set to now. */
    method Delete(now: int) returns (outcome: Outcome)
      modifies this
      ensures (outcome, deletedOn) == DeleteTransition(old(deletedOn), now)
      ensures id == old(id) && userName == old(userName) && email == old(email)
      ensures claims == old(claims) && createdOn == old(createdOn)
    {
      if deletedOn.Some? {
        return Fault("InvalidOperationException");
      }
      deletedOn := Some(now);
      outcome := Done;
    }
  }
}
