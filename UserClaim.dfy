/**
 * A user's claim (AuthService/Model/UserClaim.cs) and the list operations
 * IdentityUser and User perform on their claims.
 *
 * A claim has only a type and a value, so a claim value equal to another
 * has the same type and value; the source's reference equality in
 * List.Remove is modelled by removing the first equal claim.
 */
module UserClaims {
  datatype UserClaim = UserClaim(claimType: string, value: string)

  /** The Where predicate of RemoveClaim: equal Type and equal Value. */
  predicate Matches(c: UserClaim, claim: UserClaim)
  {
    c.claimType == claim.claimType && c.value == claim.value
  }

  /** Claims.Where(matching).ToList(): the matching claims, in order. */
  function Matching(claims: seq<UserClaim>, claim: UserClaim): (items: seq<UserClaim>)
    ensures |items| <= |claims|
    ensures forall c :: c in items ==> Matches(c, claim)
    ensures forall c :: c in claims && Matches(c, claim) ==> c in items
  {
    if claims == [] then []
    else
      var rest := Matching(claims[..|claims| - 1], claim);
      var last := claims[|claims| - 1];
      assert forall c :: c in claims ==> c in claims[..|claims| - 1] || c == last;
      if Matches(last, claim) then rest + [last] else rest
  }

  /** The claims left after removing every claim that matches, in their order. */
  function WithoutClaim(claims: seq<UserClaim>, claim: UserClaim): (r: seq<UserClaim>)
    ensures forall c :: c in r <==> c in claims && !Matches(c, claim)
    ensures |r| + |Matching(claims, claim)| == |claims|
  {
    if claims == [] then []
    else
      var rest := WithoutClaim(claims[..|claims| - 1], claim);
      var last := claims[|claims| - 1];
      assert forall c :: c in claims ==> c in claims[..|claims| - 1] || c == last;
      if Matches(last, claim) then rest else rest + [last]
  }

  /** List.Remove: the first claim equal to `item` is removed; the list is unchanged without one. */
  function RemoveFirst(claims: seq<UserClaim>, item: UserClaim): (r: seq<UserClaim>)
    ensures item in claims ==> |r| == |claims| - 1
    ensures item !in claims ==> r == claims
  {
    if claims == [] then []
    else if claims[0] == item then claims[1..]
    else [claims[0]] + RemoveFirst(claims[1..], item)
  }

  lemma {:induction false} MatchingCons(c: UserClaim, claims: seq<UserClaim>, claim: UserClaim)
    ensures Matching([c] + claims, claim) == (if Matches(c, claim) then [c] else []) + Matching(claims, claim)
    decreases |claims|
  {
    var s := [c] + claims;
    if claims != [] {
      var init := claims[..|claims| - 1];
      assert s[..|s| - 1] == [c] + init;
      assert s[|s| - 1] == claims[|claims| - 1];
      MatchingCons(c, init, claim);
    } else {
      assert s[..|s| - 1] == [];
    }
  }

  lemma {:induction false} WithoutClaimCons(c: UserClaim, claims: seq<UserClaim>, claim: UserClaim)
    ensures WithoutClaim([c] + claims, claim) == (if Matches(c, claim) then [] else [c]) + WithoutClaim(claims, claim)
    decreases |claims|
  {
    var s := [c] + claims;
    if claims != [] {
      var init := claims[..|claims| - 1];
      assert s[..|s| - 1] == [c] + init;
      var last := claims[|claims| - 1];
      assert s[|s| - 1] == last;
      var head := if Matches(c, claim) then [] else [c];
      WithoutClaimCons(c, init, claim);
      assert WithoutClaim([c] + init, claim) == head + WithoutClaim(init, claim);
      if Matches(last, claim) {
        assert WithoutClaim(s, claim) == WithoutClaim([c] + init, claim);
        assert WithoutClaim(claims, claim) == WithoutClaim(init, claim);
      } else {
        assert WithoutClaim(s, claim) == WithoutClaim([c] + init, claim) + [last];
        assert WithoutClaim(claims, claim) == WithoutClaim(init, claim) + [last];
        assert (head + WithoutClaim(init, claim)) + [last] == head + (WithoutClaim(init, claim) + [last]);
      }
    } else {
      assert s[..|s| - 1] == [];
    }
  }

  /**
   * One step of RemoveClaim's loop: removing a matching claim present in the
   * list leaves the non-matching claims as they were and one fewer match.
   */
  lemma {:induction false} RemoveMatchingStep(claims: seq<UserClaim>, item: UserClaim, claim: UserClaim)
    requires Matches(item, claim) && item in claims
    ensures WithoutClaim(RemoveFirst(claims, item), claim) == WithoutClaim(claims, claim)
    ensures |Matching(RemoveFirst(claims, item), claim)| == |Matching(claims, claim)| - 1
    decreases |claims|
  {
    assert claims == [claims[0]] + claims[1..];
    MatchingCons(claims[0], claims[1..], claim);
    WithoutClaimCons(claims[0], claims[1..], claim);
    if claims[0] != item {
      RemoveMatchingStep(claims[1..], item, claim);
      MatchingCons(claims[0], RemoveFirst(claims[1..], item), claim);
      WithoutClaimCons(claims[0], RemoveFirst(claims[1..], item), claim);
    }
  }

  /** A list with no matching claim is its own WithoutClaim. */
  lemma {:induction false} NoMatchKeepsAll(claims: seq<UserClaim>, claim: UserClaim)
    requires Matching(claims, claim) == []
    ensures WithoutClaim(claims, claim) == claims
    decreases |claims|
  {
    if claims != [] {
      var init := claims[..|claims| - 1];
      var last := claims[|claims| - 1];
      assert last in claims;
      assert !Matches(last, claim);
      NoMatchKeepsAll(init, claim);
      assert init + [last] == claims;
    }
  }

  /** Since a claim is its type and value, each matching claim is the claim itself, so it is in the list while some match remains. */
  lemma MatchingPresent(claims: seq<UserClaim>, item: UserClaim, claim: UserClaim)
    requires Matches(item, claim) && |Matching(claims, claim)| > 0
    ensures item in claims
  {
    var c := Matching(claims, claim)[0];
    assert c in Matching(claims, claim);
    assert c == item;
    MatchingFromClaims(claims, claim);
  }

  lemma {:induction false} MatchingFromClaims(claims: seq<UserClaim>, claim: UserClaim)
    ensures forall c :: c in Matching(claims, claim) ==> c in claims
    decreases |claims|
  {
    if claims != [] {
      MatchingFromClaims(claims[..|claims| - 1], claim);
    }
  }

  /** Removing a claim right after adding it leaves exactly the claims that did not match it. */
  lemma {:induction false} RemoveAfterAdd(claims: seq<UserClaim>, claim: UserClaim)
    ensures WithoutClaim(claims + [claim], claim) == WithoutClaim(claims, claim)
  {
    assert (claims + [claim])[..|claims|] == claims;
  }
}
