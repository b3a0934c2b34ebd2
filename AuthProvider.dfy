/**
 * The gateway's API scope decision (ApiGateway/Auth/AuthProvider.cs).
 *
 * The HTTP context is replaced by what the code reads from it: the user's
 * claims, the "jma-source" request header (None when absent) and the
 * IsAuthenticated flag.
 */
module AuthProvider {
  import opened Wrappers
  import opened NetStrings

  /** ClaimTypes.Role. */
  const RoleClaimType: string := "http://schemas.microsoft.com/ws/2008/06/identity/claims/role"

  datatype Claim = Claim(claimType: string, value: string)

  /** The API being called: its name and the HTTP method of the request. */
  datatype ApiInfo = ApiInfo(name: string, httpMethod: string)

  /** One configured scope; `paths` is None when the configuration leaves Paths null. */
  datatype ApiScope = ApiScope(
    scopeType: string,
    tags: seq<string>,
    scope: string,
    subClaims: seq<string>,
    paths: Option<seq<string>>)

  datatype ApiScopeResult = ApiScopeResult(
    isInScope: bool,
    isModerator: bool,
    scopeToUser: bool,
    allowCreateAccount: bool,
    allowRepeat: bool)

  /** The first-party applications; any other non-blank source is a feed. */
  const KnownApps: seq<string> := ["Accounts", "Admin", "Android", "iOS", "Web"]

  /** `_knownApps.Contains(source)` on a set built with StringComparer.OrdinalIgnoreCase. */
  predicate IsKnownApp(source: string)
  {
    exists i :: 0 <= i < |KnownApps| && EqualsIgnoreCase(KnownApps[i], source)
  }

  /** `isFeed`: the source header is present, not blank and not a known application. */
  predicate IsFeed(source: Option<string>)
  {
    source.Some? && !IsBlank(source.value) && !IsKnownApp(source.value)
  }

  /** Any spelling of a known application that differs only in letter case is recognised. */
  lemma KnownAppsIgnoreCase(source: string, i: int)
    requires 0 <= i < |KnownApps| && Lower(source) == Lower(KnownApps[i])
    ensures IsKnownApp(source) && !IsFeed(Some(source))
  {
    assert EqualsIgnoreCase(KnownApps[i], source);
  }

  /** The known applications in lower case, as OrdinalIgnoreCase compares them. */
  const KnownAppsLower: seq<string> := ["accounts", "admin", "android", "ios", "web"]

  /**
   * A missing or blank source is never a feed; any other source is a feed
   * exactly when, in lower case, it is none of the known applications.
   */
  lemma FeedRule(source: Option<string>)
    ensures source.None? ==> !IsFeed(source)
    ensures source.Some? && IsBlank(source.value) ==> !IsFeed(source)
    ensures source.Some? && !IsBlank(source.value) ==> (IsFeed(source) <==> Lower(source.value) !in KnownAppsLower)
  {
    assert forall i :: 0 <= i < |KnownApps| ==> Lower(KnownApps[i]) == KnownAppsLower[i] by {
      assert Lower(KnownApps[0]) == KnownAppsLower[0];
      assert Lower(KnownApps[1]) == KnownAppsLower[1];
      assert Lower(KnownApps[2]) == KnownAppsLower[2];
      assert Lower(KnownApps[3]) == KnownAppsLower[3];
      assert Lower(KnownApps[4]) == KnownAppsLower[4];
    }
  }

  // ---------------------------------------------------------------------------
  // Roles

  /** The values of the role claims, in claim order. */
  function RoleClaims(claims: seq<Claim>): seq<string>
  {
    if claims == [] then []
    else
      var last := claims[|claims| - 1];
      RoleClaims(claims[..|claims| - 1]) + (if last.claimType == RoleClaimType then [last.value] else [])
  }

  /** The role list of IsApiInScope: "any" followed by every role claim. */
  function Roles(claims: seq<Claim>): seq<string>
  {
    ["any"] + RoleClaims(claims)
  }

  /** A value is among the role claims exactly when some claim of the role type carries it. */
  lemma {:induction false} RoleClaimsMembership(claims: seq<Claim>, role: string)
    ensures role in RoleClaims(claims) <==>
      exists i :: 0 <= i < |claims| && claims[i].claimType == RoleClaimType && claims[i].value == role
  {
    if claims != [] {
      var init := claims[..|claims| - 1];
      RoleClaimsMembership(init, role);
      assert forall i :: 0 <= i < |init| ==> init[i] == claims[i];
    }
  }

  /** Builds the role list claim by claim, as the foreach at lines 48-56 does. */
  method BuildRoles(claims: seq<Claim>) returns (roles: seq<string>)
    ensures roles == Roles(claims)
    ensures roles[0] == "any"
    ensures forall role :: role in roles <==>
      role == "any" || exists i :: 0 <= i < |claims| && claims[i].claimType == RoleClaimType && claims[i].value == role
  {
    roles := ["any"];
    var i := 0;
    while i < |claims|
      invariant 0 <= i <= |claims|
      invariant roles == ["any"] + RoleClaims(claims[..i])
    {
      assert claims[..i + 1][..i] == claims[..i];
      if claims[i].claimType == RoleClaimType {
        roles := roles + [claims[i].value];
      }
      i := i + 1;
    }
    assert claims[..i] == claims;
    forall role
      ensures role in roles <==>
        role == "any" || exists i :: 0 <= i < |claims| && claims[i].claimType == RoleClaimType && claims[i].value == role
    {
      RoleClaimsMembership(claims, role);
    }
  }

  // ---------------------------------------------------------------------------
  // Scope selection

  /** Enumerable.Where: the elements satisfying `p`, in order. */
  function Where<T(!new)>(xs: seq<T>, p: T -> bool): (r: seq<T>)
    ensures |r| <= |xs|
    ensures forall x :: x in r <==> x in xs && p(x)
  {
    if xs == [] then []
    else (if p(xs[0]) then [xs[0]] else []) + Where(xs[1..], p)
  }

  /**
   * The type test of line 77-79. Replace("*", "") removes every asterisk,
   * not only the leading or trailing one.
   */
  predicate TypeMatches(scopeType: string, name: string)
  {
    || scopeType == name
    || (StartsWith(scopeType, "*") && EndsWith(name, RemoveChar(scopeType, '*')))
    || (EndsWith(scopeType, "*") && StartsWith(name, RemoveChar(scopeType, '*')))
  }

  /** Lines 76-80: the type matches and the request method is one of the scope's tags. */
  predicate ScopeMatchesApi(s: ApiScope, info: ApiInfo)
  {
    TypeMatches(s.scopeType, info.name) && info.httpMethod in s.tags
  }

  /** Line 83: one of the scope's sub-claims is among the caller's roles. */
  predicate ScopeMatchesRoles(s: ApiScope, roles: seq<string>)
  {
    exists a :: a in s.subClaims && a in roles
  }

  /** Line 92: one of the scope's paths is a case-insensitive prefix of the request path. */
  predicate ScopeMatchesPath(s: ApiScope, path: string)
  {
    s.paths.Some? && exists p :: p in s.paths.value && StartsWith(Lower(path), Lower(p))
  }

  /** A scope that applies to the API and to the caller. */
  predicate Applicable(s: ApiScope, info: ApiInfo, roles: seq<string>)
  {
    ScopeMatchesApi(s, info) && ScopeMatchesRoles(s, roles)
  }

  /**
   * The scopes left after lines 76-104. Without a path only general scopes
   * (Paths null) apply; with a path, the scopes naming a matching path
   * replace all others, and when there are none the general scopes apply.
   */
  function SelectScopes(scopes: seq<ApiScope>, info: ApiInfo, roles: seq<string>, path: Option<string>): (selected: seq<ApiScope>)
    ensures (path.None? || path.value == "") ==>
      forall s :: s in selected <==> s in scopes && Applicable(s, info, roles) && s.paths.None?
    ensures (&& path.Some? && path.value != ""
             && exists s :: s in scopes && Applicable(s, info, roles) && ScopeMatchesPath(s, path.value)) ==>
      forall s :: s in selected <==> s in scopes && Applicable(s, info, roles) && ScopeMatchesPath(s, path.value)
    ensures (&& path.Some? && path.value != ""
             && !exists s :: s in scopes && Applicable(s, info, roles) && ScopeMatchesPath(s, path.value)) ==>
      forall s :: s in selected <==> s in scopes && Applicable(s, info, roles) && s.paths.None?
  {
    var forRoles := ApplicableScopes(scopes, info, roles);
    if path.None? || path.value == "" then GeneralScopes(forRoles)
    else
      var pathScopes := PathScopes(forRoles, path.value);
      if |pathScopes| > 0 then
        assert pathScopes[0] in pathScopes;
        pathScopes
      else GeneralScopes(forRoles)
  }

  /** Lines 76-83: the scopes for this API and this caller. */
  function ApplicableScopes(scopes: seq<ApiScope>, info: ApiInfo, roles: seq<string>): (r: seq<ApiScope>)
    ensures forall s :: s in r <==> s in scopes && Applicable(s, info, roles)
  {
    var forApi := Where(scopes, s => ScopeMatchesApi(s, info));
    Where(forApi, s => ScopeMatchesRoles(s, roles))
  }

  /** The scopes without Paths. */
  function GeneralScopes(scopes: seq<ApiScope>): (r: seq<ApiScope>)
    ensures forall s :: s in r <==> s in scopes && s.paths.None?
  {
    Where(scopes, (s: ApiScope) => s.paths.None?)
  }

  /** The scopes one of whose Paths is a prefix of the request path. */
  function PathScopes(scopes: seq<ApiScope>, path: string): (r: seq<ApiScope>)
    ensures forall s :: s in r <==> s in scopes && ScopeMatchesPath(s, path)
  {
    Where(scopes, s => ScopeMatchesPath(s, path))
  }

  predicate HasRoleClaim(claims: seq<Claim>, role: string)
  {
    exists i :: 0 <= i < |claims| && claims[i].claimType == RoleClaimType && claims[i].value == role
  }

  /** IsApiInScope (lines 46-139). */
  method IsApiInScope(
    scopes: seq<ApiScope>,
    claims: seq<Claim>,
    source: Option<string>,
    isAuthenticated: bool,
    info: ApiInfo,
    path: Option<string>)
    returns (result: ApiScopeResult)
    // root may do anything, without consulting the scopes
    ensures HasRoleClaim(claims, "root") ==>
      result == ApiScopeResult(true, true, false, true, IsFeed(source))
    // otherwise the decision comes from the selected scopes
    ensures !HasRoleClaim(claims, "root") ==>
      var selected := SelectScopes(scopes, info, Roles(claims), path);
      && (result.isInScope <==> |selected| > 0)
      && (|selected| == 0 ==> result == ApiScopeResult(false, false, false, false, false))
      && (|selected| > 0 ==>
           && (result.allowCreateAccount <==> exists s :: s in selected && Contains(s.scope, "create"))
           && (result.scopeToUser <==> !exists s :: s in selected && Contains(s.scope, "any"))
           && (result.isModerator <==> HasRoleClaim(claims, "moderator"))
           && (result.allowRepeat <==> IsFeed(source) && isAuthenticated))
  {
    var roles := BuildRoles(claims);
    var isFeed := IsFeed(source);

    if "root" in roles {
      return ApiScopeResult(isInScope := true, isModerator := true, scopeToUser := false,
                            allowCreateAccount := true, allowRepeat := isFeed);
    }

    var apiScopes := SelectScopes(scopes, info, roles, path);
    if |apiScopes| == 0 {
      return ApiScopeResult(false, false, false, false, false);
    }

    var allowCreate := exists s :: s in apiScopes && Contains(s.scope, "create");
    var anyScope := exists s :: s in apiScopes && Contains(s.scope, "any");
    result := ApiScopeResult(
      isInScope := true,
      isModerator := "moderator" in roles,
      scopeToUser := !anyScope,
      allowCreateAccount := allowCreate,
      allowRepeat := isFeed && isAuthenticated);
  }
}
