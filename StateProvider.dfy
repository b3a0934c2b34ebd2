/**
 * The listing moderation state engine (ApiGateway/Auth/StateProvider.cs).
 *
 * ChangeState decides a listing's next (State, SubState) from its current
 * sub-state, the requested state and facts about the request, by an ordered
 * cascade of rules over four lookup tables. The rule numbers in the names
 * are those of the source's own comments ("Rule 3", "Rule 12.c", ...).
 *
 * DateTime.Now becomes the parameter `now` (ticks), and the advert
 * comparison `existing.Equals(changed)` becomes a function parameter.
 */
module StateProvider {
  import opened Wrappers
  import opened NetStrings
  import AuthProvider

  // ---------------------------------------------------------------------------
  // Data

  /** Rule 1: the five main states. */
  datatype State = Active | Pending | Inactive | Archived | Rejected

  /** A (state, sub-state) pair, as stored in the tables. */
  datatype Target = Target(state: State, subState: string)

  /** The key of UserNoEditMap and UserEditMap: (current sub-state, requested state). */
  datatype TransitionKey = TransitionKey(currentSubState: string, requestedState: string)

  /**
   * The decision. The two trailing flags gate the downstream spam screening
   * (rule 13): `premodCheck` is cleared for premium and promoted content
   * ("skip PreModeration keyword check"), `spamCheck` is set by every rule
   * from rule 7 on. The four-argument constructor leaves both false.
   */
  datatype ChangeStateResult = ChangeStateResult(
    state: State,
    subState: string,
    modified: bool,
    reason: string,
    premodCheck: bool,
    spamCheck: bool)

  /** AdPromotion: a null AdPromotionType behaves as "" (it equals neither "top" nor "homepage"). */
  datatype AdPromotion = AdPromotion(adPromotionType: string, endDate: int)

  /**
   * The facts of one ChangeState call, named as the source's parameters.
   * `currentSubState` is None for a null reference: a null sub-state misses
   * every table key, while "" hits the ("", x) entries. Every other string
   * that may be null behaves in the code exactly as "" does, and a null
   * promotion list as an empty one.
   */
  datatype ChangeRequest = ChangeRequest(
    currentState: string,
    currentSubState: Option<string>,
    requestedState: string,
    adPackage: string,
    adType: string,
    affiliateLink: string,
    accountSubState: string,
    isEdit: bool,
    firstTimeAdvertiser: bool,
    category: string,
    subCategory: string,
    subSubCategory: string,
    intention: string,
    source: string,
    promotions: seq<AdPromotion>)

  // ---------------------------------------------------------------------------
  // Tables (the static constructor, lines 63-219)

  const AffiliateMap: map<string, Target> := map[
    "Active" := Target(Active, "Moderated"),
    "Pending" := Target(Pending, "PreModeration"),
    "Inactive" := Target(Inactive, "Edited"),
    "Archive" := Target(Archived, "Deleted"),
    "Archived" := Target(Archived, "Deleted"),
    "Rejected" := Target(Rejected, "AdminReject")]

  const ModerationMap: map<string, Target> := map[
    "" := Target(Active, "Moderated"),
    "Active" := Target(Active, "Moderated"),
    "Pending" := Target(Pending, "PreModeration"),
    "Inactive" := Target(Inactive, "Edited"),
    "Archive" := Target(Archived, "AdminArchived"),
    "Archived" := Target(Archived, "AdminArchived"),
    "Rejected" := Target(Rejected, "AdminReject"),
    "InactiveUnpaid" := Target(Inactive, "InactiveUnpaid"),
    "ChangeRequest" := Target(Pending, "ChangeRequest"),
    "VerifyContactDetails" := Target(Pending, "VerifyContactDetails"),
    "AdminReject" := Target(Rejected, "AdminReject"),
    "AccountBan" := Target(Rejected, "AccountBan"),
    "AdminArchived" := Target(Archived, "AdminArchived"),
    "Sold" := Target(Archived, "Sold"),
    "Expired" := Target(Archived, "Expired")]

  const UserNoEditMap: map<TransitionKey, Target> := map[
    // no state
    TransitionKey("", "") := Target(Active, "PostModeration"),
    TransitionKey("", "Active") := Target(Active, "PostModeration"),
    TransitionKey("", "Pending") := Target(Pending, "PreModeration"),
    TransitionKey("", "Inactive") := Target(Inactive, "InactiveEdited"),
    TransitionKey("", "Archived") := Target(Archived, "Deleted"),
    // active
    TransitionKey("Moderated", "Inactive") := Target(Inactive, "Deactivated"),
    TransitionKey("PostModeration", "Inactive") := Target(Inactive, "InactivePostModeration"),
    TransitionKey("ActiveUnpaid", "Inactive") := Target(Inactive, "InactiveUnpaid"),
    TransitionKey("ActiveHoliday", "Inactive") := Target(Inactive, "Deactivated"),
    TransitionKey("Moderated", "Archived") := Target(Archived, "Deleted"),
    TransitionKey("PostModeration", "Archived") := Target(Archived, "Deleted"),
    TransitionKey("ActiveUnpaid", "Archived") := Target(Archived, "Deleted"),
    TransitionKey("ActiveHoliday", "Archived") := Target(Archived, "Deleted"),
    TransitionKey("Moderated", "Active") := Target(Active, "Moderated"),
    TransitionKey("PostModeration", "Active") := Target(Active, "PostModeration"),
    // pending
    TransitionKey("PreModeration", "Active") := Target(Pending, "PreModeration"),
    TransitionKey("ChangeRequest", "Active") := Target(Pending, "ChangeRequest"),
    TransitionKey("VerifyContactDetails", "Active") := Target(Pending, "PreModeration"),
    TransitionKey("PendingSpam", "Active") := Target(Pending, "PendingSpam"),
    TransitionKey("PendingReview", "Active") := Target(Pending, "PendingReview"),
    TransitionKey("PreModeration", "Inactive") := Target(Inactive, "InactiveEdited"),
    TransitionKey("ChangeRequest", "Inactive") := Target(Inactive, "InactiveChangeRequested"),
    TransitionKey("VerifyContactDetails", "Inactive") := Target(Inactive, "InactiveVerifyContactDetails"),
    TransitionKey("PendingSpam", "Inactive") := Target(Inactive, "InactiveEdited"),
    TransitionKey("PendingReview", "Inactive") := Target(Inactive, "InactiveEdited"),
    TransitionKey("PreModeration", "Archived") := Target(Archived, "Deleted"),
    TransitionKey("ChangeRequest", "Archived") := Target(Archived, "Deleted"),
    TransitionKey("VerifyContactDetails", "Archived") := Target(Archived, "Deleted"),
    TransitionKey("PendingSpam", "Archived") := Target(Archived, "Deleted"),
    TransitionKey("PendingReview", "Archived") := Target(Archived, "Deleted"),
    // inactive
    TransitionKey("Deactivated", "Active") := Target(Active, "Moderated"),
    TransitionKey("InactiveUnpaid", "Active") := Target(Active, "ActiveUnpaid"),
    TransitionKey("InactiveEdited", "Active") := Target(Pending, "PreModeration"),
    TransitionKey("InactiveChangeRequested", "Active") := Target(Pending, "ChangeRequest"),
    TransitionKey("InactiveVerifyContactDetails", "Active") := Target(Pending, "VerifyContactDetails"),
    TransitionKey("InactivePostModeration", "Active") := Target(Active, "PostModeration"),
    TransitionKey("Edited", "Inactive") := Target(Inactive, "Edited"),
    TransitionKey("InactivePostModeration", "Inactive") := Target(Inactive, "InactivePostModeration"),
    TransitionKey("Deactivated", "Archived") := Target(Archived, "Deleted"),
    TransitionKey("InactiveUnpaid", "Archived") := Target(Archived, "Deleted"),
    TransitionKey("InactiveEdited", "Archived") := Target(Archived, "Deleted"),
    TransitionKey("InactiveChangeRequested", "Archived") := Target(Archived, "Deleted"),
    TransitionKey("InactiveVerifyContactDetails", "Archived") := Target(Archived, "Deleted"),
    TransitionKey("InactivePostModeration", "Archived") := Target(Archived, "Deleted"),
    TransitionKey("Edited", "Archived") := Target(Archived, "Deleted")]

  const UserEditMap: map<TransitionKey, Target> := map[
    // no state
    TransitionKey("", "") := Target(Active, "PostModeration"),
    TransitionKey("", "Active") := Target(Active, "PostModeration"),
    TransitionKey("", "Pending") := Target(Pending, "PreModeration"),
    TransitionKey("", "Inactive") := Target(Inactive, "InactiveEdited"),
    TransitionKey("", "Archived") := Target(Archived, "Deleted"),
    // active
    TransitionKey("Moderated", "Inactive") := Target(Inactive, "InactiveEdited"),
    TransitionKey("PostModeration", "Inactive") := Target(Inactive, "InactiveEdited"),
    TransitionKey("ActiveUnpaid", "Inactive") := Target(Inactive, "InactiveEdited"),
    TransitionKey("ActiveHoliday", "Inactive") := Target(Inactive, "InactiveEdited"),
    TransitionKey("Moderated", "Archived") := Target(Archived, "Deleted"),
    TransitionKey("PostModeration", "Archived") := Target(Archived, "Deleted"),
    TransitionKey("ActiveUnpaid", "Archived") := Target(Archived, "Deleted"),
    TransitionKey("ActiveHoliday", "Archived") := Target(Archived, "Deleted"),
    TransitionKey("Moderated", "Active") := Target(Active, "PostModeration"),
    TransitionKey("PostModeration", "Active") := Target(Active, "PostModeration"),
    TransitionKey("ActiveUnpaid", "Active") := Target(Pending, "PreModeration"),
    TransitionKey("ActiveHoliday", "Active") := Target(Pending, "PreModeration"),
    // pending
    TransitionKey("PreModeration", "Active") := Target(Pending, "PreModeration"),
    TransitionKey("ChangeRequest", "Active") := Target(Active, "PostModeration"),
    TransitionKey("VerifyContactDetails", "Active") := Target(Pending, "VerifyContactDetails"),
    TransitionKey("PreModeration", "Inactive") := Target(Inactive, "InactiveEdited"),
    TransitionKey("ChangeRequest", "Inactive") := Target(Inactive, "InactiveEdited"),
    TransitionKey("VerifyContactDetails", "Inactive") := Target(Inactive, "InactiveVerifyContactDetails"),
    TransitionKey("PreModeration", "Archived") := Target(Archived, "Deleted"),
    TransitionKey("ChangeRequest", "Archived") := Target(Archived, "Deleted"),
    TransitionKey("VerifyContactDetails", "Archived") := Target(Archived, "Deleted"),
    // inactive
    TransitionKey("Deactivated", "Active") := Target(Active, "PostModeration"),
    TransitionKey("InactiveUnpaid", "Active") := Target(Inactive, "InactiveUnpaid"),
    TransitionKey("InactiveEdited", "Active") := Target(Pending, "PreModeration"),
    TransitionKey("InactiveChangeRequested", "Active") := Target(Active, "PostModeration"),
    TransitionKey("InactiveVerifyContactDetails", "Active") := Target(Pending, "VerifyContactDetails"),
    TransitionKey("InactivePostModeration", "Active") := Target(Active, "PostModeration"),
    TransitionKey("Edited", "Active") := Target(Pending, "PreModeration"),
    TransitionKey("Deactivated", "Inactive") := Target(Inactive, "InactiveEdited"),
    TransitionKey("InactiveUnpaid", "Inactive") := Target(Inactive, "InactiveUnpaid"),
    TransitionKey("InactiveEdited", "Inactive") := Target(Inactive, "InactiveEdited"),
    TransitionKey("InactiveChangeRequested", "Inactive") := Target(Inactive, "InactiveEdited"),
    TransitionKey("InactiveVerifyContactDetails", "Inactive") := Target(Inactive, "VerifyContactDetails"),
    TransitionKey("Edited", "Inactive") := Target(Inactive, "Edited"),
    TransitionKey("Deactivated", "Archived") := Target(Archived, "Deleted"),
    TransitionKey("InactiveUnpaid", "Archived") := Target(Archived, "Deleted"),
    TransitionKey("InactiveEdited", "Archived") := Target(Archived, "Deleted"),
    TransitionKey("InactiveChangeRequested", "Archived") := Target(Archived, "Deleted"),
    TransitionKey("InactiveVerifyContactDetails", "Archived") := Target(Archived, "Deleted"),
    TransitionKey("InactivePostModeration", "Archived") := Target(Archived, "Deleted"),
    TransitionKey("Edited", "Archived") := Target(Archived, "Deleted")]

  const PremodCategories: seq<string> := [
    "Pets",
    "Holiday Accommodation",
    "Livestock",
    "Job Seekers",
    "Casual Work",
    "Caravans",
    "Campers and Motorhomes",
    "Uncategorized",
    "Wendy Houses and Log Cabins",
    "COVID-19 Products and Services"]

  // ---------------------------------------------------------------------------
  // Sentinels (lines 42-47), built per call with Modified = isEdit (lines 285-287)

  function UnknownState(isEdit: bool): ChangeStateResult
  {
    ChangeStateResult(Active, "PostModeration", isEdit, "Unknown State", true, true)
  }

  function UnknownStatePremium(isEdit: bool): ChangeStateResult
  {
    ChangeStateResult(Active, "PostModeration", isEdit, "Unknown State", false, true)
  }

  function AccountBanState(isEdit: bool): ChangeStateResult
  {
    ChangeStateResult(Rejected, "AccountBan", isEdit, "Rule 4: Auto ban if account is banned", false, false)
  }

  // ---------------------------------------------------------------------------
  // Rule guards

  /** Rule 3: the lower-cased affiliate link names one of the affiliate brands. */
  predicate IsAffiliateLink(affiliateLink: string)
  {
    var link := Lower(affiliateLink);
    Contains(link, "auto") || Contains(link, "truck") || Contains(link, "agri")
    || Contains(link, "job") || Contains(link, "gotproperty")
  }

  /** Rule 3.b: the content comes from CCAP. */
  predicate IsCcapSource(source: string)
  {
    EqualsIgnoreCase(source, "ccap")
  }

  predicate IsUnpaidAccount(accountSubState: string)
  {
    accountSubState == "ActiveUnpaid" || accountSubState == "InactiveUnpaid"
  }

  /** Rule 7: an unexpired "top" or "homepage" promotion. */
  predicate IsActivePromotion(p: AdPromotion, now: int)
  {
    p.endDate > now && (Lower(p.adPromotionType) == "top" || Lower(p.adPromotionType) == "homepage")
  }

  predicate IsPromoted(promotions: seq<AdPromotion>, now: int)
  {
    exists i :: 0 <= i < |promotions| && IsActivePromotion(promotions[i], now)
  }

  /** `package?.ToLower().Contains("premium")`. */
  predicate IsPremiumPackage(adPackage: string)
  {
    Contains(Lower(adPackage), "premium")
  }

  /** `PremodCategories.Contains(category, StringComparer.OrdinalIgnoreCase)`. */
  predicate IsPremodCategory(category: string)
  {
    exists i :: 0 <= i < |PremodCategories| && EqualsIgnoreCase(PremodCategories[i], category)
  }

  predicate HasPremodCategory(req: ChangeRequest)
  {
    IsPremodCategory(req.category) || IsPremodCategory(req.subCategory) || IsPremodCategory(req.subSubCategory)
  }

  /** Rule 12.d: the listing gives the item away. */
  predicate IsGiveAway(intention: string)
  {
    intention == "Give Away"
  }

  /** Rule 12.c.ii: an owner listing in the cars category. */
  predicate IsOwnerCars(req: ChangeRequest)
  {
    Lower(req.category) == "cars" && Lower(req.adPackage) == "owner"
  }

  // ---------------------------------------------------------------------------
  // Lookups

  /** Lines 293-294: an empty requested state means "Active". */
  function EffectiveRequestedState(requestedState: string): (r: string)
    ensures r != ""
    ensures requestedState != "" ==> r == requestedState
  {
    if requestedState == "" then "Active" else requestedState
  }

  /** `map.TryGetValue(stateKey, ...)` where a null current sub-state matches no key. */
  function LookupTransition(m: map<TransitionKey, Target>, currentSubState: Option<string>, requested: string): (r: Option<Target>)
    ensures r.Some? <==> currentSubState.Some? && TransitionKey(currentSubState.value, requested) in m
    ensures r.Some? ==> r.value == m[TransitionKey(currentSubState.value, requested)]
  {
    if currentSubState.Some? && TransitionKey(currentSubState.value, requested) in m
    then Some(m[TransitionKey(currentSubState.value, requested)])
    else None
  }

  function FromTarget(t: Target, isEdit: bool, reason: string, premodCheck: bool, spamCheck: bool): ChangeStateResult
  {
    ChangeStateResult(t.state, t.subState, isEdit, reason, premodCheck, spamCheck)
  }

  // The reason texts the rules report.
  const Rule3Reason: string := "Rule 3: Affiliate content from Auto Mart, Truck &amp; Trailer, Agrimag and Job Mail use the AffiliateMap"
  const Rule3bReason: string := "Rule 3b: CCAP content use the AffiliateMap"
  const Rule6aActiveReason: string := "Rule 6.a: If the account is Unpaid and the requested active, move to ActiveUnpaid"
  const Rule6aInactiveReason: string := "Rule 6.a: If the account is Unpaid and the requested state is inactive, move to InactiveUnpaid"
  const Rule6bReason: string := "Rule 6.b: The state is change according to the ModerationMap"
  const Rule7Reason: string := "Rule 7: Promoted Content"
  const Rule10aReason: string := "Rule 10.a: If the content is edited, the state is set to Pending PreModeration"
  const Rule10cActiveReason: string := "Rule 10.c: The ads go to Active Unpaid"
  const Rule10cInactiveReason: string := "Rule 10.c: The ads go to Inactive Unpaid"
  const Rule11Reason: string := "Rule 11: If the ad is not edited, the state is changed according to UserNoEditMap"
  const Rule12aReason: string := "Rule 12.a: First time advertiser"
  const Rule12bReason: string := "Rule 12.b: Premium User"
  const Rule12cReason: string := "Rule 12.c: Premod Category"
  const Rule12ciiReason: string := "Rule 12.c.ii: Owner Cars"
  const Rule12dReason: string := "Rule 12.d: Give Away"
  const Rule12eReason: string := "Rule 12.e: If the ad is edited, the state is changed according to the UserEditMap"

  /** Rules 3 and 3.b: the AffiliateMap entry for the requested state, or UnknownState. */
  function AffiliateDecision(requested: string, isEdit: bool, reason: string): (r: ChangeStateResult)
    ensures r.modified == isEdit
    ensures r != UnknownStatePremium(isEdit)
  {
    if requested in AffiliateMap then FromTarget(AffiliateMap[requested], isEdit, reason, false, false)
    else UnknownState(isEdit)
  }

  /** Rule 6: a moderator's request. */
  function ModeratorDecision(requested: string, accountSubState: string, isEdit: bool): (r: ChangeStateResult)
    ensures r.modified == isEdit
    ensures r != UnknownStatePremium(isEdit)
  {
    if IsUnpaidAccount(accountSubState) && requested == "Active" then
      ChangeStateResult(Active, "ActiveUnpaid", isEdit, Rule6aActiveReason, false, false)
    else if IsUnpaidAccount(accountSubState) && requested == "Inactive" then
      ChangeStateResult(Inactive, "InactiveUnpaid", isEdit, Rule6aInactiveReason, false, false)
    else if requested in ModerationMap then
      FromTarget(ModerationMap[requested], isEdit, Rule6bReason, false, false)
    else UnknownState(isEdit)
  }

  /** Rule 7: promoted content goes live unless the no-edit map says otherwise. */
  function PromotionDecision(req: ChangeRequest, requested: string): (r: ChangeStateResult)
    ensures r.modified == req.isEdit
    ensures r != UnknownStatePremium(req.isEdit)
  {
    var promoted := ChangeStateResult(Active, "PostModeration", req.isEdit, Rule7Reason, false, true);
    if requested == "Active" then promoted
    else match LookupTransition(UserNoEditMap, req.currentSubState, requested)
      case Some(t) => FromTarget(t, req.isEdit, Rule7Reason, false, true)
      case None => promoted
  }

  /** Rules 12.a to 12.e, and the final fallback: the edited-listing cascade. */
  function EditDecision(req: ChangeRequest, requested: string): (r: ChangeStateResult)
    ensures r.modified == req.isEdit
    ensures r != UnknownStatePremium(req.isEdit)
  {
    var isEdit := req.isEdit;
    if req.firstTimeAdvertiser then
      ChangeStateResult(Pending, "PreModeration", isEdit, Rule12aReason, true, true)
    else if IsPremiumPackage(req.adPackage) then
      ChangeStateResult(Active, "PostModeration", isEdit, Rule12bReason, false, true)
    else if HasPremodCategory(req) then
      ChangeStateResult(Pending, "PreModeration", isEdit, Rule12cReason, true, true)
    else if IsOwnerCars(req) then
      ChangeStateResult(Pending, "PreModeration", isEdit, Rule12ciiReason, true, true)
    else if IsGiveAway(req.intention) then
      ChangeStateResult(Pending, "PreModeration", isEdit, Rule12dReason, true, true)
    else match LookupTransition(UserEditMap, req.currentSubState, requested)
      case Some(t) => FromTarget(t, isEdit, Rule12eReason, true, true)
      case None =>
        if IsPremiumPackage(req.adPackage) then UnknownStatePremium(isEdit) else UnknownState(isEdit)
  }

  /** Rules 7 to 12: a request by anyone but a moderator. */
  function UserDecision(req: ChangeRequest, requested: string, now: int): (r: ChangeStateResult)
    ensures r.modified == req.isEdit
    ensures r != UnknownStatePremium(req.isEdit)
  {
    var isEdit := req.isEdit;
    if IsPromoted(req.promotions, now) then PromotionDecision(req, requested)
    else if IsUnpaidAccount(req.accountSubState) && isEdit then
      ChangeStateResult(Pending, "PreModeration", isEdit, Rule10aReason, false, false)
    else if IsUnpaidAccount(req.accountSubState) && requested == "Active" then
      ChangeStateResult(Active, "ActiveUnpaid", isEdit, Rule10cActiveReason, false, false)
    else if IsUnpaidAccount(req.accountSubState) && requested == "Inactive" then
      ChangeStateResult(Inactive, "InactiveUnpaid", isEdit, Rule10cInactiveReason, false, false)
    else
      var noEdit := LookupTransition(UserNoEditMap, req.currentSubState, requested);
      if !isEdit && req.currentSubState != Some("InactiveEdited") && noEdit.Some? then
        FromTarget(noEdit.value, isEdit, Rule11Reason, false, true)
      else EditDecision(req, requested)
  }

  // ---------------------------------------------------------------------------
  // The engine

  /** ChangeState (lines 266-558). */
  function ChangeState(scope: AuthProvider.ApiScopeResult, req: ChangeRequest, now: int): (r: ChangeStateResult)
    ensures r.modified == req.isEdit
  {
    var requested := EffectiveRequestedState(req.requestedState);
    if IsAffiliateLink(req.affiliateLink) then AffiliateDecision(requested, req.isEdit, Rule3Reason)
    else if IsCcapSource(req.source) then AffiliateDecision(requested, req.isEdit, Rule3bReason)
    else if req.accountSubState == "AccountBan" then AccountBanState(req.isEdit)
    else if scope.isModerator then ModeratorDecision(requested, req.accountSubState, req.isEdit)
    else UserDecision(req, requested, now)
  }

  // ---------------------------------------------------------------------------
  // The same engine as an ordered table of guarded rules
  //
  // Each rule below tests only its own condition; the order of the table
  // supplies everything the nested if/else of the source implies about the
  // rules before it. RuleTableAgrees proves the two forms decide alike.

  /** What a rule may consult: the caller's scope, the request, the effective requested state, the clock. */
  datatype Facts = Facts(scope: AuthProvider.ApiScopeResult, req: ChangeRequest, requested: string, now: int)

  /** A rule: its number in the source's comments and its decision, None when it does not apply. */
  datatype Rule = Rule(name: string, fire: Facts -> Option<ChangeStateResult>)

  /** The decision of the first rule from index `i` on that applies. */
  function FirstMatch(rules: seq<Rule>, i: nat, f: Facts): Option<ChangeStateResult>
    requires i <= |rules|
    decreases |rules| - i
  {
    if i == |rules| then None
    else if rules[i].fire(f).Some? then rules[i].fire(f)
    else FirstMatch(rules, i + 1, f)
  }

  /** FirstMatch decides exactly when some rule applies, and then as the first rule that applies. */
  lemma {:induction false} FirstMatchIsFirst(rules: seq<Rule>, i: nat, f: Facts)
    requires i <= |rules|
    ensures FirstMatch(rules, i, f).Some? <==> exists k :: i <= k < |rules| && rules[k].fire(f).Some?
    ensures FirstMatch(rules, i, f).Some? ==>
      exists k :: i <= k < |rules| && FirstMatch(rules, i, f) == rules[k].fire(f)
        && forall j :: i <= j < k ==> rules[j].fire(f).None?
    decreases |rules| - i
  {
    if i < |rules| && rules[i].fire(f).None? {
      FirstMatchIsFirst(rules, i + 1, f);
    }
  }

  /** In a concatenation, the rules of the first part take precedence. */
  lemma {:induction false} FirstMatchAppend(a: seq<Rule>, b: seq<Rule>, i: nat, f: Facts)
    requires i <= |a|
    ensures FirstMatch(a + b, i, f) == if FirstMatch(a, i, f).Some? then FirstMatch(a, i, f) else FirstMatch(b, 0, f)
    decreases |a| - i
  {
    if i == |a| {
      FirstMatchShift(a, b, 0, f);
    } else {
      assert (a + b)[i] == a[i];
      FirstMatchAppend(a, b, i + 1, f);
    }
  }

  /** Skipping a prefix shifts the indices. */
  lemma {:induction false} FirstMatchShift(a: seq<Rule>, b: seq<Rule>, i: nat, f: Facts)
    requires i <= |b|
    ensures FirstMatch(a + b, |a| + i, f) == FirstMatch(b, i, f)
    decreases |b| - i
  {
    if i < |b| {
      assert (a + b)[|a| + i] == b[i];
      FirstMatchShift(a, b, i + 1, f);
    }
  }

  /** Rules 3 to 4, consulted before the caller's role. */
  const AccountRules: seq<Rule> := [
    Rule("Rule 3", (f: Facts) =>
      if IsAffiliateLink(f.req.affiliateLink) then Some(AffiliateDecision(f.requested, f.req.isEdit, Rule3Reason)) else None),
    Rule("Rule 3.b", (f: Facts) =>
      if IsCcapSource(f.req.source) then Some(AffiliateDecision(f.requested, f.req.isEdit, Rule3bReason)) else None),
    Rule("Rule 4", (f: Facts) =>
      if f.req.accountSubState == "AccountBan" then Some(AccountBanState(f.req.isEdit)) else None)
  ]

  /** Rule 6, for moderators. */
  const ModeratorRules: seq<Rule> := [
    Rule("Rule 6.a", (f: Facts) =>
      if f.scope.isModerator && IsUnpaidAccount(f.req.accountSubState) && f.requested == "Active"
      then Some(ChangeStateResult(Active, "ActiveUnpaid", f.req.isEdit, Rule6aActiveReason, false, false)) else None),
    Rule("Rule 6.a", (f: Facts) =>
      if f.scope.isModerator && IsUnpaidAccount(f.req.accountSubState) && f.requested == "Inactive"
      then Some(ChangeStateResult(Inactive, "InactiveUnpaid", f.req.isEdit, Rule6aInactiveReason, false, false)) else None),
    Rule("Rule 6.b", (f: Facts) =>
      if f.scope.isModerator && f.requested in ModerationMap
      then Some(FromTarget(ModerationMap[f.requested], f.req.isEdit, Rule6bReason, false, false)) else None),
    Rule("Unknown State", (f: Facts) =>
      if f.scope.isModerator then Some(UnknownState(f.req.isEdit)) else None)
  ]

  /** Rules 7 to 11, for everyone else. */
  const UserRules: seq<Rule> := [
    Rule("Rule 7", (f: Facts) =>
      if IsPromoted(f.req.promotions, f.now) && f.requested != "Active"
         && LookupTransition(UserNoEditMap, f.req.currentSubState, f.requested).Some?
      then Some(FromTarget(LookupTransition(UserNoEditMap, f.req.currentSubState, f.requested).value,
                           f.req.isEdit, Rule7Reason, false, true))
      else None),
    Rule("Rule 7", (f: Facts) =>
      if IsPromoted(f.req.promotions, f.now)
      then Some(ChangeStateResult(Active, "PostModeration", f.req.isEdit, Rule7Reason, false, true)) else None),
    Rule("Rule 10.a", (f: Facts) =>
      if IsUnpaidAccount(f.req.accountSubState) && f.req.isEdit
      then Some(ChangeStateResult(Pending, "PreModeration", f.req.isEdit, Rule10aReason, false, false)) else None),
    Rule("Rule 10.c", (f: Facts) =>
      if IsUnpaidAccount(f.req.accountSubState) && f.requested == "Active"
      then Some(ChangeStateResult(Active, "ActiveUnpaid", f.req.isEdit, Rule10cActiveReason, false, false)) else None),
    Rule("Rule 10.c", (f: Facts) =>
      if IsUnpaidAccount(f.req.accountSubState) && f.requested == "Inactive"
      then Some(ChangeStateResult(Inactive, "InactiveUnpaid", f.req.isEdit, Rule10cInactiveReason, false, false)) else None),
    Rule("Rule 11", (f: Facts) =>
      if !f.req.isEdit && f.req.currentSubState != Some("InactiveEdited")
         && LookupTransition(UserNoEditMap, f.req.currentSubState, f.requested).Some?
      then Some(FromTarget(LookupTransition(UserNoEditMap, f.req.currentSubState, f.requested).value,
                           f.req.isEdit, Rule11Reason, false, true))
      else None)
  ]

  /** Rule 12 and the fallback, which always applies. */
  const EditRules: seq<Rule> := [
    Rule("Rule 12.a", (f: Facts) =>
      if f.req.firstTimeAdvertiser
      then Some(ChangeStateResult(Pending, "PreModeration", f.req.isEdit, Rule12aReason, true, true)) else None),
    Rule("Rule 12.b", (f: Facts) =>
      if IsPremiumPackage(f.req.adPackage)
      then Some(ChangeStateResult(Active, "PostModeration", f.req.isEdit, Rule12bReason, false, true)) else None),
    Rule("Rule 12.c", (f: Facts) =>
      if HasPremodCategory(f.req)
      then Some(ChangeStateResult(Pending, "PreModeration", f.req.isEdit, Rule12cReason, true, true)) else None),
    Rule("Rule 12.c.ii", (f: Facts) =>
      if IsOwnerCars(f.req)
      then Some(ChangeStateResult(Pending, "PreModeration", f.req.isEdit, Rule12ciiReason, true, true)) else None),
    Rule("Rule 12.d", (f: Facts) =>
      if IsGiveAway(f.req.intention)
      then Some(ChangeStateResult(Pending, "PreModeration", f.req.isEdit, Rule12dReason, true, true)) else None),
    Rule("Rule 12.e", (f: Facts) =>
      if LookupTransition(UserEditMap, f.req.currentSubState, f.requested).Some?
      then Some(FromTarget(LookupTransition(UserEditMap, f.req.currentSubState, f.requested).value,
                           f.req.isEdit, Rule12eReason, true, true))
      else None),
    Rule("Unknown State", (f: Facts) =>
      Some(UnknownState(f.req.isEdit)))
  ]

  /** The whole table, in the order the source tests the rules. */
  function RuleTable(): seq<Rule>
  {
    AccountRules + (ModeratorRules + (UserRules + EditRules))
  }

  /** Rules 3 to 4 apply exactly to affiliate, CCAP and banned-account requests, and decide as ChangeState does. */
  lemma AccountRulesAgree(f: Facts)
    ensures FirstMatch(AccountRules, 0, f).Some? <==>
      IsAffiliateLink(f.req.affiliateLink) || IsCcapSource(f.req.source) || f.req.accountSubState == "AccountBan"
    ensures IsAffiliateLink(f.req.affiliateLink) ==>
      FirstMatch(AccountRules, 0, f) == Some(AffiliateDecision(f.requested, f.req.isEdit, Rule3Reason))
    ensures !IsAffiliateLink(f.req.affiliateLink) && IsCcapSource(f.req.source) ==>
      FirstMatch(AccountRules, 0, f) == Some(AffiliateDecision(f.requested, f.req.isEdit, Rule3bReason))
    ensures !IsAffiliateLink(f.req.affiliateLink) && !IsCcapSource(f.req.source) && f.req.accountSubState == "AccountBan" ==>
      FirstMatch(AccountRules, 0, f) == Some(AccountBanState(f.req.isEdit))
  {
  }

  /** Rule 6 applies exactly to moderators, and decides as ModeratorDecision. */
  lemma ModeratorRulesAgree(f: Facts)
    ensures f.scope.isModerator ==>
      FirstMatch(ModeratorRules, 0, f) == Some(ModeratorDecision(f.requested, f.req.accountSubState, f.req.isEdit))
    ensures !f.scope.isModerator ==> FirstMatch(ModeratorRules, 0, f).None?
  {
  }

  /** Rule 12 and the fallback always decide, as EditDecision does. */
  lemma EditRulesAgree(f: Facts)
    ensures FirstMatch(EditRules, 0, f) == Some(EditDecision(f.req, f.requested))
  {
    var rs := EditRules;
    var req := f.req;
    var edit := LookupTransition(UserEditMap, req.currentSubState, f.requested);
    if req.firstTimeAdvertiser {
      assert FirstMatch(rs, 0, f) == Some(EditDecision(f.req, f.requested));
    } else {
      assert FirstMatch(rs, 0, f) == FirstMatch(rs, 1, f);
      if IsPremiumPackage(req.adPackage) {
        assert FirstMatch(rs, 1, f) == Some(EditDecision(f.req, f.requested));
      } else {
        assert FirstMatch(rs, 1, f) == FirstMatch(rs, 2, f);
        if HasPremodCategory(req) {
          assert FirstMatch(rs, 2, f) == Some(EditDecision(f.req, f.requested));
        } else {
          assert FirstMatch(rs, 2, f) == FirstMatch(rs, 3, f);
          if IsOwnerCars(req) {
            assert FirstMatch(rs, 3, f) == Some(EditDecision(f.req, f.requested));
          } else {
            assert FirstMatch(rs, 3, f) == FirstMatch(rs, 4, f);
            if IsGiveAway(req.intention) {
              assert rs[4].fire(f) == Some(ChangeStateResult(Pending, "PreModeration", req.isEdit, Rule12dReason, true, true));
              assert FirstMatch(rs, 4, f) == Some(EditDecision(f.req, f.requested));
            } else {
              assert FirstMatch(rs, 4, f) == FirstMatch(rs, 5, f);
              if edit.Some? {
                assert FirstMatch(rs, 5, f) == Some(EditDecision(f.req, f.requested));
              } else {
                assert FirstMatch(rs, 5, f) == FirstMatch(rs, 6, f);
                assert FirstMatch(rs, 6, f) == Some(EditDecision(f.req, f.requested));
              }
            }
          }
        }
      }
    }
  }

  /** Rules 7 to 12 decide as UserDecision does. */
  lemma UserRulesAgree(f: Facts)
    ensures FirstMatch(UserRules + EditRules, 0, f) == Some(UserDecision(f.req, f.requested, f.now))
  {
    FirstMatchAppend(UserRules, EditRules, 0, f);
    UserOnlyRulesAgree(f);
    EditRulesAgree(f);
  }

  /** Rules 7 to 11 decide as UserDecision does when one applies, and leave the rest to the rule 12 cascade. */
  lemma UserOnlyRulesAgree(f: Facts)
    ensures FirstMatch(UserRules, 0, f).Some? ==> FirstMatch(UserRules, 0, f) == Some(UserDecision(f.req, f.requested, f.now))
    ensures FirstMatch(UserRules, 0, f).None? ==> UserDecision(f.req, f.requested, f.now) == EditDecision(f.req, f.requested)
  {
    var rs := UserRules;
    var req := f.req;
    if IsPromoted(req.promotions, f.now) {
      if f.requested != "Active" && LookupTransition(UserNoEditMap, req.currentSubState, f.requested).Some? {
        assert FirstMatch(rs, 0, f) == rs[0].fire(f);
      } else {
        assert FirstMatch(rs, 0, f) == FirstMatch(rs, 1, f) == rs[1].fire(f);
      }
    } else {
      assert FirstMatch(rs, 0, f) == FirstMatch(rs, 1, f) == FirstMatch(rs, 2, f);
      if IsUnpaidAccount(req.accountSubState) && req.isEdit {
        assert FirstMatch(rs, 2, f) == rs[2].fire(f);
      } else {
        assert FirstMatch(rs, 2, f) == FirstMatch(rs, 3, f);
        if IsUnpaidAccount(req.accountSubState) && f.requested == "Active" {
          assert FirstMatch(rs, 3, f) == rs[3].fire(f);
        } else {
          assert FirstMatch(rs, 3, f) == FirstMatch(rs, 4, f);
          if IsUnpaidAccount(req.accountSubState) && f.requested == "Inactive" {
            assert FirstMatch(rs, 4, f) == rs[4].fire(f);
          } else {
            assert FirstMatch(rs, 4, f) == FirstMatch(rs, 5, f);
            assert FirstMatch(rs, 6, f).None?;
          }
        }
      }
    }
  }

  /** The nested cascade of ChangeState and the flat rule table decide every request alike. */
  lemma RuleTableAgrees(scope: AuthProvider.ApiScopeResult, req: ChangeRequest, now: int)
    ensures FirstMatch(RuleTable(), 0, Facts(scope, req, EffectiveRequestedState(req.requestedState), now))
            == Some(ChangeState(scope, req, now))
  {
    var f := Facts(scope, req, EffectiveRequestedState(req.requestedState), now);
    FirstMatchAppend(AccountRules, ModeratorRules + (UserRules + EditRules), 0, f);
    AccountRulesAgree(f);
    if !(IsAffiliateLink(req.affiliateLink) || IsCcapSource(req.source) || req.accountSubState == "AccountBan") {
      FirstMatchAppend(ModeratorRules, UserRules + EditRules, 0, f);
      ModeratorRulesAgree(f);
      if !scope.isModerator {
        UserRulesAgree(f);
      }
    }
  }

  // ---------------------------------------------------------------------------
  // Properties of the cascade

  /** Lines 293-294: an empty requested state is decided as a request for "Active". */
  lemma EmptyRequestMeansActive(scope: AuthProvider.ApiScopeResult, req: ChangeRequest, now: int)
    ensures ChangeState(scope, req.(requestedState := ""), now) == ChangeState(scope, req.(requestedState := "Active"), now)
  {
  }

  /**
   * Rules 3 and 3.b come first: for affiliate or CCAP content the caller's
   * role, the account and every listing fact but the requested state are
   * ignored, and the AffiliateMap decides.
   */
  lemma AffiliateRuleFirst(scope: AuthProvider.ApiScopeResult, scope': AuthProvider.ApiScopeResult, req: ChangeRequest, now: int, now': int)
    requires IsAffiliateLink(req.affiliateLink) || IsCcapSource(req.source)
    ensures ChangeState(scope, req, now) == ChangeState(scope', req.(accountSubState := "AccountBan"), now')
    ensures var requested := EffectiveRequestedState(req.requestedState);
      var r := ChangeState(scope, req, now);
      && (requested in AffiliateMap ==>
            Target(r.state, r.subState) == AffiliateMap[requested] && !r.premodCheck && !r.spamCheck)
      && (requested !in AffiliateMap ==> r == UnknownState(req.isEdit))
  {
  }

  /** Rule 4: unless the affiliate rules apply, a banned account's listing is rejected, whoever asks for whatever. */
  lemma AccountBanDominates(scope: AuthProvider.ApiScopeResult, req: ChangeRequest, now: int)
    requires !IsAffiliateLink(req.affiliateLink) && !IsCcapSource(req.source)
    requires req.accountSubState == "AccountBan"
    ensures var r := ChangeState(scope, req, now);
      r.state == Rejected && r.subState == "AccountBan" && r.modified == req.isEdit
  {
  }

  /** The conditions under which the role of the caller is consulted at all. */
  predicate ReachesRoleRules(req: ChangeRequest)
  {
    !IsAffiliateLink(req.affiliateLink) && !IsCcapSource(req.source) && req.accountSubState != "AccountBan"
  }

  /** Rule 6: a moderator's decision depends only on the account state, the requested state and the edit flag. */
  lemma ModeratorIgnoresListing(scope: AuthProvider.ApiScopeResult, req: ChangeRequest, req': ChangeRequest, now: int, now': int)
    requires scope.isModerator && ReachesRoleRules(req) && ReachesRoleRules(req')
    requires req'.accountSubState == req.accountSubState && req'.isEdit == req.isEdit
    requires EffectiveRequestedState(req'.requestedState) == EffectiveRequestedState(req.requestedState)
    ensures ChangeState(scope, req, now) == ChangeState(scope, req', now')
  {
  }

  /** Rule 6: unpaid accounts go to the unpaid sub-states, everything else follows the ModerationMap. */
  lemma ModeratorRule(scope: AuthProvider.ApiScopeResult, req: ChangeRequest, now: int)
    requires scope.isModerator && ReachesRoleRules(req)
    ensures var requested := EffectiveRequestedState(req.requestedState);
      var r := ChangeState(scope, req, now);
      && (IsUnpaidAccount(req.accountSubState) && requested == "Active" ==> r.state == Active && r.subState == "ActiveUnpaid")
      && (IsUnpaidAccount(req.accountSubState) && requested == "Inactive" ==> r.state == Inactive && r.subState == "InactiveUnpaid")
      && ((!IsUnpaidAccount(req.accountSubState) || (requested != "Active" && requested != "Inactive")) ==>
            if requested in ModerationMap then Target(r.state, r.subState) == ModerationMap[requested]
            else r == UnknownState(req.isEdit))
  {
  }

  /** Rule 7: promoted listings of ordinary users go live, unless the no-edit map names another target. */
  lemma PromotionRule(scope: AuthProvider.ApiScopeResult, req: ChangeRequest, now: int)
    requires !scope.isModerator && ReachesRoleRules(req) && IsPromoted(req.promotions, now)
    ensures var requested := EffectiveRequestedState(req.requestedState);
      var r := ChangeState(scope, req, now);
      var hit := LookupTransition(UserNoEditMap, req.currentSubState, requested);
      && r.reason == Rule7Reason && !r.premodCheck && r.spamCheck
      && (requested == "Active" || hit.None? ==> r.state == Active && r.subState == "PostModeration")
      && (requested != "Active" && hit.Some? ==> Target(r.state, r.subState) == hit.value)
  {
  }

  /** The conditions under which rules 10 to 12 are consulted. */
  predicate ReachesUserRules(scope: AuthProvider.ApiScopeResult, req: ChangeRequest, now: int)
  {
    ReachesRoleRules(req) && !scope.isModerator && !IsPromoted(req.promotions, now)
  }

  /** Rule 10: listings of unpaid accounts are held back if edited and otherwise kept in the unpaid sub-states. */
  lemma UnpaidAccountRule(scope: AuthProvider.ApiScopeResult, req: ChangeRequest, now: int)
    requires ReachesUserRules(scope, req, now) && IsUnpaidAccount(req.accountSubState)
    ensures var requested := EffectiveRequestedState(req.requestedState);
      var r := ChangeState(scope, req, now);
      && (req.isEdit ==> r.state == Pending && r.subState == "PreModeration" && r.reason == Rule10aReason)
      && (!req.isEdit && requested == "Active" ==> r.state == Active && r.subState == "ActiveUnpaid")
      && (!req.isEdit && requested == "Inactive" ==> r.state == Inactive && r.subState == "InactiveUnpaid")
  {
  }

  /** The conditions under which rules 11 and 12 are consulted. */
  predicate ReachesListingRules(scope: AuthProvider.ApiScopeResult, req: ChangeRequest, now: int)
  {
    var requested := EffectiveRequestedState(req.requestedState);
    && ReachesUserRules(scope, req, now)
    && !(IsUnpaidAccount(req.accountSubState) && (req.isEdit || requested == "Active" || requested == "Inactive"))
  }

  /** Rule 11: an unedited listing follows the UserNoEditMap, unless it is InactiveEdited. */
  lemma NoEditRule(scope: AuthProvider.ApiScopeResult, req: ChangeRequest, now: int)
    requires ReachesListingRules(scope, req, now)
    requires !req.isEdit && req.currentSubState.Some? && req.currentSubState.value != "InactiveEdited"
    requires TransitionKey(req.currentSubState.value, EffectiveRequestedState(req.requestedState)) in UserNoEditMap
    ensures var r := ChangeState(scope, req, now);
      && Target(r.state, r.subState) == UserNoEditMap[TransitionKey(req.currentSubState.value, EffectiveRequestedState(req.requestedState))]
      && r.reason == Rule11Reason && !r.premodCheck && r.spamCheck
  {
  }

  /** The conditions under which rule 12 is consulted. */
  predicate ReachesEditRules(scope: AuthProvider.ApiScopeResult, req: ChangeRequest, now: int)
  {
    && ReachesListingRules(scope, req, now)
    && !(!req.isEdit && req.currentSubState != Some("InactiveEdited")
         && LookupTransition(UserNoEditMap, req.currentSubState, EffectiveRequestedState(req.requestedState)).Some?)
  }

  /** Rules 12.a to 12.e, in their order, and the fallback. */
  lemma EditRuleOrder(scope: AuthProvider.ApiScopeResult, req: ChangeRequest, now: int)
    requires ReachesEditRules(scope, req, now)
    ensures var r := ChangeState(scope, req, now);
      var edit := LookupTransition(UserEditMap, req.currentSubState, EffectiveRequestedState(req.requestedState));
      && (req.firstTimeAdvertiser ==>
            r.state == Pending && r.subState == "PreModeration" && r.reason == Rule12aReason && r.premodCheck && r.spamCheck)
      && (!req.firstTimeAdvertiser && IsPremiumPackage(req.adPackage) ==>
            r.state == Active && r.subState == "PostModeration" && r.reason == Rule12bReason && !r.premodCheck && r.spamCheck)
      && (!req.firstTimeAdvertiser && !IsPremiumPackage(req.adPackage) && (HasPremodCategory(req) || IsOwnerCars(req) || IsGiveAway(req.intention)) ==>
            r.state == Pending && r.subState == "PreModeration" && r.premodCheck && r.spamCheck)
      && (&& !req.firstTimeAdvertiser && !IsPremiumPackage(req.adPackage)
          && !HasPremodCategory(req) && !IsOwnerCars(req) && !IsGiveAway(req.intention) ==>
            if edit.Some? then Target(r.state, r.subState) == edit.value && r.reason == Rule12eReason && r.premodCheck && r.spamCheck
            else r == UnknownState(req.isEdit))
  {
  }

  /** Line 547: the premium fallback can never be returned, since rule 12.b takes every premium package first. */
  lemma UnknownStatePremiumUnreachable(scope: AuthProvider.ApiScopeResult, req: ChangeRequest, now: int)
    ensures ChangeState(scope, req, now) != UnknownStatePremium(req.isEdit)
  {
  }

  // ---------------------------------------------------------------------------
  // Worked cases

  /** A lookup in UserNoEditMap, for the worked cases below. */
  lemma NoEditEntry(current: string, requested: string, t: Target)
    requires TransitionKey(current, requested) in UserNoEditMap && UserNoEditMap[TransitionKey(current, requested)] == t
    ensures LookupTransition(UserNoEditMap, Some(current), requested) == Some(t)
  {
  }

  /** A moderator archiving a listing. */
  lemma ModeratorArchives(scope: AuthProvider.ApiScopeResult, req: ChangeRequest, now: int)
    requires scope.isModerator && ReachesRoleRules(req) && !IsUnpaidAccount(req.accountSubState)
    requires req.requestedState == "Archive"
    ensures ChangeState(scope, req, now).state == Archived
    ensures ChangeState(scope, req, now).subState == "AdminArchived"
  {
  }

  /** An unedited listing awaiting moderation stays there when its owner asks for it to go live. */
  lemma PreModeratedStaysPending(scope: AuthProvider.ApiScopeResult, req: ChangeRequest, now: int)
    requires ReachesListingRules(scope, req, now) && !req.isEdit
    requires req.currentSubState == Some("PreModeration") && req.requestedState == "Active"
    ensures ChangeState(scope, req, now).state == Pending
    ensures ChangeState(scope, req, now).subState == "PreModeration"
  {
    NoEditEntry("PreModeration", "Active", Target(Pending, "PreModeration"));
  }

  /** A promoted listing that its owner deactivates follows the UserNoEditMap. */
  lemma PromotedDeactivation(scope: AuthProvider.ApiScopeResult, req: ChangeRequest, now: int)
    requires !scope.isModerator && ReachesRoleRules(req) && IsPromoted(req.promotions, now)
    requires req.currentSubState == Some("Moderated") && req.requestedState == "Inactive"
    ensures ChangeState(scope, req, now).state == Inactive
    ensures ChangeState(scope, req, now).subState == "Deactivated"
  {
    NoEditEntry("Moderated", "Inactive", Target(Inactive, "Deactivated"));
  }

  /** An edited listing in a pre-moderated category is held for moderation. */
  lemma PremodCategoryHeld(scope: AuthProvider.ApiScopeResult, req: ChangeRequest, now: int)
    requires ReachesListingRules(scope, req, now) && req.isEdit
    requires !req.firstTimeAdvertiser && !IsPremiumPackage(req.adPackage) && req.category == "Pets"
    ensures ChangeState(scope, req, now).state == Pending
    ensures ChangeState(scope, req, now).subState == "PreModeration"
  {
    assert EqualsIgnoreCase(PremodCategories[0], req.category);
  }

  // ---------------------------------------------------------------------------
  // Adverts

  /**
   * The fields of BaseAdvert that ChangeStateAdvert passes on. BaseAdvert
   * is not part of this model; its Equals becomes the `equals` parameter.
   */
  datatype Advert = Advert(
    state: string,
    category: string,
    subCategory: string,
    subSubCategory: string,
    intention: string,
    adPromotions: seq<AdPromotion>)

  /**
   * ChangeStateAdvert (lines 575-607): ChangeState on the changed advert. The
   * edit flag is CheckChange (lines 615-620): the advert was edited when it
   * does not equal the stored one.
   */
  function ChangeStateAdvert(
    scope: AuthProvider.ApiScopeResult,
    state: string,
    subState: Option<string>,
    adPackage: string,
    adType: string,
    affiliateLink: string,
    accountSubState: string,
    source: string,
    existing: Advert,
    changed: Advert,
    firstTimeAdvertiser: bool,
    equals: (Advert, Advert) -> bool,
    now: int): (r: ChangeStateResult)
    ensures r.modified <==> !equals(existing, changed)
  {
    var isEdit := !equals(existing, changed);
    ChangeState(scope,
      ChangeRequest(state, subState, changed.state, adPackage, adType, affiliateLink, accountSubState,
        isEdit, firstTimeAdvertiser, changed.category, changed.subCategory, changed.subSubCategory,
        changed.intention, source, changed.adPromotions), now)
  }

  /** With a reflexive comparison, resubmitting the stored advert unchanged is never an edit. */
  lemma UnchangedAdvertIsNoEdit(
    scope: AuthProvider.ApiScopeResult, state: string, subState: Option<string>, adPackage: string, adType: string,
    affiliateLink: string, accountSubState: string, source: string, advert: Advert, firstTimeAdvertiser: bool,
    equals: (Advert, Advert) -> bool, now: int)
    requires forall a :: equals(a, a)
    ensures !ChangeStateAdvert(scope, state, subState, adPackage, adType, affiliateLink, accountSubState, source,
      advert, advert, firstTimeAdvertiser, equals, now).modified
  {
  }
}
