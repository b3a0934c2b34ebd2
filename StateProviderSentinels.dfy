/**
 * The state engine as written, with its results as shared objects
 * (ApiGateway/Auth/StateProvider.cs, lines 42-47 and 285-287).
 *
 * UnknownState, UnknownStatePremium and AccountBanState are static
 * ChangeStateResult objects. Every call first sets their Modified to its
 * own isEdit and may then return one of them, so a result a caller still
 * holds changes under it when a later call runs. The value-returning
 * StateProvider.ChangeState is the intended behaviour, where each result
 * reports its own call's isEdit.
 */
module StateProviderSentinels {
  import opened StateProvider
  import AuthProvider

  /** A ChangeStateResult object, whose Modified property has a setter. */
  class ResultObject {
    var result: ChangeStateResult

    constructor (result: ChangeStateResult)
      ensures this.result == result
    {
      this.result := result;
    }
  }

  /** The three static sentinel objects, as the static initialiser creates them. */
  class Sentinels {
    const unknownState: ResultObject
    const unknownStatePremium: ResultObject
    const accountBanState: ResultObject

    /** Three distinct objects, each holding its sentinel's fields apart from Modified. */
    ghost predicate Valid()
      reads this, unknownState, unknownStatePremium, accountBanState
    {
      && unknownState != unknownStatePremium
      && unknownState != accountBanState
      && unknownStatePremium != accountBanState
      && unknownState.result == UnknownState(unknownState.result.modified)
      && unknownStatePremium.result == UnknownStatePremium(unknownStatePremium.result.modified)
      && accountBanState.result == AccountBanState(accountBanState.result.modified)
    }

    constructor ()
      ensures Valid()
      ensures fresh(unknownState) && fresh(unknownStatePremium) && fresh(accountBanState)
      ensures unknownState.result == UnknownState(true)
      ensures unknownStatePremium.result == UnknownStatePremium(true)
      ensures accountBanState.result == AccountBanState(true)
    {
      unknownState := new ResultObject(UnknownState(true));
      unknownStatePremium := new ResultObject(UnknownStatePremium(true));
      accountBanState := new ResultObject(AccountBanState(true));
    }
  }

  /**
   * ChangeState as written: the sentinels' Modified is overwritten, then the
   * decision is the sentinel object itself when a sentinel is the answer,
   * and a new object otherwise.
   */
  method ChangeStateShared(sentinels: Sentinels, scope: AuthProvider.ApiScopeResult, req: ChangeRequest, now: int)
    returns (r: ResultObject)
    requires sentinels.Valid()
    modifies sentinels.unknownState, sentinels.unknownStatePremium, sentinels.accountBanState
    ensures r.result == ChangeState(scope, req, now)
    ensures sentinels.Valid()
    ensures sentinels.unknownState.result == UnknownState(req.isEdit)
    ensures sentinels.unknownStatePremium.result == UnknownStatePremium(req.isEdit)
    ensures sentinels.accountBanState.result == AccountBanState(req.isEdit)
    ensures ChangeState(scope, req, now) == UnknownState(req.isEdit) ==> r == sentinels.unknownState
    ensures ChangeState(scope, req, now) == AccountBanState(req.isEdit) ==> r == sentinels.accountBanState
    ensures ChangeState(scope, req, now) != AccountBanState(req.isEdit) && ChangeState(scope, req, now) != UnknownState(req.isEdit)
      ==> fresh(r)
  {
    sentinels.unknownState.result := sentinels.unknownState.result.(modified := req.isEdit);
    sentinels.unknownStatePremium.result := sentinels.unknownStatePremium.result.(modified := req.isEdit);
    sentinels.accountBanState.result := sentinels.accountBanState.result.(modified := req.isEdit);
    var decision := ChangeState(scope, req, now);
    if decision == sentinels.unknownState.result {
      r := sentinels.unknownState;
    } else if decision == sentinels.accountBanState.result {
      r := sentinels.accountBanState;
    } else {
      r := new ResultObject(decision);
    }
  }

  /**
   * Two requests from a banned account, the first an edit and the second
   * not: both get the same AccountBanState object, and once the second call
   * has run, the first call's result says the listing was not modified.
   */
  method SentinelOverwritten(scope: AuthProvider.ApiScopeResult, first: ChangeRequest, second: ChangeRequest, now: int)
    returns (firstResult: ResultObject, secondResult: ResultObject)
    requires first.accountSubState == "AccountBan" && !IsAffiliateLink(first.affiliateLink) && !IsCcapSource(first.source)
    requires second.accountSubState == "AccountBan" && !IsAffiliateLink(second.affiliateLink) && !IsCcapSource(second.source)
    requires first.isEdit && !second.isEdit
    ensures firstResult == secondResult
    ensures ChangeState(scope, first, now).modified
    ensures !firstResult.result.modified
  {
    var sentinels := new Sentinels();
    firstResult := ChangeStateShared(sentinels, scope, first, now);
    assert firstResult == sentinels.accountBanState;
    secondResult := ChangeStateShared(sentinels, scope, second, now);
  }
}
