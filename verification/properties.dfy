/** Properties of a whole `calculateValuation` call. */
module ValuationProperties {
  import opened Wrappers
  import opened Model
  import opened Seqs
  import opened Lookups
  import opened Rounding
  import opened Valuation

  /** With no account positions the result is empty whatever the other collaborators return:
      they are not consulted, so not even a missing FX list fails the call. */
  lemma EmptyPositionsShortCircuit(accountIds: seq<string>, currencyCode: string, services: Collaborators)
    requires services.positions(accountIds).None? || services.positions(accountIds) == Some([])
    ensures CalculateValuation(accountIds, currencyCode, services) == Success([])
  {
  }

  /** Once both lookup maps are built, the call is the valuation of the fetched accounts. */
  lemma CalculateValuationUnfolds(accountIds: seq<string>, currencyCode: string, services: Collaborators,
                                  prices: map<string, Price>, fx: map<string, real>)
    requires |FetchedPositions(accountIds, services)| > 0
    requires PriceMap(RequestedPrices(accountIds, services)) == Success(prices)
    requires FxRatesMap(services.fxRates()) == Success(fx)
    ensures CalculateValuation(accountIds, currencyCode, services)
         == ValueAccounts(FetchedPositions(accountIds, services), currencyCode, prices, fx, RequestedRules(accountIds, services))
  {
  }

  /** Two prices for one asset fail the call with a duplicate-key error, before FX rates are read. */
  lemma DuplicatePricesFail(accountIds: seq<string>, currencyCode: string, services: Collaborators)
    requires |FetchedPositions(accountIds, services)| > 0
    requires !NoDuplicates(PricedAssets(OrEmpty(RequestedPrices(accountIds, services))))
    ensures CalculateValuation(accountIds, currencyCode, services).Failure?
    ensures CalculateValuation(accountIds, currencyCode, services).error.DuplicateKey?
  {
  }

  /** A null FX list fails a non-empty valuation with `FXRateNotFound` (once the prices were keyed). */
  lemma NullFxRatesFail(accountIds: seq<string>, currencyCode: string, services: Collaborators)
    requires |FetchedPositions(accountIds, services)| > 0
    requires PriceMap(RequestedPrices(accountIds, services)).Success?
    requires services.fxRates().None?
    ensures CalculateValuation(accountIds, currencyCode, services) == Failure(FXRateNotFound)
  {
  }

  /** A target currency missing from the FX table, or with a zero rate, fails every non-empty
      valuation with `CurrencyNotFound`; when every price currency is known, it names the target. */
  lemma UnknownTargetCurrencyFails(accountIds: seq<string>, currencyCode: string, services: Collaborators,
                                   prices: map<string, Price>, fx: map<string, real>)
    requires |FetchedPositions(accountIds, services)| > 0
    requires PriceMap(RequestedPrices(accountIds, services)) == Success(prices)
    requires FxRatesMap(services.fxRates()) == Success(fx)
    requires currencyCode !in fx || fx[currencyCode] == 0.0
    ensures CalculateValuation(accountIds, currencyCode, services).Failure?
    ensures CalculateValuation(accountIds, currencyCode, services).error.CurrencyNotFound?
    ensures PricesConvertible(prices, fx) ==>
      CalculateValuation(accountIds, currencyCode, services) == Failure(CurrencyNotFound(currencyCode))
  {
    var aps := FetchedPositions(accountIds, services);
    var rules := RequestedRules(accountIds, services);
    CalculateValuationUnfolds(accountIds, currencyCode, services, prices, fx);
    AccountsValuedIndependently(aps, currencyCode, prices, fx, rules);
    assert AccountValue(aps[0], currencyCode, prices, fx, rules).Failure?;
  }

  /** A priced position whose price currency is missing from the FX table fails the call with
      `CurrencyNotFound`. */
  lemma UnknownPriceCurrencyFailsValuation(accountIds: seq<string>, currencyCode: string, services: Collaborators,
                                           prices: map<string, Price>, fx: map<string, real>, a: nat, k: nat)
    requires PriceMap(RequestedPrices(accountIds, services)) == Success(prices)
    requires FxRatesMap(services.fxRates()) == Success(fx)
    requires a < |FetchedPositions(accountIds, services)| && k < |FetchedPositions(accountIds, services)[a].positions|
    requires FetchedPositions(accountIds, services)[a].positions[k].assetId in prices
    requires prices[FetchedPositions(accountIds, services)[a].positions[k].assetId].currency !in fx
    ensures CalculateValuation(accountIds, currencyCode, services).Failure?
    ensures CalculateValuation(accountIds, currencyCode, services).error.CurrencyNotFound?
  {
    var aps := FetchedPositions(accountIds, services);
    var rules := RequestedRules(accountIds, services);
    CalculateValuationUnfolds(accountIds, currencyCode, services, prices, fx);
    UnknownPriceCurrencyFails(aps[a].positions, aps[a].accountId, prices, fx, rules, k);
    AccountsValuedIndependently(aps, currencyCode, prices, fx, rules);
  }

  /** With a null or empty price list every account is valued 0 / 0. */
  lemma NoPricesNoValue(accountIds: seq<string>, currencyCode: string, services: Collaborators, fx: map<string, real>)
    requires OrEmpty(RequestedPrices(accountIds, services)) == []
    requires FxRatesMap(services.fxRates()) == Success(fx)
    requires currencyCode in fx && fx[currencyCode] != 0.0
    ensures CalculateValuation(accountIds, currencyCode, services).Success?
    ensures forall i :: 0 <= i < |CalculateValuation(accountIds, currencyCode, services).value| ==>
      && CalculateValuation(accountIds, currencyCode, services).value[i].collateralValue == 0.0
      && CalculateValuation(accountIds, currencyCode, services).value[i].marketValue == 0.0
  {
    var aps := FetchedPositions(accountIds, services);
    if |aps| > 0 {
      var rules := RequestedRules(accountIds, services);
      var prices: map<string, Price> := map[];
      var built := PriceMap(RequestedPrices(accountIds, services));
      assert PricedAssets([]) == [];
      assert built.Success? && built.value.Keys == {};
      assert built == Success(prices);
      CalculateValuationUnfolds(accountIds, currencyCode, services, prices, fx);
      forall i | 0 <= i < |aps|
        ensures AccountValue(aps[i], currencyCode, prices, fx, rules) == Success(Account(aps[i].accountId, 0.0, 0.0))
      {
        UnpricedAccountValuedZero(aps[i], currencyCode, prices, fx, rules);
      }
      AccountsValuedIndependently(aps, currencyCode, prices, fx, rules);
    }
  }

  /** Market values, and whether the call fails, do not depend on the eligibility collaborator. */
  lemma MarketValueIgnoresEligibility(accountIds: seq<string>, currencyCode: string, services: Collaborators,
                                      eligibility: (seq<string>, seq<string>) -> seq<Eligibility>)
    ensures CalculateValuation(accountIds, currencyCode, services).Success?
        == CalculateValuation(accountIds, currencyCode, services.(eligibility := eligibility)).Success?
    ensures CalculateValuation(accountIds, currencyCode, services).Success? ==>
      forall i :: 0 <= i < |CalculateValuation(accountIds, currencyCode, services).value| ==>
        CalculateValuation(accountIds, currencyCode, services).value[i].marketValue
          == CalculateValuation(accountIds, currencyCode, services.(eligibility := eligibility)).value[i].marketValue
    ensures CalculateValuation(accountIds, currencyCode, services).Failure? ==>
      CalculateValuation(accountIds, currencyCode, services).error
        == CalculateValuation(accountIds, currencyCode, services.(eligibility := eligibility)).error
  {
    var others := services.(eligibility := eligibility);
    var aps := FetchedPositions(accountIds, services);
    assert FetchedPositions(accountIds, others) == aps;
    assert RequestedPrices(accountIds, others) == RequestedPrices(accountIds, services);
    var prices := PriceMap(RequestedPrices(accountIds, services));
    var fx := FxRatesMap(services.fxRates());
    if |aps| > 0 && prices.Success? && fx.Success? {
      CalculateValuationUnfolds(accountIds, currencyCode, services, prices.value, fx.value);
      CalculateValuationUnfolds(accountIds, currencyCode, others, prices.value, fx.value);
      ValueAccountsMarketIgnoresEligibility(aps, currencyCode, prices.value, fx.value,
                                            RequestedRules(accountIds, services), RequestedRules(accountIds, others));
    }
  }

  /** With discounts in [0, 1], no negative holding and a positive target rate, every account's
      collateral value lies between 0 and its market value. */
  lemma CollateralAtMostMarketValue(accountIds: seq<string>, currencyCode: string, services: Collaborators,
                                    prices: map<string, Price>, fx: map<string, real>)
    requires PriceMap(RequestedPrices(accountIds, services)) == Success(prices)
    requires FxRatesMap(services.fxRates()) == Success(fx)
    requires currencyCode in fx && fx[currencyCode] > 0.0
    requires UnitDiscounts(RequestedRules(accountIds, services))
    requires forall a, k :: 0 <= a < |FetchedPositions(accountIds, services)| && 0 <= k < |FetchedPositions(accountIds, services)[a].positions| ==>
      NonNegativeHolding(FetchedPositions(accountIds, services)[a].positions[k], prices, fx)
    ensures CalculateValuation(accountIds, currencyCode, services).Success? ==>
      forall i :: 0 <= i < |CalculateValuation(accountIds, currencyCode, services).value| ==>
        0.0 <= CalculateValuation(accountIds, currencyCode, services).value[i].collateralValue
            <= CalculateValuation(accountIds, currencyCode, services).value[i].marketValue
  {
    var aps := FetchedPositions(accountIds, services);
    if |aps| > 0 {
      var rules := RequestedRules(accountIds, services);
      CalculateValuationUnfolds(accountIds, currencyCode, services, prices, fx);
      AccountsValuedIndependently(aps, currencyCode, prices, fx, rules);
      forall i | 0 <= i < |aps|
        ensures AccountValue(aps[i], currencyCode, prices, fx, rules).Success? ==>
          0.0 <= AccountValue(aps[i], currencyCode, prices, fx, rules).value.collateralValue
              <= AccountValue(aps[i], currencyCode, prices, fx, rules).value.marketValue
      {
        AccountCollateralWithinMarket(aps[i], currencyCode, prices, fx, rules);
      }
    }
  }
}
