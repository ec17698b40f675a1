/** The scenarios of the service's unit tests, valued with exact arithmetic. */
module Scenarios {
  import opened Wrappers
  import opened Model
  import opened Seqs
  import opened Lookups
  import opened Rounding
  import opened Valuation
  import opened ValuationProperties

  /** The FX table every scenario uses. */
  const FxTable: seq<FXRate> := [FXRate("GBP", 1.28), FXRate("JPY", 0.0062), FXRate("USD", 1.0), FXRate("INR", 0.012), FXRate("EUR", 1.10)]

  const FxByCurrency: map<string, real> := map["GBP" := 1.28, "JPY" := 0.0062, "USD" := 1.0, "INR" := 0.012, "EUR" := 1.10]

  /** The positions the test fixture holds per account. */
  function Holdings(accountId: string): seq<Position> {
    if accountId == "E1" then [Position("S1", 100), Position("S3", 100), Position("S4", 100)]
    else if accountId == "E2" then [Position("S2", 200), Position("S5", 100)]
    else if accountId == "E3" then [Position("S7", 10), Position("S8", 10), Position("S9", 10)]
    else if accountId == "E4" then [Position("S10", 10), Position("S11", 10), Position("S12", 10)]
    else []
  }

  /** The fixture's position source: one record per requested account, in request order. */
  function FixturePositions(accountIds: seq<string>): Option<seq<AccountPosition>> {
    Some(seq(|accountIds|, i requires 0 <= i < |accountIds| => AccountPosition(accountIds[i], Holdings(accountIds[i]))))
  }

  /** Stubbed collaborators: eligibility and prices answer only the expected request and give an
      empty list for any other, as an unconfigured mock does. */
  function Stubs(accountIds: seq<string>, assetIds: seq<string>, rules: seq<Eligibility>, prices: seq<Price>): Collaborators {
    Collaborators(
      FixturePositions,
      (accounts, assets) => if accounts == accountIds && assets == assetIds then rules else [],
      assets => if assets == assetIds then Some(prices) else Some([]),
      () => Some(FxTable))
  }

  /** A price list with distinct assets is keyed into the map that lists exactly its prices. */
  lemma PricesKeyedAs(list: seq<Price>, m: map<string, Price>)
    requires NoDuplicates(PricedAssets(list))
    requires forall a :: a in m <==> a in PricedAssets(list)
    requires forall i :: 0 <= i < |list| ==> list[i].assetId in m && m[list[i].assetId] == list[i]
    ensures PriceMap(Some(list)) == Success(m)
  {
    var r := PriceMap(Some(list));
    forall a | a in r.value
      ensures a in m && r.value[a] == m[a]
    {
      var i :| 0 <= i < |list| && PricedAssets(list)[i] == a;
      assert list[i].assetId == a;
    }
    assert r.value.Keys == m.Keys;
    assert r.value == m;
  }

  /** An FX list with distinct currencies is keyed into the map that lists exactly its rates. */
  lemma RatesKeyedAs(list: seq<FXRate>, m: map<string, real>)
    requires NoDuplicates(CurrenciesOf(list))
    requires forall c :: c in m <==> c in CurrenciesOf(list)
    requires forall i :: 0 <= i < |list| ==> list[i].currency in m && m[list[i].currency] == list[i].multiplier
    ensures FxRatesMap(Some(list)) == Success(m)
  {
    var r := FxRatesMap(Some(list));
    forall c | c in r.value
      ensures c in m && r.value[c] == m[c]
    {
      var i :| 0 <= i < |list| && CurrenciesOf(list)[i] == c;
      assert list[i].currency == c;
    }
    assert r.value.Keys == m.Keys;
    assert r.value == m;
  }

  lemma FxTableKeyed()
    ensures FxRatesMap(Some(FxTable)) == Success(FxByCurrency)
  {
    assert CurrenciesOf(FxTable) == ["GBP", "JPY", "USD", "INR", "EUR"];
    RatesKeyedAs(FxTable, FxByCurrency);
  }

  const E1Prices: seq<Price> := [PriceInDefaultCurrency("S1", 50.5), PriceInDefaultCurrency("S3", 10.4), Price("S4", 15.5, "USD")]
  const E1PriceMap: map<string, Price> := map["S1" := E1Prices[0], "S3" := E1Prices[1], "S4" := E1Prices[2]]
  const E1Rules: seq<Eligibility> := [Eligibility(true, ["S1", "S3"], ["E1"], 0.9), Eligibility(false, ["S4"], ["E1"], 0.0)]

  lemma E1PricesKeyed()
    ensures PriceMap(Some(E1Prices)) == Success(E1PriceMap)
  {
    assert PricedAssets(E1Prices) == ["S1", "S3", "S4"];
    PricesKeyedAs(E1Prices, E1PriceMap);
  }

  /** An account's totals are its first contribution plus the totals of the other positions. */
  lemma TotalsUnfold(ps: seq<Position>, accountId: string, prices: map<string, Price>, fx: map<string, real>,
                     rules: seq<Eligibility>, first: Totals, rest: Totals)
    requires |ps| > 0
    requires Contribution(ps[0], accountId, prices, fx, rules) == Success(first)
    requires AccountTotals(ps[1..], accountId, prices, fx, rules) == Success(rest)
    ensures AccountTotals(ps, accountId, prices, fx, rules) == Success(first.Plus(rest))
  {
  }

  /** The totals of a single contributing position. */
  lemma TotalsOfOne(ps: seq<Position>, accountId: string, prices: map<string, Price>, fx: map<string, real>,
                    rules: seq<Eligibility>, a: Totals)
    requires |ps| == 1
    requires Contribution(ps[0], accountId, prices, fx, rules) == Success(a)
    ensures AccountTotals(ps, accountId, prices, fx, rules) == Success(a)
  {
    assert |ps[1..]| == 0;
    TotalsUnfold(ps, accountId, prices, fx, rules, a, NoValue);
    assert a.Plus(NoValue) == a;
  }

  /** The totals of two contributing positions. */
  lemma TotalsOfTwo(ps: seq<Position>, accountId: string, prices: map<string, Price>, fx: map<string, real>,
                    rules: seq<Eligibility>, a: Totals, b: Totals)
    requires |ps| == 2
    requires Contribution(ps[0], accountId, prices, fx, rules) == Success(a)
    requires Contribution(ps[1], accountId, prices, fx, rules) == Success(b)
    ensures AccountTotals(ps, accountId, prices, fx, rules) == Success(a.Plus(b))
  {
    assert ps[1..][0] == ps[1];
    TotalsOfOne(ps[1..], accountId, prices, fx, rules, b);
    TotalsUnfold(ps, accountId, prices, fx, rules, a, b);
  }

  /** The totals of three contributing positions. */
  lemma TotalsOfThree(ps: seq<Position>, accountId: string, prices: map<string, Price>, fx: map<string, real>,
                      rules: seq<Eligibility>, a: Totals, b: Totals, c: Totals)
    requires |ps| == 3
    requires Contribution(ps[0], accountId, prices, fx, rules) == Success(a)
    requires Contribution(ps[1], accountId, prices, fx, rules) == Success(b)
    requires Contribution(ps[2], accountId, prices, fx, rules) == Success(c)
    ensures AccountTotals(ps, accountId, prices, fx, rules) == Success(a.Plus(b.Plus(c)))
  {
    assert ps[1..][0] == ps[1] && ps[1..][1] == ps[2];
    TotalsOfTwo(ps[1..], accountId, prices, fx, rules, b, c);
    TotalsUnfold(ps, accountId, prices, fx, rules, a, b.Plus(c));
  }

  /** The contribution of a priced position from its rate, price, quantity and discount. */
  lemma PricedContribution(p: Position, accountId: string, prices: map<string, Price>, fx: map<string, real>,
                           rules: seq<Eligibility>, d: real, c: real, m: real)
    requires p.assetId in prices && prices[p.assetId].currency in fx
    requires DiscountFactor(rules, accountId, p.assetId) == d
    requires fx[prices[p.assetId].currency] * prices[p.assetId].price * p.quantity as real == m && m * d == c
    ensures Contribution(p, accountId, prices, fx, rules) == Success(Totals(c, m))
  {
    var r := Contribution(p, accountId, prices, fx, rules);
    assert r.Success? && r.value.market == m && r.value.collateral == c;
    assert r == Success(Totals(r.value.collateral, r.value.market));
  }

  /** E1 holds S1, S3 and S4, priced as in E1Prices; S1 and S3 at a 0.9 discount, S4 undiscounted. */
  lemma E1Totals(prices: map<string, Price>, rules: seq<Eligibility>)
    requires "S1" in prices && prices["S1"] == E1Prices[0]
    requires "S3" in prices && prices["S3"] == E1Prices[1]
    requires "S4" in prices && prices["S4"] == E1Prices[2]
    requires DiscountFactor(rules, "E1", "S1") == 0.9 && DiscountFactor(rules, "E1", "S3") == 0.9
    requires DiscountFactor(rules, "E1", "S4") == 0.0
    ensures AccountTotals(Holdings("E1"), "E1", prices, FxByCurrency, rules) == Success(Totals(7015.68, 9345.2))
  {
    var ps := [Position("S1", 100), Position("S3", 100), Position("S4", 100)];
    assert Holdings("E1") == ps;
    PricedContribution(ps[0], "E1", prices, FxByCurrency, rules, 0.9, 5817.6, 6464.0);
    PricedContribution(ps[1], "E1", prices, FxByCurrency, rules, 0.9, 1198.08, 1331.2);
    PricedContribution(ps[2], "E1", prices, FxByCurrency, rules, 0.0, 0.0, 1550.0);
    TotalsOfThree(ps, "E1", prices, FxByCurrency, rules, Totals(5817.6, 6464.0), Totals(1198.08, 1331.2), Totals(0.0, 1550.0));
  }

  /** An account row from its USD totals. */
  lemma AccountValueFromTotals(ap: AccountPosition, target: string, prices: map<string, Price>, fx: map<string, real>,
                               rules: seq<Eligibility>, collateral: real, market: real)
    requires AccountTotals(ap.positions, ap.accountId, prices, fx, rules) == Success(Totals(collateral, market))
    requires target in fx && fx[target] != 0.0
    ensures AccountValue(ap, target, prices, fx, rules)
         == Success(Account(ap.accountId, FormatValue(collateral / fx[target]), FormatValue(market / fx[target])))
  {
    AccountValueUnfolds(ap, target, prices, fx, rules);
    var r := AccountValue(ap, target, prices, fx, rules);
    assert r == Success(r.value);
  }

  /** The rows of two accounts from the rows of each. */
  lemma TwoAccounts(first: AccountPosition, second: AccountPosition, target: string, prices: map<string, Price>,
                    fx: map<string, real>, rules: seq<Eligibility>, a: Account, b: Account)
    requires AccountValue(first, target, prices, fx, rules) == Success(a)
    requires AccountValue(second, target, prices, fx, rules) == Success(b)
    ensures ValueAccounts([first, second], target, prices, fx, rules) == Success([a, b])
  {
    assert [first, second][0] == first && [first, second][1..] == [second];
    OneAccount(second, target, prices, fx, rules, b);
    assert [a] + [b] == [a, b];
  }

  /** The row of one account. */
  lemma OneAccount(ap: AccountPosition, target: string, prices: map<string, Price>,
                   fx: map<string, real>, rules: seq<Eligibility>, a: Account)
    requires AccountValue(ap, target, prices, fx, rules) == Success(a)
    ensures ValueAccounts([ap], target, prices, fx, rules) == Success([a])
  {
    assert [ap][0] == ap && [ap][1..] == [];
    assert ValueAccounts([], target, prices, fx, rules) == Success([]);
    assert [a] + [] == [a];
  }

  /** The fixture answers a one-account request with that account's holdings. */
  lemma FixtureOfOne(accountId: string, assetIds: seq<string>, rules: seq<Eligibility>, prices: seq<Price>)
    ensures FetchedPositions([accountId], Stubs([accountId], assetIds, rules, prices))
         == [AccountPosition(accountId, Holdings(accountId))]
  {
    var aps := FetchedPositions([accountId], Stubs([accountId], assetIds, rules, prices));
    assert |aps| == 1 && aps[0] == AccountPosition(accountId, Holdings(accountId));
  }

  /** The assets of a single account are those of its positions. */
  lemma AssetsOfOne(ap: AccountPosition)
    ensures AllAssetIds([ap]) == AssetIdsOf(ap.positions)
  {
    assert [ap][0] == ap && [ap][1..] == [];
    assert AssetIdsOf(ap.positions) + [] == AssetIdsOf(ap.positions);
  }

  /** The E1 request asks for S1, S3 and S4, in that order. */
  lemma E1Requests()
    ensures FetchedPositions(["E1"], Stubs(["E1"], ["S1", "S3", "S4"], E1Rules, E1Prices)) == [AccountPosition("E1", Holdings("E1"))]
    ensures ExtractAssetIds([AccountPosition("E1", Holdings("E1"))]) == ["S1", "S3", "S4"]
  {
    FixtureOfOne("E1", ["S1", "S3", "S4"], E1Rules, E1Prices);
    AssetsOfOne(AccountPosition("E1", Holdings("E1")));
    assert AssetIdsOf(Holdings("E1")) == ["S1", "S3", "S4"];
    DistinctOfDuplicateFree(["S1", "S3", "S4"]);
  }


  /** Account E1 in USD: collateral 7015.68, market 9345.20. */
  lemma MixedPositionsSingleAccountUsd()
    ensures CalculateValuation(["E1"], "USD", Stubs(["E1"], ["S1", "S3", "S4"], E1Rules, E1Prices))
         == Success([Account("E1", 7015.68, 9345.20)])
  {
    var services := Stubs(["E1"], ["S1", "S3", "S4"], E1Rules, E1Prices);
    var ap := AccountPosition("E1", Holdings("E1"));
    E1Requests();
    E1PricesKeyed();
    FxTableKeyed();
    CalculateValuationUnfolds(["E1"], "USD", services, E1PriceMap, FxByCurrency);
    E1UsdRow();
    OneAccount(ap, "USD", E1PriceMap, FxByCurrency, E1Rules, Account("E1", 7015.68, 9345.20));
  }

  lemma E1UsdRow()
    ensures AccountValue(AccountPosition("E1", Holdings("E1")), "USD", E1PriceMap, FxByCurrency, E1Rules)
         == Success(Account("E1", 7015.68, 9345.20))
  {
    var ap := AccountPosition("E1", Holdings("E1"));
    assert DiscountFactor(E1Rules, "E1", "S1") == 0.9 && DiscountFactor(E1Rules, "E1", "S3") == 0.9;
    assert DiscountFactor(E1Rules, "E1", "S4") == 0.0;
    E1Totals(E1PriceMap, E1Rules);
    AccountValueFromTotals(ap, "USD", E1PriceMap, FxByCurrency, E1Rules, 7015.68, 9345.2);
    FormatValueOfCents(7015.68);
    FormatValueOfCents(9345.20);
  }

  /** Account E1 in INR: collateral 584640.00, market 778766.67 (778766.666… rounded). */
  lemma MixedPositionsSingleAccountInr()
    ensures CalculateValuation(["E1"], "INR", Stubs(["E1"], ["S1", "S3", "S4"], E1Rules, E1Prices))
         == Success([Account("E1", 584640.0, 778766.67)])
  {
    var services := Stubs(["E1"], ["S1", "S3", "S4"], E1Rules, E1Prices);
    var ap := AccountPosition("E1", Holdings("E1"));
    E1Requests();
    E1PricesKeyed();
    FxTableKeyed();
    CalculateValuationUnfolds(["E1"], "INR", services, E1PriceMap, FxByCurrency);
    E1InrRow();
    OneAccount(ap, "INR", E1PriceMap, FxByCurrency, E1Rules, Account("E1", 584640.0, 778766.67));
  }

  lemma E1InrRow()
    ensures AccountValue(AccountPosition("E1", Holdings("E1")), "INR", E1PriceMap, FxByCurrency, E1Rules)
         == Success(Account("E1", 584640.0, 778766.67))
  {
    var ap := AccountPosition("E1", Holdings("E1"));
    assert DiscountFactor(E1Rules, "E1", "S1") == 0.9 && DiscountFactor(E1Rules, "E1", "S3") == 0.9;
    assert DiscountFactor(E1Rules, "E1", "S4") == 0.0;
    E1Totals(E1PriceMap, E1Rules);
    AccountValueFromTotals(ap, "INR", E1PriceMap, FxByCurrency, E1Rules, 7015.68, 9345.2);
    assert 7015.68 / 0.012 == 584640.0;
    FormatValueOfCents(584640.0);
    FormatValueUnique(9345.2 / 0.012, 778766.67);
  }

  /** An unknown target currency fails the call. The unit test for this case expects 0 / 0
      instead; the service raises `CurrencyNotFound`, and the model follows the service. */
  lemma InvalidCurrencyFails()
    ensures CalculateValuation(["E1"], "InvalidCurrency", Stubs(["E1"], ["S1", "S3", "S4"], E1Rules, E1Prices))
         == Failure(CurrencyNotFound("InvalidCurrency"))
  {
    var services := Stubs(["E1"], ["S1", "S3", "S4"], E1Rules, E1Prices);
    E1Requests();
    E1PricesKeyed();
    FxTableKeyed();
    assert "InvalidCurrency" !in FxByCurrency;
    forall a | a in E1PriceMap
      ensures E1PriceMap[a].currency in FxByCurrency
    {
      assert a == "S1" || a == "S3" || a == "S4";
    }
    UnknownTargetCurrencyFails(["E1"], "InvalidCurrency", services, E1PriceMap, FxByCurrency);
  }

  const E3Prices: seq<Price> := [PriceInDefaultCurrency("S7", 50.5), PriceInDefaultCurrency("S8", 10.4), Price("S9", 15.5, "USD")]
  const E3PriceMap: map<string, Price> := map["S7" := E3Prices[0], "S8" := E3Prices[1], "S9" := E3Prices[2]]
  const E3Rules: seq<Eligibility> := [Eligibility(true, ["S7", "S8", "S9"], ["E3"], 0.9)]

  /** Account E3 in USD, every position eligible: collateral 841.07 (841.068 rounded), market 934.52. */
  lemma EligiblePositionsSingleAccountUsd()
    ensures CalculateValuation(["E3"], "USD", Stubs(["E3"], ["S7", "S8", "S9"], E3Rules, E3Prices))
         == Success([Account("E3", 841.07, 934.52)])
  {
    var services := Stubs(["E3"], ["S7", "S8", "S9"], E3Rules, E3Prices);
    var ap := AccountPosition("E3", Holdings("E3"));
    E3Requests();
    E3PricesKeyed();
    FxTableKeyed();
    CalculateValuationUnfolds(["E3"], "USD", services, E3PriceMap, FxByCurrency);
    E3UsdRow();
    OneAccount(ap, "USD", E3PriceMap, FxByCurrency, E3Rules, Account("E3", 841.07, 934.52));
  }

  lemma E3UsdRow()
    ensures AccountValue(AccountPosition("E3", Holdings("E3")), "USD", E3PriceMap, FxByCurrency, E3Rules)
         == Success(Account("E3", 841.07, 934.52))
  {
    var ap := AccountPosition("E3", Holdings("E3"));
    E3Totals();
    AccountValueFromTotals(ap, "USD", E3PriceMap, FxByCurrency, E3Rules, 841.068, 934.52);
    FormatValueUnique(841.068, 841.07);
    FormatValueOfCents(934.52);
  }

  lemma E3Requests()
    ensures FetchedPositions(["E3"], Stubs(["E3"], ["S7", "S8", "S9"], E3Rules, E3Prices)) == [AccountPosition("E3", Holdings("E3"))]
    ensures ExtractAssetIds([AccountPosition("E3", Holdings("E3"))]) == ["S7", "S8", "S9"]
  {
    FixtureOfOne("E3", ["S7", "S8", "S9"], E3Rules, E3Prices);
    AssetsOfOne(AccountPosition("E3", Holdings("E3")));
    assert AssetIdsOf(Holdings("E3")) == ["S7", "S8", "S9"];
    DistinctOfDuplicateFree(["S7", "S8", "S9"]);
  }


  lemma E3PricesKeyed()
    ensures PriceMap(Some(E3Prices)) == Success(E3PriceMap)
  {
    assert PricedAssets(E3Prices) == ["S7", "S8", "S9"];
    PricesKeyedAs(E3Prices, E3PriceMap);
  }

  lemma E3Totals()
    ensures AccountTotals(Holdings("E3"), "E3", E3PriceMap, FxByCurrency, E3Rules) == Success(Totals(841.068, 934.52))
  {
    var ps := Holdings("E3");
    var rules := E3Rules;
    var prices := E3PriceMap;
    assert DiscountFactor(rules, "E3", "S7") == 0.9 && DiscountFactor(rules, "E3", "S8") == 0.9;
    assert DiscountFactor(rules, "E3", "S9") == 0.9;
    assert Contribution(ps[0], "E3", prices, FxByCurrency, rules) == Success(Totals(581.76, 646.4));
    assert Contribution(ps[1], "E3", prices, FxByCurrency, rules) == Success(Totals(119.808, 133.12));
    assert Contribution(ps[2], "E3", prices, FxByCurrency, rules) == Success(Totals(139.5, 155.0));
    TotalsOfThree(ps, "E3", prices, FxByCurrency, rules, Totals(581.76, 646.4), Totals(119.808, 133.12), Totals(139.5, 155.0));
  }

  const E4Prices: seq<Price> := [PriceInDefaultCurrency("S10", 50.5), PriceInDefaultCurrency("S11", 10.4), Price("S12", 15.5, "USD")]
  const E4PriceMap: map<string, Price> := map["S10" := E4Prices[0], "S11" := E4Prices[1], "S12" := E4Prices[2]]
  const E4Rules: seq<Eligibility> := [Eligibility(false, ["S10", "S11", "S12"], ["E4"], 0.0)]

  lemma E4Requests()
    ensures FetchedPositions(["E4"], Stubs(["E4"], ["S10", "S11", "S12"], E4Rules, E4Prices)) == [AccountPosition("E4", Holdings("E4"))]
    ensures ExtractAssetIds([AccountPosition("E4", Holdings("E4"))]) == ["S10", "S11", "S12"]
  {
    FixtureOfOne("E4", ["S10", "S11", "S12"], E4Rules, E4Prices);
    AssetsOfOne(AccountPosition("E4", Holdings("E4")));
    assert AssetIdsOf(Holdings("E4")) == ["S10", "S11", "S12"];
    DistinctOfDuplicateFree(["S10", "S11", "S12"]);
  }


  lemma E4PricesKeyed()
    ensures PriceMap(Some(E4Prices)) == Success(E4PriceMap)
  {
    assert PricedAssets(E4Prices) == ["S10", "S11", "S12"];
    PricesKeyedAs(E4Prices, E4PriceMap);
  }

  lemma E4Totals()
    ensures AccountTotals(Holdings("E4"), "E4", E4PriceMap, FxByCurrency, E4Rules) == Success(Totals(0.0, 934.52))
  {
    var ps := Holdings("E4");
    var rules := E4Rules;
    var prices := E4PriceMap;
    assert DiscountFactor(rules, "E4", "S10") == 0.0 && DiscountFactor(rules, "E4", "S11") == 0.0;
    assert DiscountFactor(rules, "E4", "S12") == 0.0;
    assert Contribution(ps[0], "E4", prices, FxByCurrency, rules) == Success(Totals(0.0, 646.4));
    assert Contribution(ps[1], "E4", prices, FxByCurrency, rules) == Success(Totals(0.0, 133.12));
    assert Contribution(ps[2], "E4", prices, FxByCurrency, rules) == Success(Totals(0.0, 155.0));
    TotalsOfThree(ps, "E4", prices, FxByCurrency, rules, Totals(0.0, 646.4), Totals(0.0, 133.12), Totals(0.0, 155.0));
  }

  /** Account E4 in USD, every position explicitly ineligible: collateral 0, market 934.52. */
  lemma IneligiblePositionsSingleAccountUsd()
    ensures CalculateValuation(["E4"], "USD", Stubs(["E4"], ["S10", "S11", "S12"], E4Rules, E4Prices))
         == Success([Account("E4", 0.0, 934.52)])
  {
    var services := Stubs(["E4"], ["S10", "S11", "S12"], E4Rules, E4Prices);
    var ap := AccountPosition("E4", Holdings("E4"));
    E4Requests();
    E4PricesKeyed();
    FxTableKeyed();
    CalculateValuationUnfolds(["E4"], "USD", services, E4PriceMap, FxByCurrency);
    E4UsdRow();
    OneAccount(ap, "USD", E4PriceMap, FxByCurrency, E4Rules, Account("E4", 0.0, 934.52));
  }

  lemma E4UsdRow()
    ensures AccountValue(AccountPosition("E4", Holdings("E4")), "USD", E4PriceMap, FxByCurrency, E4Rules)
         == Success(Account("E4", 0.0, 934.52))
  {
    var ap := AccountPosition("E4", Holdings("E4"));
    E4Totals();
    AccountValueFromTotals(ap, "USD", E4PriceMap, FxByCurrency, E4Rules, 0.0, 934.52);
    FormatValueZero();
    FormatValueOfCents(934.52);
  }

  const BothAssets: seq<string> := ["S1", "S3", "S4", "S2", "S5"]
  const BothPrices: seq<Price> := E1Prices + [Price("S2", 20.2, "JPY"), Price("S5", 15.5, "EUR")]
  const BothPriceMap: map<string, Price> := E1PriceMap["S2" := BothPrices[3]]["S5" := BothPrices[4]]
  const BothRules: seq<Eligibility> := [Eligibility(true, ["S1", "S3", "S2"], ["E1", "E2"], 0.9),
                                        Eligibility(false, ["S4", "S5"], ["E1", "E2"], 0.0)]

  lemma BothRequests()
    ensures FetchedPositions(["E1", "E2"], Stubs(["E1", "E2"], BothAssets, BothRules, BothPrices))
         == [AccountPosition("E1", Holdings("E1")), AccountPosition("E2", Holdings("E2"))]
    ensures ExtractAssetIds([AccountPosition("E1", Holdings("E1")), AccountPosition("E2", Holdings("E2"))]) == BothAssets
  {
    var aps := [AccountPosition("E1", Holdings("E1")), AccountPosition("E2", Holdings("E2"))];
    assert aps[1..][1..] == [];
    assert AllAssetIds(aps[1..]) == ["S2", "S5"];
    assert AllAssetIds(aps) == BothAssets;
    DistinctOfDuplicateFree(BothAssets);
  }

  lemma BothPricesKeyed()
    ensures PriceMap(Some(BothPrices)) == Success(BothPriceMap)
  {
    assert PricedAssets(BothPrices) == BothAssets;
    PricesKeyedAs(BothPrices, BothPriceMap);
  }

  lemma E2Totals()
    ensures AccountTotals(Holdings("E2"), "E2", BothPriceMap, FxByCurrency, BothRules) == Success(Totals(22.5432, 1730.048))
  {
    var ps := Holdings("E2");
    var rules := BothRules;
    var prices := BothPriceMap;
    assert DiscountFactor(rules, "E2", "S2") == 0.9 && DiscountFactor(rules, "E2", "S5") == 0.0;
    assert Contribution(ps[0], "E2", prices, FxByCurrency, rules) == Success(Totals(22.5432, 25.048));
    assert Contribution(ps[1], "E2", prices, FxByCurrency, rules) == Success(Totals(0.0, 1705.0));
    TotalsOfTwo(ps, "E2", prices, FxByCurrency, rules, Totals(22.5432, 25.048), Totals(0.0, 1705.0));
  }

  /** Accounts E1 and E2 in USD, in request order: E1 as before, E2 22.54 / 1730.05. */
  lemma MixedPositionsMultipleAccountsUsd()
    ensures CalculateValuation(["E1", "E2"], "USD", Stubs(["E1", "E2"], BothAssets, BothRules, BothPrices))
         == Success([Account("E1", 7015.68, 9345.20), Account("E2", 22.54, 1730.05)])
  {
    var services := Stubs(["E1", "E2"], BothAssets, BothRules, BothPrices);
    var e1, e2 := AccountPosition("E1", Holdings("E1")), AccountPosition("E2", Holdings("E2"));
    BothRequests();
    BothPricesKeyed();
    FxTableKeyed();
    CalculateValuationUnfolds(["E1", "E2"], "USD", services, BothPriceMap, FxByCurrency);
    BothE1Row();
    BothE2Row();
    TwoAccounts(e1, e2, "USD", BothPriceMap, FxByCurrency, BothRules, Account("E1", 7015.68, 9345.20), Account("E2", 22.54, 1730.05));
  }

  lemma BothE1Row()
    ensures AccountValue(AccountPosition("E1", Holdings("E1")), "USD", BothPriceMap, FxByCurrency, BothRules)
         == Success(Account("E1", 7015.68, 9345.20))
  {
    assert DiscountFactor(BothRules, "E1", "S1") == 0.9 && DiscountFactor(BothRules, "E1", "S3") == 0.9;
    assert DiscountFactor(BothRules, "E1", "S4") == 0.0;
    E1Totals(BothPriceMap, BothRules);
    AccountValueFromTotals(AccountPosition("E1", Holdings("E1")), "USD", BothPriceMap, FxByCurrency, BothRules, 7015.68, 9345.2);
    FormatValueOfCents(7015.68);
    FormatValueOfCents(9345.20);
  }

  lemma BothE2Row()
    ensures AccountValue(AccountPosition("E2", Holdings("E2")), "USD", BothPriceMap, FxByCurrency, BothRules)
         == Success(Account("E2", 22.54, 1730.05))
  {
    E2Totals();
    AccountValueFromTotals(AccountPosition("E2", Holdings("E2")), "USD", BothPriceMap, FxByCurrency, BothRules, 22.5432, 1730.048);
    FormatValueUnique(22.5432, 22.54);
    FormatValueUnique(1730.048, 1730.05);
  }

  /** With an empty price list both accounts are valued 0 / 0. */
  lemma NoPricesMultipleAccounts()
    ensures CalculateValuation(["E1", "E2"], "USD", Stubs(["E1", "E2"], BothAssets, BothRules, []))
         == Success([Account("E1", 0.0, 0.0), Account("E2", 0.0, 0.0)])
  {
    var services := Stubs(["E1", "E2"], BothAssets, BothRules, []);
    var aps := FetchedPositions(["E1", "E2"], services);
    assert aps[0].accountId == "E1" && aps[1].accountId == "E2";
    assert OrEmpty(RequestedPrices(["E1", "E2"], services)) == [];
    FxTableKeyed();
    NoPricesNoValue(["E1", "E2"], "USD", services, FxByCurrency);
    var r := CalculateValuation(["E1", "E2"], "USD", services);
    assert |r.value| == 2;
    assert r.value[0] == Account("E1", 0.0, 0.0) && r.value[1] == Account("E2", 0.0, 0.0);
    assert r.value == [Account("E1", 0.0, 0.0), Account("E2", 0.0, 0.0)];
  }

  /** An empty account list values nothing. */
  lemma EmptyAccountList()
    ensures CalculateValuation([], "USD", Stubs([], [], [], [])) == Success([])
  {
    assert FixturePositions([]).value == [];
    EmptyPositionsShortCircuit([], "USD", Stubs([], [], [], []));
  }
}
