/** The per-position, per-account and whole-call computations of `calculateValuation`. */
module Valuation {
  import opened Wrappers
  import opened Model
  import opened Seqs
  import opened Lookups
  import opened Rounding

  // ---------------------------------------------------------------- currency conversion

  /** `getUsdPrice`: an amount in `currency` expressed in USD; an unknown currency is an error. */
  function UsdPrice(fx: map<string, real>, currency: string, value: real): (r: Result<real, Error>)
    ensures r.Success? <==> currency in fx
    ensures r.Failure? ==> r.error == CurrencyNotFound(currency)
  {
    if currency !in fx then Failure(CurrencyNotFound(currency)) else Success(fx[currency] * value)
  }

  /** `getValueBasedOnCurrency`: a USD amount expressed in `currency`; an unknown currency or a
      zero rate is an error. Converting the result back to USD gives the amount again. */
  function ValueInCurrency(fx: map<string, real>, currency: string, usdAmount: real): (r: Result<real, Error>)
    ensures r.Success? <==> currency in fx && fx[currency] != 0.0
    ensures r.Failure? ==> r.error == CurrencyNotFound(currency)
    ensures r.Success? ==> UsdPrice(fx, currency, r.value) == Success(usdAmount)
  {
    if currency !in fx || fx[currency] == 0.0 then Failure(CurrencyNotFound(currency))
    else
      var rate := fx[currency];
      assert rate * (usdAmount / rate) == usdAmount;
      assert UsdPrice(fx, currency, usdAmount / rate).value == rate * (usdAmount / rate);
      Success(usdAmount / rate)
  }

  // ---------------------------------------------------------------- one account

  /** The two USD accumulators of one account. */
  datatype Totals = Totals(collateral: real, market: real) {
    function Plus(other: Totals): Totals {
      Totals(collateral + other.collateral, market + other.market)
    }
  }

  const NoValue := Totals(0.0, 0.0)

  /** Every price is quoted in a currency the FX table knows. */
  ghost predicate PricesConvertible(prices: map<string, Price>, fx: map<string, real>) {
    forall a :: a in prices ==> prices[a].currency in fx
  }

  /** What one position adds to its account's totals: nothing when its asset has no price,
      otherwise its USD value to the market total and that value times the discount to the
      collateral total. */
  function Contribution(p: Position, accountId: string, prices: map<string, Price>, fx: map<string, real>,
                        rules: seq<Eligibility>): (r: Result<Totals, Error>)
    ensures r.Failure? <==> p.assetId in prices && prices[p.assetId].currency !in fx
    ensures r.Failure? ==> r.error == CurrencyNotFound(prices[p.assetId].currency)
    ensures r.Success? && p.assetId !in prices ==> r.value == NoValue
    ensures r.Success? && p.assetId in prices ==>
      && r.value.market == fx[prices[p.assetId].currency] * prices[p.assetId].price * p.quantity as real
      && r.value.collateral == r.value.market * DiscountFactor(rules, accountId, p.assetId)
  {
    if p.assetId !in prices then Success(NoValue)
    else
      var price := prices[p.assetId];
      var discount := DiscountFactor(rules, accountId, p.assetId);
      var usdPrice :- UsdPrice(fx, price.currency, price.price);
      Success(Totals(usdPrice * p.quantity as real * discount, usdPrice * p.quantity as real))
  }

  /** Every priced position of the account is quoted in a currency the FX table knows. */
  ghost predicate AccountConvertible(ps: seq<Position>, prices: map<string, Price>, fx: map<string, real>) {
    forall k :: 0 <= k < |ps| && ps[k].assetId in prices ==> prices[ps[k].assetId].currency in fx
  }

  /** The USD totals of one account, position by position; the first position whose price
      currency is unknown aborts the valuation. */
  function AccountTotals(ps: seq<Position>, accountId: string, prices: map<string, Price>, fx: map<string, real>,
                         rules: seq<Eligibility>): (r: Result<Totals, Error>)
    ensures r.Success? <==> AccountConvertible(ps, prices, fx)
    ensures PricesConvertible(prices, fx) ==> r.Success?
    ensures r.Failure? ==> r.error.CurrencyNotFound? && r.error.currency !in fx
  {
    if |ps| == 0 then Success(NoValue)
    else
      assert forall k :: 1 <= k < |ps| ==> ps[k] == ps[1..][k - 1];
      var t :- Contribution(ps[0], accountId, prices, fx, rules);
      var rest :- AccountTotals(ps[1..], accountId, prices, fx, rules);
      Success(t.Plus(rest))
  }

  /** The `for` loop over an account's positions as written: two accumulators, a skipped
      position when its asset has no price, otherwise the USD price times the quantity added to
      the market total and that amount times the discount added to the collateral total. */
  function LoopTotals(ps: seq<Position>, accountId: string, prices: map<string, Price>, fx: map<string, real>,
                      rules: seq<Eligibility>, acc: Totals): Result<Totals, Error>
  {
    if |ps| == 0 then Success(acc)
    else if ps[0].assetId !in prices then LoopTotals(ps[1..], accountId, prices, fx, rules, acc)
    else
      var price := prices[ps[0].assetId];
      var discount := DiscountFactor(rules, accountId, ps[0].assetId);
      var usdPrice :- UsdPrice(fx, price.currency, price.price);
      LoopTotals(ps[1..], accountId, prices, fx, rules,
                 Totals(acc.collateral + usdPrice * ps[0].quantity as real * discount,
                        acc.market + usdPrice * ps[0].quantity as real))
  }

  /** Summing the contributions equals running the loop: starting from any accumulators, the
      loop ends at those accumulators plus the account's totals, or with the same error. */
  lemma {:induction false} AccountTotalsIsTheLoop(ps: seq<Position>, accountId: string, prices: map<string, Price>,
                                                  fx: map<string, real>, rules: seq<Eligibility>, acc: Totals)
    ensures LoopTotals(ps, accountId, prices, fx, rules, acc).Success? == AccountTotals(ps, accountId, prices, fx, rules).Success?
    ensures AccountTotals(ps, accountId, prices, fx, rules).Success? ==>
      LoopTotals(ps, accountId, prices, fx, rules, acc).value == acc.Plus(AccountTotals(ps, accountId, prices, fx, rules).value)
    ensures AccountTotals(ps, accountId, prices, fx, rules).Failure? ==>
      LoopTotals(ps, accountId, prices, fx, rules, acc).error == AccountTotals(ps, accountId, prices, fx, rules).error
  {
    if |ps| > 0 {
      var c := Contribution(ps[0], accountId, prices, fx, rules);
      LoopStep(ps, accountId, prices, fx, rules, acc);
      if c.Success? {
        AccountTotalsIsTheLoop(ps[1..], accountId, prices, fx, rules, acc.Plus(c.value));
      }
    }
  }

  /** One turn of the loop adds the first position's contribution, or stops with its error. */
  lemma LoopStep(ps: seq<Position>, accountId: string, prices: map<string, Price>, fx: map<string, real>,
                 rules: seq<Eligibility>, acc: Totals)
    requires |ps| > 0
    ensures Contribution(ps[0], accountId, prices, fx, rules).Success? ==>
      LoopTotals(ps, accountId, prices, fx, rules, acc)
        == LoopTotals(ps[1..], accountId, prices, fx, rules, acc.Plus(Contribution(ps[0], accountId, prices, fx, rules).value))
    ensures Contribution(ps[0], accountId, prices, fx, rules).Failure? ==>
      LoopTotals(ps, accountId, prices, fx, rules, acc) == Failure(Contribution(ps[0], accountId, prices, fx, rules).error)
  {
    var c := Contribution(ps[0], accountId, prices, fx, rules);
    if c.Success? && ps[0].assetId !in prices {
      assert acc.Plus(c.value) == acc;
    }
  }

  /** The loop started from zero accumulators computes exactly the account's totals. */
  lemma LoopFromZeroIsAccountTotals(ps: seq<Position>, accountId: string, prices: map<string, Price>,
                                    fx: map<string, real>, rules: seq<Eligibility>)
    ensures LoopTotals(ps, accountId, prices, fx, rules, NoValue) == AccountTotals(ps, accountId, prices, fx, rules)
  {
    AccountTotalsIsTheLoop(ps, accountId, prices, fx, rules, NoValue);
    var t := AccountTotals(ps, accountId, prices, fx, rules);
    var l := LoopTotals(ps, accountId, prices, fx, rules, NoValue);
    if t.Success? {
      assert l.value == t.value;
      assert l == Success(l.value) && t == Success(t.value);
    } else {
      assert l == Failure(l.error) && t == Failure(t.error);
    }
  }

  /** The totals of two runs of positions are the sums of their totals; the concatenation can be
      valued exactly when both runs can. */
  lemma {:induction false} AccountTotalsAppend(ps: seq<Position>, qs: seq<Position>, accountId: string,
                                               prices: map<string, Price>, fx: map<string, real>, rules: seq<Eligibility>)
    ensures AccountTotals(ps + qs, accountId, prices, fx, rules).Success? <==>
      AccountTotals(ps, accountId, prices, fx, rules).Success? && AccountTotals(qs, accountId, prices, fx, rules).Success?
    ensures AccountTotals(ps + qs, accountId, prices, fx, rules).Success? ==>
      AccountTotals(ps + qs, accountId, prices, fx, rules).value
        == AccountTotals(ps, accountId, prices, fx, rules).value.Plus(AccountTotals(qs, accountId, prices, fx, rules).value)
  {
    if |ps| == 0 {
      assert ps + qs == qs;
    } else {
      assert (ps + qs)[0] == ps[0] && (ps + qs)[1..] == ps[1..] + qs;
      AccountTotalsAppend(ps[1..], qs, accountId, prices, fx, rules);
    }
  }

  /** A position that no eligible rule covers for its account adds nothing to the collateral total. */
  lemma UncoveredPositionAddsNoCollateral(p: Position, accountId: string, prices: map<string, Price>,
                                          fx: map<string, real>, rules: seq<Eligibility>)
    requires forall j :: 0 <= j < |rules| ==> !Applies(rules[j], accountId, p.assetId)
    ensures Contribution(p, accountId, prices, fx, rules).Success? ==>
      Contribution(p, accountId, prices, fx, rules).value.collateral == 0.0
  {
    DiscountWithoutApplicableRule(rules, accountId, p.assetId);
  }

  /** A position whose price is quoted in an unknown currency makes the whole account fail. */
  lemma {:induction false} UnknownPriceCurrencyFails(ps: seq<Position>, accountId: string, prices: map<string, Price>,
                                                     fx: map<string, real>, rules: seq<Eligibility>, i: nat)
    requires i < |ps| && ps[i].assetId in prices && prices[ps[i].assetId].currency !in fx
    ensures AccountTotals(ps, accountId, prices, fx, rules).Failure?
  {
    if i > 0 && Contribution(ps[0], accountId, prices, fx, rules).Success? {
      UnknownPriceCurrencyFails(ps[1..], accountId, prices, fx, rules, i - 1);
    }
  }

  /** The positions whose asset has a price, in order. */
  function PricedOnly(ps: seq<Position>, prices: map<string, Price>): (r: seq<Position>)
    ensures forall p :: p in r <==> p in ps && p.assetId in prices
    ensures forall p :: multiset(r)[p] == if p.assetId in prices then multiset(ps)[p] else 0
    ensures Subsequence(r, ps)
  {
    if |ps| == 0 then []
    else
      assert ps == [ps[0]] + ps[1..];
      assert multiset(ps) == multiset([ps[0]]) + multiset(ps[1..]);
      assert forall p :: p in ps <==> p == ps[0] || p in ps[1..];
      if ps[0].assetId in prices then
        var rest := PricedOnly(ps[1..], prices);
        assert ([ps[0]] + rest)[1..] == rest;
        assert multiset([ps[0]] + rest) == multiset([ps[0]]) + multiset(rest);
        [ps[0]] + rest
      else PricedOnly(ps[1..], prices)
  }

  /** Positions without a price are skipped: they change neither total nor the outcome. */
  lemma {:induction false} UnpricedPositionsIgnored(ps: seq<Position>, accountId: string, prices: map<string, Price>,
                                                    fx: map<string, real>, rules: seq<Eligibility>)
    ensures AccountTotals(PricedOnly(ps, prices), accountId, prices, fx, rules) == AccountTotals(ps, accountId, prices, fx, rules)
  {
    if |ps| > 0 {
      UnpricedPositionsIgnored(ps[1..], accountId, prices, fx, rules);
      if ps[0].assetId !in prices {
        var rest := AccountTotals(ps[1..], accountId, prices, fx, rules);
        if rest.Success? {
          assert NoValue.Plus(rest.value) == rest.value;
        }
      }
    }
  }

  /** An account none of whose assets has a price is worth nothing. */
  lemma {:induction false} UnpricedAccountIsWorthNothing(ps: seq<Position>, accountId: string, prices: map<string, Price>,
                                                        fx: map<string, real>, rules: seq<Eligibility>)
    requires forall k :: 0 <= k < |ps| ==> ps[k].assetId !in prices
    ensures AccountTotals(ps, accountId, prices, fx, rules) == Success(NoValue)
  {
    if |ps| > 0 {
      UnpricedAccountIsWorthNothing(ps[1..], accountId, prices, fx, rules);
    }
  }

  /** The market total, and whether the valuation fails, do not depend on the eligibility rules. */
  lemma {:induction false} MarketIgnoresEligibility(ps: seq<Position>, accountId: string, prices: map<string, Price>,
                                                    fx: map<string, real>, rules: seq<Eligibility>, others: seq<Eligibility>)
    ensures AccountTotals(ps, accountId, prices, fx, rules).Success? == AccountTotals(ps, accountId, prices, fx, others).Success?
    ensures AccountTotals(ps, accountId, prices, fx, rules).Success? ==>
      AccountTotals(ps, accountId, prices, fx, rules).value.market == AccountTotals(ps, accountId, prices, fx, others).value.market
    ensures AccountTotals(ps, accountId, prices, fx, rules).Failure? ==>
      AccountTotals(ps, accountId, prices, fx, rules).error == AccountTotals(ps, accountId, prices, fx, others).error
  {
    if |ps| > 0 {
      MarketIgnoresEligibility(ps[1..], accountId, prices, fx, rules, others);
    }
  }

  /** Without an applicable rule for any of its assets, an account has no collateral value. */
  lemma {:induction false} NoApplicableRuleNoCollateral(ps: seq<Position>, accountId: string, prices: map<string, Price>,
                                                        fx: map<string, real>, rules: seq<Eligibility>)
    requires forall k, j :: 0 <= k < |ps| && 0 <= j < |rules| ==> !Applies(rules[j], accountId, ps[k].assetId)
    ensures AccountTotals(ps, accountId, prices, fx, rules).Success? ==>
      AccountTotals(ps, accountId, prices, fx, rules).value.collateral == 0.0
  {
    if |ps| > 0 {
      DiscountWithoutApplicableRule(rules, accountId, ps[0].assetId);
      NoApplicableRuleNoCollateral(ps[1..], accountId, prices, fx, rules);
    }
  }

  /** The USD value of a priced position (its unit price in USD times its quantity) is not negative. */
  ghost predicate NonNegativeHolding(p: Position, prices: map<string, Price>, fx: map<string, real>) {
    p.assetId in prices && prices[p.assetId].currency in fx ==>
      fx[prices[p.assetId].currency] * prices[p.assetId].price * p.quantity as real >= 0.0
  }

  /** With discounts in [0, 1] and no negative holding, collateral lies between 0 and market value. */
  lemma {:induction false} CollateralWithinMarket(ps: seq<Position>, accountId: string, prices: map<string, Price>,
                                                  fx: map<string, real>, rules: seq<Eligibility>)
    requires UnitDiscounts(rules)
    requires forall k :: 0 <= k < |ps| ==> NonNegativeHolding(ps[k], prices, fx)
    ensures AccountTotals(ps, accountId, prices, fx, rules).Success? ==>
      0.0 <= AccountTotals(ps, accountId, prices, fx, rules).value.collateral
          <= AccountTotals(ps, accountId, prices, fx, rules).value.market
  {
    if |ps| > 0 {
      CollateralWithinMarket(ps[1..], accountId, prices, fx, rules);
      var p := ps[0];
      if p.assetId in prices && prices[p.assetId].currency in fx {
        assert NonNegativeHolding(p, prices, fx);
        var d := DiscountFactor(rules, accountId, p.assetId);
        DiscountInUnitInterval(rules, accountId, p.assetId);
        var c := Contribution(p, accountId, prices, fx, rules);
        var m := c.value.market;
        assert m >= 0.0 && c.value.collateral == m * d;
        DiscountedWithin(m, d);
        var rest := AccountTotals(ps[1..], accountId, prices, fx, rules);
        if rest.Success? {
          assert AccountTotals(ps, accountId, prices, fx, rules).value == c.value.Plus(rest.value);
        }
      }
    }
  }

  /** One output row: both totals converted to the target currency and rounded to cents. */
  function AccountValue(ap: AccountPosition, target: string, prices: map<string, Price>, fx: map<string, real>,
                        rules: seq<Eligibility>): (r: Result<Account, Error>)
    ensures r.Success? <==>
      AccountTotals(ap.positions, ap.accountId, prices, fx, rules).Success? && target in fx && fx[target] != 0.0
    ensures r.Failure? ==> r.error.CurrencyNotFound?
    ensures r.Failure? && AccountTotals(ap.positions, ap.accountId, prices, fx, rules).Success? ==>
      r.error == CurrencyNotFound(target)
    ensures r.Success? ==> r.value.accountId == ap.accountId
    ensures r.Success? ==> IsCents(r.value.collateralValue) && IsCents(r.value.marketValue)
    ensures r.Success? ==>
      var t := AccountTotals(ap.positions, ap.accountId, prices, fx, rules).value;
      && -0.005 <= r.value.collateralValue - t.collateral / fx[target] <= 0.005
      && -0.005 <= r.value.marketValue - t.market / fx[target] <= 0.005
  {
    var t :- AccountTotals(ap.positions, ap.accountId, prices, fx, rules);
    var collateral :- ValueInCurrency(fx, target, t.collateral);
    // the same rate as for the collateral, so this conversion cannot fail any more
    var market := ValueInCurrency(fx, target, t.market).value;
    Success(Account(ap.accountId, FormatValue(collateral), FormatValue(market)))
  }

  /** An account's market value, and whether it can be valued, do not depend on the rules. */
  lemma AccountValueMarketIgnoresEligibility(ap: AccountPosition, target: string, prices: map<string, Price>,
                                             fx: map<string, real>, rules: seq<Eligibility>, others: seq<Eligibility>)
    ensures AccountValue(ap, target, prices, fx, rules).Success? == AccountValue(ap, target, prices, fx, others).Success?
    ensures AccountValue(ap, target, prices, fx, rules).Success? ==>
      AccountValue(ap, target, prices, fx, rules).value.marketValue == AccountValue(ap, target, prices, fx, others).value.marketValue
    ensures AccountValue(ap, target, prices, fx, rules).Failure? ==>
      AccountValue(ap, target, prices, fx, rules).error == AccountValue(ap, target, prices, fx, others).error
  {
    MarketIgnoresEligibility(ap.positions, ap.accountId, prices, fx, rules, others);
  }

  /** An account none of whose assets has a price is reported as 0 / 0. */
  lemma UnpricedAccountValuedZero(ap: AccountPosition, target: string, prices: map<string, Price>,
                                  fx: map<string, real>, rules: seq<Eligibility>)
    requires forall k :: 0 <= k < |ap.positions| ==> ap.positions[k].assetId !in prices
    requires target in fx && fx[target] != 0.0
    ensures AccountValue(ap, target, prices, fx, rules) == Success(Account(ap.accountId, 0.0, 0.0))
  {
    UnpricedAccountIsWorthNothing(ap.positions, ap.accountId, prices, fx, rules);
    NothingConvertsToNothing(fx, target);
    FormatValueZero();
  }

  /** Zero USD is zero in any currency with a non-zero rate. */
  lemma NothingConvertsToNothing(fx: map<string, real>, currency: string)
    requires currency in fx && fx[currency] != 0.0
    ensures ValueInCurrency(fx, currency, 0.0) == Success(0.0)
  {
    assert (0.0 / fx[currency]) * fx[currency] == 0.0;
  }

  /** A discount in [0, 1] of a non-negative amount lies between 0 and the amount. */
  lemma DiscountedWithin(h: real, d: real)
    requires h >= 0.0 && 0.0 <= d <= 1.0
    ensures 0.0 <= h * d <= h
  {
    assert h * (1.0 - d) >= 0.0;
  }

  /** Under the same conditions as CollateralWithinMarket and a positive target rate, the
      rounded collateral value lies between 0 and the rounded market value. */
  lemma AccountCollateralWithinMarket(ap: AccountPosition, target: string, prices: map<string, Price>,
                                      fx: map<string, real>, rules: seq<Eligibility>)
    requires UnitDiscounts(rules)
    requires forall k :: 0 <= k < |ap.positions| ==> NonNegativeHolding(ap.positions[k], prices, fx)
    requires target in fx && fx[target] > 0.0
    ensures AccountValue(ap, target, prices, fx, rules).Success? ==>
      0.0 <= AccountValue(ap, target, prices, fx, rules).value.collateralValue
          <= AccountValue(ap, target, prices, fx, rules).value.marketValue
  {
    var t := AccountTotals(ap.positions, ap.accountId, prices, fx, rules);
    CollateralWithinMarket(ap.positions, ap.accountId, prices, fx, rules);
    if t.Success? {
      var rate := fx[target];
      var c, m := t.value.collateral / rate, t.value.market / rate;
      DivisionByPositiveKeepsOrder(t.value.collateral, t.value.market, rate);
      FormatValueMonotone(0.0, c);
      FormatValueMonotone(c, m);
      FormatValueZero();
      AccountValueUnfolds(ap, target, prices, fx, rules);
    }
  }

  /** A valued account's figures are its USD totals converted at the target rate and rounded. */
  lemma AccountValueUnfolds(ap: AccountPosition, target: string, prices: map<string, Price>, fx: map<string, real>,
                            rules: seq<Eligibility>)
    requires AccountTotals(ap.positions, ap.accountId, prices, fx, rules).Success?
    requires target in fx && fx[target] != 0.0
    ensures AccountValue(ap, target, prices, fx, rules).Success?
    ensures AccountValue(ap, target, prices, fx, rules).value.collateralValue
         == FormatValue(AccountTotals(ap.positions, ap.accountId, prices, fx, rules).value.collateral / fx[target])
    ensures AccountValue(ap, target, prices, fx, rules).value.marketValue
         == FormatValue(AccountTotals(ap.positions, ap.accountId, prices, fx, rules).value.market / fx[target])
  {
  }

  /** Dividing by a positive rate keeps the order of two amounts and the sign of the smaller. */
  lemma DivisionByPositiveKeepsOrder(x: real, y: real, rate: real)
    requires 0.0 <= x <= y && rate > 0.0
    ensures 0.0 <= x / rate <= y / rate
  {
    assert (x / rate) * rate == x && (y / rate) * rate == y;
  }

  // ---------------------------------------------------------------- all accounts

  /** The rows of all accounts in order; the first failing account fails the whole list. */
  function ValueAccounts(aps: seq<AccountPosition>, target: string, prices: map<string, Price>, fx: map<string, real>,
                         rules: seq<Eligibility>): (r: Result<seq<Account>, Error>)
    ensures r.Success? ==> |r.value| == |aps|
    ensures r.Success? ==> forall i :: 0 <= i < |aps| ==> r.value[i].accountId == aps[i].accountId
    ensures r.Success? ==> forall i :: 0 <= i < |aps| ==> IsCents(r.value[i].collateralValue) && IsCents(r.value[i].marketValue)
  {
    if |aps| == 0 then Success([])
    else
      var a :- AccountValue(aps[0], target, prices, fx, rules);
      var rest :- ValueAccounts(aps[1..], target, prices, fx, rules);
      Success([a] + rest)
  }

  /** Accounts are valued independently: the list succeeds exactly when every account does, each
      row is that account's own value, and a failure is that of the first failing account. */
  lemma {:induction false} AccountsValuedIndependently(aps: seq<AccountPosition>, target: string, prices: map<string, Price>,
                                                       fx: map<string, real>, rules: seq<Eligibility>)
    ensures ValueAccounts(aps, target, prices, fx, rules).Success? <==>
      forall i :: 0 <= i < |aps| ==> AccountValue(aps[i], target, prices, fx, rules).Success?
    ensures ValueAccounts(aps, target, prices, fx, rules).Success? ==>
      forall i :: 0 <= i < |aps| ==> ValueAccounts(aps, target, prices, fx, rules).value[i] == AccountValue(aps[i], target, prices, fx, rules).value
    ensures ValueAccounts(aps, target, prices, fx, rules).Failure? ==>
      exists i :: 0 <= i < |aps| && AccountValue(aps[i], target, prices, fx, rules).Failure?
        && ValueAccounts(aps, target, prices, fx, rules).error == AccountValue(aps[i], target, prices, fx, rules).error
        && forall j :: 0 <= j < i ==> AccountValue(aps[j], target, prices, fx, rules).Success?
  {
    if |aps| > 0 {
      AccountsValuedIndependently(aps[1..], target, prices, fx, rules);
      var r := ValueAccounts(aps, target, prices, fx, rules);
      if AccountValue(aps[0], target, prices, fx, rules).Success? {
        assert forall i :: 1 <= i < |aps| ==> aps[i] == aps[1..][i - 1];
        var rest := ValueAccounts(aps[1..], target, prices, fx, rules);
        if rest.Failure? {
          var i :| 0 <= i < |aps[1..]| && AccountValue(aps[1..][i], target, prices, fx, rules).Failure?
            && rest.error == AccountValue(aps[1..][i], target, prices, fx, rules).error
            && forall j :: 0 <= j < i ==> AccountValue(aps[1..][j], target, prices, fx, rules).Success?;
          FirstFailureShifts(aps, target, prices, fx, rules, i);
        } else {
          assert r.value == [AccountValue(aps[0], target, prices, fx, rules).value] + rest.value;
        }
      }
    }
  }

  /** A first failing account at index `i` of the tail is the first failing account at `i + 1`. */
  lemma FirstFailureShifts(aps: seq<AccountPosition>, target: string, prices: map<string, Price>,
                           fx: map<string, real>, rules: seq<Eligibility>, i: nat)
    requires 0 < |aps| && i < |aps| - 1
    requires AccountValue(aps[0], target, prices, fx, rules).Success?
    requires AccountValue(aps[1..][i], target, prices, fx, rules).Failure?
    requires forall j :: 0 <= j < i ==> AccountValue(aps[1..][j], target, prices, fx, rules).Success?
    ensures AccountValue(aps[i + 1], target, prices, fx, rules).Failure?
    ensures AccountValue(aps[i + 1], target, prices, fx, rules) == AccountValue(aps[1..][i], target, prices, fx, rules)
    ensures forall j :: 0 <= j < i + 1 ==> AccountValue(aps[j], target, prices, fx, rules).Success?
  {
    assert aps[i + 1] == aps[1..][i];
    forall j | 0 < j < i + 1
      ensures AccountValue(aps[j], target, prices, fx, rules).Success?
    {
      assert aps[j] == aps[1..][j - 1];
    }
  }

  /** Market values, and the outcome, of the whole list do not depend on the rules. */
  lemma {:induction false} ValueAccountsMarketIgnoresEligibility(aps: seq<AccountPosition>, target: string, prices: map<string, Price>,
                                                                 fx: map<string, real>, rules: seq<Eligibility>, others: seq<Eligibility>)
    ensures ValueAccounts(aps, target, prices, fx, rules).Success? == ValueAccounts(aps, target, prices, fx, others).Success?
    ensures ValueAccounts(aps, target, prices, fx, rules).Success? ==>
      forall i :: 0 <= i < |aps| ==>
        ValueAccounts(aps, target, prices, fx, rules).value[i].marketValue == ValueAccounts(aps, target, prices, fx, others).value[i].marketValue
    ensures ValueAccounts(aps, target, prices, fx, rules).Failure? ==>
      ValueAccounts(aps, target, prices, fx, rules).error == ValueAccounts(aps, target, prices, fx, others).error
  {
    if |aps| > 0 {
      AccountValueMarketIgnoresEligibility(aps[0], target, prices, fx, rules, others);
      ValueAccountsMarketIgnoresEligibility(aps[1..], target, prices, fx, rules, others);
    }
  }

  // ---------------------------------------------------------------- the whole call

  /** The four collaborators, as the data they return for a request. */
  datatype Collaborators = Collaborators(
    positions: seq<string> -> Option<seq<AccountPosition>>,
    eligibility: (seq<string>, seq<string>) -> seq<Eligibility>,
    prices: seq<string> -> Option<seq<Price>>,
    fxRates: () -> Option<seq<FXRate>>)

  /** The account positions the position source returns; a null list reads as empty. */
  function FetchedPositions(accountIds: seq<string>, services: Collaborators): seq<AccountPosition> {
    OrEmpty(services.positions(accountIds))
  }

  /** The eligibility rules requested for the accounts and their distinct assets. */
  function RequestedRules(accountIds: seq<string>, services: Collaborators): seq<Eligibility> {
    services.eligibility(accountIds, ExtractAssetIds(FetchedPositions(accountIds, services)))
  }

  /** The prices requested for the distinct assets. */
  function RequestedPrices(accountIds: seq<string>, services: Collaborators): Option<seq<Price>> {
    services.prices(ExtractAssetIds(FetchedPositions(accountIds, services)))
  }

  /** `calculateValuation`: one row per account position, in the order the position source gave. */
  function CalculateValuation(accountIds: seq<string>, currencyCode: string, services: Collaborators): (r: Result<seq<Account>, Error>)
    ensures r.Success? ==> |r.value| == |FetchedPositions(accountIds, services)|
    ensures r.Success? ==> forall i :: 0 <= i < |r.value| ==>
      r.value[i].accountId == FetchedPositions(accountIds, services)[i].accountId
    ensures r.Success? ==> forall i :: 0 <= i < |r.value| ==>
      IsCents(r.value[i].collateralValue) && IsCents(r.value[i].marketValue)
  {
    var accountPositions := FetchedPositions(accountIds, services);
    if |accountPositions| == 0 then Success([])
    else
      var assetIds := ExtractAssetIds(accountPositions);
      var rules := services.eligibility(accountIds, assetIds);
      var prices :- PriceMap(services.prices(assetIds));
      var fx :- FxRatesMap(services.fxRates());
      ValueAccounts(accountPositions, currencyCode, prices, fx, rules)
  }
}
