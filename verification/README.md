# Valuation service: collateral and market value of accounts

This project models the valuation core of the `valuation-service` repository. Given a list of account ids and a
target currency code, `ValuationService.calculateValuation` works as follows:

1. It fetches each account's positions. Each position is an asset id and a quantity.
2. It collects the distinct asset ids, in order of first occurrence.
3. It asks for the eligibility rules of those accounts and assets, and for the assets' prices.
4. It fetches the FX table. The table maps each currency to its USD multiplier.
5. For every position that has a price, it converts the price to USD. It adds the USD value to the account's
   market value, and adds that value times the discount factor to the account's collateral value. The discount
   factor comes from the first eligible rule that names both the account and the asset, and is 0 when no rule
   does.
6. It converts both totals from USD into the target currency and rounds them half-up to two decimals.

The Dafny modules follow the structure of the Java code:

- `Wrappers` holds `Option` and `Result`. `Result` models the exceptions as values and propagates them with `:-`.
- `Model` holds the records: `Position`, `AccountPosition`, `Eligibility`, `Price`, `FXRate` and `Account`.
  A `Price` built without a currency is in GBP. The exceptions are `Error`: `CurrencyNotFound`,
  `FXRateNotFound`, and `DuplicateKey`, which stands for the `IllegalStateException` of `Collectors.toMap`.
- `Seqs` holds duplicate-freedom, the first index of an element, and `Distinct` (the model of `Stream.distinct`).
- `Lookups` holds the following:
  - `ExtractAssetIds`;
  - `ToMap`, which fails on the first repeated key as `Collectors.toMap` does;
  - `PriceMap`, where a missing price list becomes an empty map;
  - `FxRatesMap`, where a missing FX list is an `FXRateNotFound` error;
  - `DiscountFactor`.
- `Rounding` holds `FormatValue`, which is `BigDecimal.setScale(2, HALF_UP)` on exact reals.
- `Valuation` holds the following:
  - the two FX conversions, `UsdPrice` and `ValueInCurrency`;
  - the contribution of one position;
  - the per-account totals and the per-account row;
  - `CalculateValuation` itself.

  The position, eligibility, price and FX services are passed in as the function fields of `Collaborators`.
- `ValuationProperties` holds the whole-valuation properties: short-circuits, error cases, independence of the
  market value from the rules, and collateral bounds.
- `Scenarios` replays the repository's unit tests against the model, with their fixture of positions and FX
  rates.

The model follows the code's order of evaluation. That matters for which error a call reports:

1. a duplicate asset in the price list;
2. a missing FX list, then a duplicate currency in it;
3. then account by account, in order: first the account's positions in order, failing at a price quoted in a
   currency absent from the FX table, then the target currency, failing when it is absent or its rate is 0.

So an unknown target currency is reported at the first account, before the positions of any later account are
looked at.

The unit test `testCalculateValuationWithInvalidCurrency` expects an account valued 0 / 0 for the target currency
`"InvalidCurrency"`. The code cannot produce that: `getValueBasedOnCurrency` throws `CurrencyNotFoundException`
for a currency missing from the FX table. The model follows the code. `Scenarios.InvalidCurrencyFails` proves
that this call ends in `CurrencyNotFound("InvalidCurrency")`.

## Model

| member | source | states |
|---|---|---|
| Seqs.Distinct | src/main/java/com/example/valuation_service/service/ValuationService.java:98 | the result has no repeats and holds exactly the elements of the input |
| Seqs.DistinctOfDuplicateFree | src/main/java/com/example/valuation_service/service/ValuationService.java:98 | a sequence without repeats passes through `distinct` unchanged |
| Seqs.DistinctKeepsFirstOccurrenceOrder | src/main/java/com/example/valuation_service/service/ValuationService.java:98 | the distinct elements come in the order of their first occurrence in the input |
| Seqs.IndexOf | src/main/java/com/example/valuation_service/service/ValuationService.java:98 | the first position at which an element occurs |
| Lookups.AllAssetIdsAreHeld | src/main/java/com/example/valuation_service/service/ValuationService.java:95-97 | the flattened asset ids are exactly the assets some position of some account holds |
| Lookups.ExtractAssetIds | src/main/java/com/example/valuation_service/service/ValuationService.java:94-100 | the extracted ids have no repeats, and an id is extracted if and only if some position of some account holds it |
| Lookups.ExtractAssetIdsInFirstOccurrenceOrder | src/main/java/com/example/valuation_service/service/ValuationService.java:94-100 | the extracted ids are ordered by first occurrence across the accounts' positions |
| Lookups.ToMapSpec | src/main/java/com/example/valuation_service/service/ValuationService.java:73-74 | `toMap` succeeds if and only if the keys are distinct; it then has exactly those keys, each with its entry's value; a failure names a key that occurs twice |
| Lookups.ToMap | src/main/java/com/example/valuation_service/service/ValuationService.java:73-74 | no contract of its own: `Lookups.ToMapSpec` states what `Collectors.toMap` builds, here and at line 81 |
| Lookups.PriceMap | src/main/java/com/example/valuation_service/service/ValuationService.java:77-83 | a missing price list gives the empty map; the map exists if and only if no asset is priced twice; its keys are the priced assets and each maps to its price record; otherwise the error is a duplicate key |
| Lookups.FxRatesMap | src/main/java/com/example/valuation_service/service/ValuationService.java:66-75 | a missing FX list, and only that, fails with FXRateNotFound; otherwise the map exists if and only if no currency repeats, maps each listed currency to its multiplier, and a failure is a duplicate key |
| Lookups.DiscountFactor | src/main/java/com/example/valuation_service/service/ValuationService.java:85-92 | no contract of its own: `Lookups.DiscountIsFirstApplicable` states that the factor is the discount of the first eligible rule naming both the asset and the account, and `Lookups.DiscountWithoutApplicableRule` that it is 0 when no rule does |
| Lookups.DiscountIsFirstApplicable | src/main/java/com/example/valuation_service/service/ValuationService.java:85-92 | the discount is that of the first eligible rule naming both the asset and the account |
| Lookups.DiscountWithoutApplicableRule | src/main/java/com/example/valuation_service/service/ValuationService.java:91 | with no eligible rule naming both the asset and the account, the discount is 0 |
| Lookups.EligibleOnly | src/main/java/com/example/valuation_service/service/ValuationService.java:87 | the filter keeps exactly the eligible rules, each as many times as it occurs in the input, in their original order |
| Lookups.IneligibleRulesIgnored | src/main/java/com/example/valuation_service/service/ValuationService.java:87 | dropping the ineligible rules does not change any discount |
| Lookups.DiscountInUnitInterval | src/main/java/com/example/valuation_service/service/ValuationService.java:85-92 | when every rule's discount lies in [0, 1], so does every discount factor |
| Rounding.HalfUpCents | src/main/java/com/example/valuation_service/service/ValuationService.java:141 | the whole number of cents nearest to a non-negative amount, with halves going up |
| Rounding.FormatValue | src/main/java/com/example/valuation_service/service/ValuationService.java:140-142 | the result is a whole number of cents, at most half a cent from the input, and an exact half cent is rounded away from zero |
| Rounding.FormatValueUnique | src/main/java/com/example/valuation_service/service/ValuationService.java:141 | any whole-cent value within half a cent of the input that rounds halves away from zero is the formatted value |
| Rounding.FormatValueOfCents | src/main/java/com/example/valuation_service/service/ValuationService.java:141 | an amount already in whole cents is left as it is |
| Rounding.FormatValueZero | src/main/java/com/example/valuation_service/service/ValuationService.java:141 | zero formats to zero |
| Rounding.FormatValueIdempotent | src/main/java/com/example/valuation_service/service/ValuationService.java:141 | formatting twice is formatting once |
| Rounding.FormatValueMonotone | src/main/java/com/example/valuation_service/service/ValuationService.java:141 | formatting preserves order |
| Rounding.FormatValueOdd | src/main/java/com/example/valuation_service/service/ValuationService.java:141 | HALF_UP is symmetric: formatting a negated amount negates the result |
| Valuation.UsdPrice | src/main/java/com/example/valuation_service/service/ValuationService.java:110-116 | conversion to USD succeeds if and only if the currency has a rate; otherwise it fails naming that currency |
| Valuation.ValueInCurrency | src/main/java/com/example/valuation_service/service/ValuationService.java:126-132 | conversion from USD succeeds if and only if the currency has a non-zero rate, fails naming the currency otherwise, and converting the result back to USD gives the original amount |
| Valuation.Contribution | src/main/java/com/example/valuation_service/service/ValuationService.java:47-56 | a position fails the valuation if and only if it has a price quoted in a currency without an FX rate, and the error names that currency; an unpriced position adds nothing; a priced one adds rate × price × quantity to the market total and that amount times its discount factor to the collateral total |
| Valuation.AccountTotals | src/main/java/com/example/valuation_service/service/ValuationService.java:43-57 | an account's totals exist if and only if each of its priced positions is quoted in a currency with a rate (in particular whenever every price's currency has one); any failure names a currency without a rate |
| Valuation.AccountTotalsIsTheLoop | src/main/java/com/example/valuation_service/service/ValuationService.java:44-57 | the `for` loop with its two accumulators, written out as it stands, ends at its starting accumulators plus the account's totals, and fails exactly when and with the error they do |
| Valuation.LoopTotals | src/main/java/com/example/valuation_service/service/ValuationService.java:44-57 | no contract of its own: the `for` loop as written, accumulating from given totals; `Valuation.AccountTotalsIsTheLoop` relates it to the account totals |
| Valuation.LoopFromZeroIsAccountTotals | src/main/java/com/example/valuation_service/service/ValuationService.java:44-57 | the loop started from 0 / 0 computes exactly the account's totals |
| Valuation.LoopStep | src/main/java/com/example/valuation_service/service/ValuationService.java:47-56 | one turn of the loop adds the first position's contribution, or stops with its error |
| Valuation.AccountTotalsAppend | src/main/java/com/example/valuation_service/service/ValuationService.java:47-56 | the totals of two runs of positions are the sums of their totals, and the joined run can be valued exactly when both can |
| Valuation.UncoveredPositionAddsNoCollateral | src/main/java/com/example/valuation_service/service/ValuationService.java:51-54 | a position that no eligible rule covers for its account adds 0 to the collateral total |
| Valuation.UnknownPriceCurrencyFails | src/main/java/com/example/valuation_service/service/ValuationService.java:50-53 | one priced position whose currency has no rate makes the account's totals fail |
| Valuation.PricedOnly | src/main/java/com/example/valuation_service/service/ValuationService.java:48-50 | the positions kept are exactly those with a price, each as many times as it occurs in the input, in their original order |
| Valuation.UnpricedPositionsIgnored | src/main/java/com/example/valuation_service/service/ValuationService.java:48-50 | dropping the positions without a price changes neither the totals nor whether they can be computed |
| Valuation.UnpricedAccountIsWorthNothing | src/main/java/com/example/valuation_service/service/ValuationService.java:44-57 | an account with no priced position totals 0 / 0 |
| Valuation.MarketIgnoresEligibility | src/main/java/com/example/valuation_service/service/ValuationService.java:51-55 | the market total, the success of the totals and their error do not depend on the eligibility rules |
| Valuation.NoApplicableRuleNoCollateral | src/main/java/com/example/valuation_service/service/ValuationService.java:51-54 | when no eligible rule covers any of the account's positions, the collateral total is 0 |
| Valuation.CollateralWithinMarket | src/main/java/com/example/valuation_service/service/ValuationService.java:51-55 | with discounts in [0, 1], non-negative prices, rates and quantities, the collateral total lies between 0 and the market total |
| Valuation.AccountValue | src/main/java/com/example/valuation_service/service/ValuationService.java:43-61 | a row exists if and only if the totals exist and the target currency has a non-zero rate; a failure is CurrencyNotFound and, once the totals exist, names the target; the row keeps the account id, is in whole cents, and each value lies within half a cent of its USD total divided by the target rate |
| Valuation.AccountValueUnfolds | src/main/java/com/example/valuation_service/service/ValuationService.java:59-61 | a row's values are the USD totals divided by the target rate and then formatted |
| Valuation.AccountValueMarketIgnoresEligibility | src/main/java/com/example/valuation_service/service/ValuationService.java:55-61 | a row's market value, its success and its error do not depend on the eligibility rules |
| Valuation.UnpricedAccountValuedZero | src/main/java/com/example/valuation_service/service/ValuationService.java:44-61 | an account with no priced position is valued 0 / 0 in any currency with a non-zero rate |
| Valuation.NothingConvertsToNothing | src/main/java/com/example/valuation_service/service/ValuationService.java:126-132 | zero USD converts to zero in any currency with a non-zero rate |
| Valuation.AccountCollateralWithinMarket | src/main/java/com/example/valuation_service/service/ValuationService.java:51-61 | with discounts in [0, 1], non-negative holdings and a positive target rate, the rounded collateral lies between 0 and the rounded market value |
| Valuation.ValueAccounts | src/main/java/com/example/valuation_service/service/ValuationService.java:43-63 | on success there is one row per account, in account order, with the same account id and whole-cent values |
| Valuation.AccountsValuedIndependently | src/main/java/com/example/valuation_service/service/ValuationService.java:43-63 | the list of rows exists if and only if every account can be valued; the i-th row is the i-th account's own row; a failure is the first failing account's error |
| Valuation.ValueAccountsMarketIgnoresEligibility | src/main/java/com/example/valuation_service/service/ValuationService.java:43-63 | across all accounts, market values, success and error do not depend on the eligibility rules |
| Valuation.CalculateValuation | src/main/java/com/example/valuation_service/service/ValuationService.java:29-64 | on success there is one row per fetched account, in order, with its account id and whole-cent values |
| ValuationProperties.EmptyPositionsShortCircuit | src/main/java/com/example/valuation_service/service/ValuationService.java:32-35 | a missing or empty position list gives an empty result |
| ValuationProperties.CalculateValuationUnfolds | src/main/java/com/example/valuation_service/service/ValuationService.java:36-63 | with positions present and both maps built, the valuation is the rows of the fetched accounts against the requested rules |
| ValuationProperties.DuplicatePricesFail | src/main/java/com/example/valuation_service/service/ValuationService.java:39 | an asset priced twice makes the whole valuation fail with a duplicate key |
| ValuationProperties.NullFxRatesFail | src/main/java/com/example/valuation_service/service/ValuationService.java:66-71 | a missing FX list fails the valuation with FXRateNotFound |
| ValuationProperties.UnknownTargetCurrencyFails | src/main/java/com/example/valuation_service/service/ValuationService.java:126-130 | a target currency without a rate, or with rate 0, fails the valuation with CurrencyNotFound, naming the target when every price's currency has a rate |
| ValuationProperties.UnknownPriceCurrencyFailsValuation | src/main/java/com/example/valuation_service/service/ValuationService.java:110-114 | a priced position of any fetched account whose currency has no rate fails the valuation with CurrencyNotFound |
| ValuationProperties.NoPricesNoValue | src/main/java/com/example/valuation_service/service/ValuationService.java:77-81 | with no prices returned, every fetched account is valued 0 / 0 |
| ValuationProperties.MarketValueIgnoresEligibility | src/main/java/com/example/valuation_service/service/ValuationService.java:38 | replacing the eligibility service changes no market value, no success and no error |
| ValuationProperties.CollateralAtMostMarketValue | src/main/java/com/example/valuation_service/service/ValuationService.java:51-61 | with discounts in [0, 1], non-negative holdings and a positive target rate, every row's collateral lies between 0 and its market value |
| Scenarios.MixedPositionsSingleAccountUsd | src/test/java/com/example/valuation_service/service/ValuationServiceTest.java:77-100 | account E1 in USD is valued 7015.68 / 9345.20 |
| Scenarios.MixedPositionsSingleAccountInr | src/test/java/com/example/valuation_service/service/ValuationServiceTest.java:102-125 | account E1 in INR is valued 584640.00 / 778766.67 |
| Scenarios.InvalidCurrencyFails | src/test/java/com/example/valuation_service/service/ValuationServiceTest.java:127-150 | valuing E1 in an unknown currency fails with CurrencyNotFound for that currency |
| Scenarios.EligiblePositionsSingleAccountUsd | src/test/java/com/example/valuation_service/service/ValuationServiceTest.java:153-175 | account E3 in USD is valued 841.07 / 934.52 |
| Scenarios.IneligiblePositionsSingleAccountUsd | src/test/java/com/example/valuation_service/service/ValuationServiceTest.java:177-199 | account E4, whose only rule is ineligible, is valued 0 / 934.52 |
| Scenarios.MixedPositionsMultipleAccountsUsd | src/test/java/com/example/valuation_service/service/ValuationServiceTest.java:201-234 | accounts E1 and E2 in USD are valued 7015.68 / 9345.20 and 22.54 / 1730.05, in that order |
| Scenarios.NoPricesMultipleAccounts | src/test/java/com/example/valuation_service/service/ValuationServiceTest.java:236-262 | with no prices, E1 and E2 are each valued 0 / 0 |
| Scenarios.EmptyAccountList | src/test/java/com/example/valuation_service/service/ValuationServiceTest.java:62-67 | an empty account list values nothing |

## Left out

- Money is exact `real` arithmetic. Java `double` rounding, and the decimal expansion that `BigDecimal.valueOf`
  takes of a double, are not modelled. An amount whose double sits just below a half cent can therefore round
  differently in Java. A NaN or infinite double, which a NaN rate or price or an overflowing division by a tiny
  target rate gives, makes `BigDecimal.valueOf` throw `NumberFormatException`; the model has no such values and
  always returns a number.
- Rounding.FormatValue: `doubleValue()` turns the rounded decimal back into the nearest double; the model keeps
  the exact decimal.
- Integer quantities are unbounded. The multiplication is done in `double` in Java and in exact arithmetic here,
  so no overflow arises in either.
- Spring wiring, Lombok accessors, logging and the exception messages are not modelled. Only the kind of each
  exception, and the currency it names, is.
- The four services are function-valued parameters. Their own implementations (PositionService,
  EligibilityService, PriceService, FXService) are not part of this model.
- A `null` list inside an account or from the eligibility service is not modelled: sequences here are never null.
  In the source, a `null` position list fails with a `NullPointerException` in `extractAssetIds`. A `null`
  eligibility list fails only once some position has a price, because `getDiscountFactor` is called only then.
  A `null` price list and a `null` FX list are modelled (`Option`).
- A `Price` whose currency was set to `null` is not modelled: the currency is a `string`. In the source, the
  all-args constructor and the setter allow it, and `getUsdPrice` then finds no rate and throws
  `CurrencyNotFoundException`.
- `findAny` on a sequential stream is modelled as the first match. A parallel stream could return any matching
  rule.
- `PriceMap` and `FxRatesMap` keep only the kind of a duplicate-key error, not which key it names. The full
  statement, that a repeated key is named, is `Lookups.ToMapSpec`.
- The tests' Mockito setup is modelled by `Scenarios.Stubs`. Its position source answers every request from the
  fixture. Its eligibility and price sources answer the expected request and give an empty list for any other,
  as an unconfigured mock does.
