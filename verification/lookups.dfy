/** The lookup structures `calculateValuation` builds once per call: the distinct asset ids,
    the price map, the FX map, and the discount resolution over eligibility rules. */
module Lookups {
  import opened Wrappers
  import opened Model
  import opened Seqs

  // ---------------------------------------------------------------- asset ids

  /** The asset id of each position, in order. */
  function AssetIdsOf(ps: seq<Position>): seq<string> {
    seq(|ps|, i requires 0 <= i < |ps| => ps[i].assetId)
  }

  /** The asset ids of all positions of all accounts, account by account, repeats included. */
  function AllAssetIds(aps: seq<AccountPosition>): seq<string> {
    if |aps| == 0 then [] else AssetIdsOf(aps[0].positions) + AllAssetIds(aps[1..])
  }

  /** Some position of some account holds `assetId`. */
  ghost predicate Held(aps: seq<AccountPosition>, assetId: string) {
    exists a, k :: 0 <= a < |aps| && 0 <= k < |aps[a].positions| && aps[a].positions[k].assetId == assetId
  }

  /** The flattened asset ids are exactly the assets held. */
  lemma {:induction false} AllAssetIdsAreHeld(aps: seq<AccountPosition>)
    ensures forall x :: x in AllAssetIds(aps) <==> Held(aps, x)
  {
    if |aps| > 0 {
      AllAssetIdsAreHeld(aps[1..]);
      forall x
        ensures x in AllAssetIds(aps) <==> Held(aps, x)
      {
        if x in AssetIdsOf(aps[0].positions) {
          var k :| 0 <= k < |aps[0].positions| && AssetIdsOf(aps[0].positions)[k] == x;
          assert aps[0].positions[k].assetId == x;
        } else if Held(aps[1..], x) {
          var a, k :| 0 <= a < |aps[1..]| && 0 <= k < |aps[1..][a].positions| && aps[1..][a].positions[k].assetId == x;
          assert aps[a + 1].positions[k].assetId == x;
        }
        if Held(aps, x) {
          var a, k :| 0 <= a < |aps| && 0 <= k < |aps[a].positions| && aps[a].positions[k].assetId == x;
          if a == 0 {
            assert AssetIdsOf(aps[0].positions)[k] == x;
          } else {
            assert aps[1..][a - 1].positions[k].assetId == x;
          }
        }
      }
    }
  }

  /** The distinct asset ids held across all accounts (`extractAssetIds`). */
  function ExtractAssetIds(aps: seq<AccountPosition>): (ids: seq<string>)
    ensures NoDuplicates(ids)
    ensures forall x :: x in ids <==> Held(aps, x)
  {
    AllAssetIdsAreHeld(aps);
    Distinct(AllAssetIds(aps))
  }

  /** The extracted ids follow the order in which each asset is first met. */
  lemma ExtractAssetIdsInFirstOccurrenceOrder(aps: seq<AccountPosition>, i: nat, j: nat)
    requires i < j < |ExtractAssetIds(aps)|
    ensures ExtractAssetIds(aps)[i] in AllAssetIds(aps) && ExtractAssetIds(aps)[j] in AllAssetIds(aps)
    ensures IndexOf(AllAssetIds(aps), ExtractAssetIds(aps)[i]) < IndexOf(AllAssetIds(aps), ExtractAssetIds(aps)[j])
  {
    DistinctKeepsFirstOccurrenceOrder(AllAssetIds(aps), i, j);
  }

  // ---------------------------------------------------------------- keyed maps

  /** The keys of a list of entries, in order. */
  function KeysOf<V>(entries: seq<(string, V)>): seq<string> {
    seq(|entries|, i requires 0 <= i < |entries| => entries[i].0)
  }

  /** `Collectors.toMap` on a sequential stream: fails on the first key already collected. */
  function ToMap<V>(entries: seq<(string, V)>): Result<map<string, V>, Error> {
    if |entries| == 0 then Success(map[])
    else
      var m :- ToMap(entries[..|entries| - 1]);
      var (k, v) := entries[|entries| - 1];
      if k in m then Failure(DuplicateKey(k)) else Success(m[k := v])
  }

  /** `ToMap` succeeds exactly when the keys are distinct, and then maps each key to its value. */
  lemma {:induction false} ToMapSpec<V>(entries: seq<(string, V)>)
    ensures ToMap(entries).Success? <==> NoDuplicates(KeysOf(entries))
    ensures ToMap(entries).Success? ==> forall k :: k in ToMap(entries).value <==> k in KeysOf(entries)
    ensures ToMap(entries).Success? ==>
      forall i :: 0 <= i < |entries| ==> entries[i].0 in ToMap(entries).value && ToMap(entries).value[entries[i].0] == entries[i].1
    ensures ToMap(entries).Failure? ==>
      exists i, j :: 0 <= i < j < |entries| && entries[i].0 == entries[j].0 && ToMap(entries).error == DuplicateKey(entries[j].0)
  {
    if |entries| > 0 {
      var n := |entries| - 1;
      var p := entries[..n];
      ToMapSpec(p);
      assert KeysOf(entries) == KeysOf(p) + [entries[n].0];
      if ToMap(p).Success? {
        var m := ToMap(p).value;
        if entries[n].0 in m {
          var i :| 0 <= i < |p| && KeysOf(p)[i] == entries[n].0;
          assert entries[i].0 == entries[n].0;
          assert !NoDuplicates(KeysOf(entries)) by {
            assert KeysOf(entries)[i] == KeysOf(entries)[n];
          }
        }
      } else {
        var i, j :| 0 <= i < j < |p| && p[i].0 == p[j].0 && ToMap(p).error == DuplicateKey(p[j].0);
        assert entries[i].0 == entries[j].0;
        assert KeysOf(entries)[i] == KeysOf(entries)[j];
      }
    }
  }

  /** A missing list reads as an empty one. */
  function OrEmpty<T>(o: Option<seq<T>>): seq<T> {
    if o.Some? then o.value else []
  }

  /** The asset id of each price, in order. */
  function PricedAssets(prices: seq<Price>): seq<string> {
    seq(|prices|, i requires 0 <= i < |prices| => prices[i].assetId)
  }

  /** `getPriceMap`: prices keyed by asset id; a null list is an empty map. */
  function PriceMap(prices: Option<seq<Price>>): (r: Result<map<string, Price>, Error>)
    ensures prices.None? ==> r == Success(map[])
    ensures r.Success? <==> NoDuplicates(PricedAssets(OrEmpty(prices)))
    ensures r.Success? ==> forall a :: a in r.value <==> a in PricedAssets(OrEmpty(prices))
    ensures r.Success? ==> forall i :: 0 <= i < |OrEmpty(prices)| ==>
      OrEmpty(prices)[i].assetId in r.value && r.value[OrEmpty(prices)[i].assetId] == OrEmpty(prices)[i]
    ensures r.Failure? ==> r.error.DuplicateKey?
  {
    var list := OrEmpty(prices);
    var entries := seq(|list|, i requires 0 <= i < |list| => (list[i].assetId, list[i]));
    ToMapSpec(entries);
    assert KeysOf(entries) == PricedAssets(list);
    assert forall i :: 0 <= i < |list| ==> entries[i] == (list[i].assetId, list[i]);
    ToMap(entries)
  }

  /** The currency of each rate, in order. */
  function CurrenciesOf(rates: seq<FXRate>): seq<string> {
    seq(|rates|, i requires 0 <= i < |rates| => rates[i].currency)
  }

  /** `getFxRatesMap`: USD multipliers keyed by currency; a null list is `FXRateNotFound`. */
  function FxRatesMap(rates: Option<seq<FXRate>>): (r: Result<map<string, real>, Error>)
    ensures rates.None? <==> r == Failure(FXRateNotFound)
    ensures rates.Some? ==> (r.Success? <==> NoDuplicates(CurrenciesOf(rates.value)))
    ensures r.Success? ==> forall c :: c in r.value <==> c in CurrenciesOf(rates.value)
    ensures r.Success? ==> forall i :: 0 <= i < |rates.value| ==>
      rates.value[i].currency in r.value && r.value[rates.value[i].currency] == rates.value[i].multiplier
    ensures rates.Some? && r.Failure? ==> r.error.DuplicateKey?
  {
    if rates.None? then Failure(FXRateNotFound)
    else
      var list := rates.value;
      var entries := seq(|list|, i requires 0 <= i < |list| => (list[i].currency, list[i].multiplier));
      ToMapSpec(entries);
      assert KeysOf(entries) == CurrenciesOf(list);
      assert forall i :: 0 <= i < |list| ==> entries[i] == (list[i].currency, list[i].multiplier);
      ToMap(entries)
  }

  // ---------------------------------------------------------------- discounts

  /** A rule applies to a pair when it is eligible and lists both the asset and the account. */
  predicate Applies(rule: Eligibility, accountId: string, assetId: string) {
    rule.eligible && assetId in rule.assetIds && accountId in rule.accountIds
  }

  /** `getDiscountFactor`: the discount of the first applicable rule, or 0 when none applies. */
  function DiscountFactor(rules: seq<Eligibility>, accountId: string, assetId: string): real {
    if |rules| == 0 then 0.0
    else if Applies(rules[0], accountId, assetId) then rules[0].discount
    else DiscountFactor(rules[1..], accountId, assetId)
  }

  /** When rule `i` is the first to apply, its discount is the one used. */
  lemma {:induction false} DiscountIsFirstApplicable(rules: seq<Eligibility>, accountId: string, assetId: string, i: nat)
    requires i < |rules| && Applies(rules[i], accountId, assetId)
    requires forall j :: 0 <= j < i ==> !Applies(rules[j], accountId, assetId)
    ensures DiscountFactor(rules, accountId, assetId) == rules[i].discount
  {
    if i > 0 {
      DiscountIsFirstApplicable(rules[1..], accountId, assetId, i - 1);
    }
  }

  /** When no rule applies, the discount is 0. */
  lemma {:induction false} DiscountWithoutApplicableRule(rules: seq<Eligibility>, accountId: string, assetId: string)
    requires forall j :: 0 <= j < |rules| ==> !Applies(rules[j], accountId, assetId)
    ensures DiscountFactor(rules, accountId, assetId) == 0.0
  {
    if |rules| > 0 {
      DiscountWithoutApplicableRule(rules[1..], accountId, assetId);
    }
  }

  /** The eligible rules, in order. */
  function EligibleOnly(rules: seq<Eligibility>): (r: seq<Eligibility>)
    ensures forall x :: x in r <==> x in rules && x.eligible
    ensures forall x :: multiset(r)[x] == if x.eligible then multiset(rules)[x] else 0
    ensures Subsequence(r, rules)
  {
    if |rules| == 0 then []
    else
      assert rules == [rules[0]] + rules[1..];
      assert multiset(rules) == multiset([rules[0]]) + multiset(rules[1..]);
      assert forall x :: x in rules <==> x == rules[0] || x in rules[1..];
      if rules[0].eligible then
        var rest := EligibleOnly(rules[1..]);
        assert ([rules[0]] + rest)[1..] == rest;
        assert multiset([rules[0]] + rest) == multiset([rules[0]]) + multiset(rest);
        [rules[0]] + rest
      else
        EligibleOnly(rules[1..])
  }

  /** Ineligible rules never contribute: dropping them leaves every discount unchanged. */
  lemma {:induction false} IneligibleRulesIgnored(rules: seq<Eligibility>, accountId: string, assetId: string)
    ensures DiscountFactor(EligibleOnly(rules), accountId, assetId) == DiscountFactor(rules, accountId, assetId)
  {
    if |rules| > 0 {
      IneligibleRulesIgnored(rules[1..], accountId, assetId);
    }
  }

  /** All discounts lie in [0, 1]. */
  ghost predicate UnitDiscounts(rules: seq<Eligibility>) {
    forall j :: 0 <= j < |rules| ==> 0.0 <= rules[j].discount <= 1.0
  }

  /** Discounts drawn from rules in [0, 1] are themselves in [0, 1]. */
  lemma {:induction false} DiscountInUnitInterval(rules: seq<Eligibility>, accountId: string, assetId: string)
    requires UnitDiscounts(rules)
    ensures 0.0 <= DiscountFactor(rules, accountId, assetId) <= 1.0
  {
    if |rules| > 0 {
      DiscountInUnitInterval(rules[1..], accountId, assetId);
    }
  }
}
