/** The records exchanged with the valuation service (the `model` package). */
module Model {

  /** The currency a price carries when none is given. */
  const DefaultCurrency: string := "GBP"

  /** A holding of `quantity` units of one asset; the quantity may be zero or negative. */
  datatype Position = Position(assetId: string, quantity: int)

  /** The positions of one account, in the order the position source returned them. */
  datatype AccountPosition = AccountPosition(accountId: string, positions: seq<Position>)

  /** A discount rule: it applies to every (account, asset) pair it lists, but only when eligible. */
  datatype Eligibility = Eligibility(eligible: bool, assetIds: seq<string>, accountIds: seq<string>, discount: real)

  /** The current unit price of an asset, quoted in `currency`. */
  datatype Price = Price(assetId: string, price: real, currency: string)

  /** One unit of `currency` is worth `multiplier` US dollars. */
  datatype FXRate = FXRate(currency: string, multiplier: real)

  /** One output row: the account's collateral and market value in the requested currency. */
  datatype Account = Account(accountId: string, collateralValue: real, marketValue: real)

  /** The exceptions the valuation can raise. */
  datatype Error =
    | CurrencyNotFound(currency: string)  // a currency absent from the FX table, or a zero target rate
    | FXRateNotFound                      // the FX source returned no list at all
    | DuplicateKey(key: string)           // two prices for one asset, or two rates for one currency

  /** The two-argument price constructor, which leaves the currency at its default. */
  function PriceInDefaultCurrency(assetId: string, price: real): Price {
    Price(assetId, price, DefaultCurrency)
  }
}
