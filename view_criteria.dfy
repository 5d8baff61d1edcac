/** The dashboard's view state: search text, the two thresholds and the sort key. */
module ViewCriteria {

  import opened JsValues

  /** The minimum-price state: a number, or "" when unset. */
  datatype MinPrice = Unset | AtLeast(n: JsNumber)

  /**
   * The four pieces of state of the dashboard. The sort key is any text:
   * nothing restricts it to "price", "market_cap" or "name".
   */
  datatype Criteria = Criteria(
    search: string,
    minPrice: MinPrice,
    minMarketCapB: JsNumber,
    sortKey: string)

  /** The slider counts market capitalisation in billions of dollars. */
  const BILLION: int := 1_000_000_000

  /** The state used when the URL supplies nothing. */
  const DEFAULT_CRITERIA: Criteria := Criteria("", Unset, Finite(0), "price")

  /** `minMarketCapB * 1_000_000_000`: the market-cap threshold in dollars. */
  function MinMarketCapUsd(c: Criteria): (usd: JsNumber)
    ensures usd.NaN? <==> c.minMarketCapB.NaN?
    ensures Less(Finite(0), usd) <==> Less(Finite(0), c.minMarketCapB)
  {
    Times(c.minMarketCapB, BILLION)
  }
}
