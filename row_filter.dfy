/**
 * The `filteredData` predicate: a row is kept when it passes the search,
 * the minimum price and the minimum market cap, all three.
 */
module RowFilter {

  import opened JsValues
  import opened JsStrings
  import opened Normalizer
  import opened ViewCriteria

  /** An empty search passes; otherwise the lower-cased search occurs in the lower-cased symbol or name. */
  predicate MatchesSearch(search: string, r: Row)
  {
    search == ""
    || Includes(ToLower(r.symbol), ToLower(search))
    || Includes(ToLower(r.name), ToLower(search))
  }

  /** The row is dropped only when a minimum is set and `price_usd < minPrice`. */
  predicate MeetsMinPrice(minPrice: MinPrice, r: Row)
  {
    !(minPrice.AtLeast? && Less(r.priceUsd, minPrice.n))
  }

  /** The row is dropped only when the dollar threshold is `> 0` and `market_cap <` it. */
  predicate MeetsMinMarketCap(minUsd: JsNumber, r: Row)
  {
    !(Less(Finite(0), minUsd) && Less(r.marketCap, minUsd))
  }

  /** The search ignores case, in the search text and in the row's symbol and name alike. */
  lemma SearchIgnoresCase(s: string, t: string, r: Row, q: Row)
    requires EqualIgnoringCase(s, t)
    requires EqualIgnoringCase(r.symbol, q.symbol) && EqualIgnoringCase(r.name, q.name)
    ensures MatchesSearch(s, r) == MatchesSearch(t, q)
  {
    ToLowerIgnoresCase(s, t);
    ToLowerIgnoresCase(r.symbol, q.symbol);
    ToLowerIgnoresCase(r.name, q.name);
  }

  predicate Keep(c: Criteria, r: Row)
  {
    && MatchesSearch(c.search, r)
    && MeetsMinPrice(c.minPrice, r)
    && MeetsMinMarketCap(MinMarketCapUsd(c), r)
  }

  /** `xs` is `ys` with some elements left out, the rest in their order. */
  ghost predicate IsSubsequence(xs: seq<Row>, ys: seq<Row>)
    decreases |ys|
  {
    || xs == []
    || (&& ys != []
        && ((xs[0] == ys[0] && IsSubsequence(xs[1..], ys[1..])) || IsSubsequence(xs, ys[1..])))
  }

  /** `normalizedData.filter(...)`. */
  function FilterRows(rows: seq<Row>, c: Criteria): (kept: seq<Row>)
    ensures IsSubsequence(kept, rows)
    ensures forall r :: r in kept <==> r in rows && Keep(c, r)
    decreases |rows|
  {
    if rows == [] then []
    else
      var rest := FilterRows(rows[1..], c);
      assert rows == [rows[0]] + rows[1..];
      if Keep(c, rows[0]) then [rows[0]] + rest else rest
  }

  /** A kept row is kept as often as it occurs in the data; a dropped row not at all. */
  lemma {:induction false} FilterRowsMultiplicity(rows: seq<Row>, c: Criteria, r: Row)
    ensures multiset(FilterRows(rows, c))[r] == if Keep(c, r) then multiset(rows)[r] else 0
    decreases |rows|
  {
    if rows != [] {
      FilterRowsMultiplicity(rows[1..], c, r);
      assert rows == [rows[0]] + rows[1..];
    }
  }

  /**
   * What a kept row satisfies, in plain terms: the search text occurs in its
   * symbol or name (ignoring case), its price is at least a set minimum, and
   * its market cap is at least a positive threshold of `minMarketCapB`
   * billions. A NaN on either side of a comparison drops nothing.
   */
  lemma KeepMeaning(c: Criteria, r: Row)
    ensures Keep(c, r) <==>
      && (c.search != "" ==>
            (exists i :: OccursAt(ToLower(r.symbol), ToLower(c.search), i))
            || (exists i :: OccursAt(ToLower(r.name), ToLower(c.search), i)))
      && (c.minPrice.AtLeast? && c.minPrice.n.Finite? && r.priceUsd.Finite? ==>
            r.priceUsd.v >= c.minPrice.n.v)
      && (c.minMarketCapB.Finite? && c.minMarketCapB.v > 0 && r.marketCap.Finite? ==>
            r.marketCap.v >= c.minMarketCapB.v * 1_000_000_000)
  {
  }

  /** With no search, no minimum price and no positive market-cap threshold, nothing is dropped. */
  lemma {:induction false} UnsetCriteriaKeepAll(rows: seq<Row>, c: Criteria)
    requires c.search == "" && c.minPrice == Unset
    requires !Less(Finite(0), c.minMarketCapB)
    ensures FilterRows(rows, c) == rows
    decreases |rows|
  {
    if rows != [] {
      UnsetCriteriaKeepAll(rows[1..], c);
      assert rows == [rows[0]] + rows[1..];
    }
  }

  /** A row priced exactly at the minimum is kept: the test is a strict `<`. */
  lemma RowAtMinimumPriceKept(rows: seq<Row>, c: Criteria, r: Row)
    requires r in rows && c.minPrice == AtLeast(r.priceUsd)
    requires MatchesSearch(c.search, r) && MeetsMinMarketCap(MinMarketCapUsd(c), r)
    ensures r in FilterRows(rows, c)
  {
  }
}
