/**
 * The rows the dashboard displays: the normalised data, filtered by the
 * criteria, then sorted by the sort key.
 */
module DerivedView {

  import opened JsValues
  import opened JsStrings
  import opened Normalizer
  import opened ViewCriteria
  import opened RowFilter
  import opened RowSort
  import opened QuerySync

  /**
   * `sortedData`: exactly the normalised rows that pass the filter, each as
   * often as in the data, with every neighbour pair in comparator order; by
   * descending price or market cap when that field is a number in every
   * kept row, and in name order for keys other than "price" and "market_cap".
   */
  method DeriveView(raw: seq<RawRow>, c: Criteria) returns (view: seq<Row>)
    ensures multiset(view) == multiset(FilterRows(Normalise(raw), c))
    ensures forall r :: r in view <==> r in Normalise(raw) && Keep(c, r)
    ensures AdjacentInOrder(c.sortKey, view)
    ensures c.sortKey == "price" && AllPricesFinite(FilterRows(Normalise(raw), c)) ==>
      forall i, j :: 0 <= i < j < |view| ==> !Less(view[i].priceUsd, view[j].priceUsd)
    ensures c.sortKey == "market_cap" && AllMarketCapsFinite(FilterRows(Normalise(raw), c)) ==>
      forall i, j :: 0 <= i < j < |view| ==> !Less(view[i].marketCap, view[j].marketCap)
    ensures c.sortKey != "price" && c.sortKey != "market_cap" ==>
      forall i, j :: 0 <= i < j < |view| ==> LocaleCompare(view[i].name, view[j].name) <= 0
  {
    var rows := Normalise(raw);
    var kept := FilterRows(rows, c);
    view := SortedCopy(kept, c.sortKey);
    forall r
      ensures r in view <==> r in kept
    {
      assert r in view <==> r in multiset(view);
    }
  }

  const BTC: RawRow := RawRow(1, "BTC", "Bitcoin", JsonNumber(Finite(65000)),
                              JsonNumber(Finite(1_200_000_000_000)), "")
  const ETH: RawRow := RawRow(2, "ETH", "Ethereum", JsonNumber(Finite(3000)),
                              JsonNumber(Finite(400_000_000_000)), "")

  /** With no URL parameters every row passes the filter. */
  lemma DefaultCriteriaKeepBoth()
    ensures ParseCriteria([]) == DEFAULT_CRITERIA
    ensures FilterRows(Normalise([BTC, ETH]), DEFAULT_CRITERIA) == [NormaliseRow(BTC), NormaliseRow(ETH)]
  {
  }

  /** Bitcoin and Ethereum with the default criteria: sorted by price, Bitcoin first. */
  method DefaultCriteriaScenario()
  {
    DefaultCriteriaKeepBoth();
    var view := DeriveView([BTC, ETH], ParseCriteria([]));
    var b, e := NormaliseRow(BTC), NormaliseRow(ETH);
    assert multiset(view) == multiset{b, e};
    assert |view| == 2;
    var x, y := view[0], view[1];
    assert x in multiset(view) && y in multiset(view);
    assert InOrder("price", x, y);
    if x != b {
      assert false;
    }
    assert view == [b, e];
  }

  /** "Bitcoin" before "bitcoin Cash" (case is ignored first) before "Ethereum". */
  lemma ExampleNamesOrder()
    ensures LocaleCompare("Bitcoin", "bitcoin Cash") < 0
    ensures LocaleCompare("bitcoin Cash", "Ethereum") < 0
    ensures LocaleCompare("Bitcoin", "Ethereum") < 0
  {
    assert ToLower("Bitcoin") == "bitcoin";
    assert ToLower("bitcoin Cash") == "bitcoin cash";
    assert ToLower("Ethereum") == "ethereum";
    assert LexCompare("bitcoin", "bitcoin cash") == -1 by {
      var s, t := "bitcoin", "bitcoin cash";
      assert LexCompare(s[7..], t[7..]) == -1;
      assert LexCompare(s[6..], t[6..]) == -1;
      assert LexCompare(s[5..], t[5..]) == -1;
      assert LexCompare(s[4..], t[4..]) == -1;
      assert LexCompare(s[3..], t[3..]) == -1;
      assert LexCompare(s[2..], t[2..]) == -1;
      assert LexCompare(s[1..], t[1..]) == -1;
    }
    assert LexCompare("bitcoin cash", "ethereum") == -1;
    assert LexCompare("bitcoin", "ethereum") == -1;
  }

  /**
   * Sorting by name puts "Bitcoin" and "bitcoin Cash" next to each other,
   * whatever their case, and "Ethereum" after them.
   */
  method NameSortScenario()
  {
    var b := Row(1, "BTC", "Bitcoin", Finite(65000), Finite(1_200_000_000_000), "");
    var bc := Row(2, "BCH", "bitcoin Cash", Finite(400), Finite(8_000_000_000), "");
    var e := Row(3, "ETH", "Ethereum", Finite(3000), Finite(400_000_000_000), "");
    var view := SortedCopy([e, bc, b], "name");
    ExampleNamesOrder();
    LocaleCompareAntisymmetric("Bitcoin", "bitcoin Cash");
    LocaleCompareAntisymmetric("bitcoin Cash", "Ethereum");
    LocaleCompareAntisymmetric("Bitcoin", "Ethereum");
    assert |view| == 3;
    var x, y, z := view[0], view[1], view[2];
    assert x in multiset(view) && y in multiset(view) && z in multiset(view);
    assert x == b || x == bc || x == e;
    assert LocaleCompare(x.name, y.name) <= 0 && LocaleCompare(x.name, z.name) <= 0;
    assert LocaleCompare(y.name, z.name) <= 0;
    if x != b {
      assert false;
    }
    if y != bc {
      assert false;
    }
    assert view == [b, bc, e];
  }
}
