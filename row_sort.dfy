/**
 * The `sortedData` step: copy the filtered rows and sort the copy with the
 * dashboard's comparator.
 */
module RowSort {

  import opened JsValues
  import opened JsStrings
  import opened Normalizer

  /** `b - a` inside a comparator: a NaN result is read as +0, as Array.prototype.sort reads it. */
  function Difference(b: JsNumber, a: JsNumber): int
  {
    if a.Finite? && b.Finite? then b.v - a.v else 0
  }

  /**
   * The comparator: negative puts `a` first. "price" and "market_cap" sort
   * descending; every other key sorts by name.
   */
  function Compare(key: string, a: Row, b: Row): int
  {
    if key == "price" then Difference(b.priceUsd, a.priceUsd)
    else if key == "market_cap" then Difference(b.marketCap, a.marketCap)
    else LocaleCompare(a.name, b.name)
  }

  lemma CompareAntisymmetric(key: string, a: Row, b: Row)
    ensures Compare(key, b, a) == -Compare(key, a, b)
  {
    LocaleCompareAntisymmetric(a.name, b.name);
  }

  predicate InOrder(key: string, a: Row, b: Row)
  {
    Compare(key, a, b) <= 0
  }

  /** Every row is in comparator order with the row after it. */
  ghost predicate AdjacentInOrder(key: string, s: seq<Row>)
  {
    forall k :: 0 < k < |s| ==> InOrder(key, s[k - 1], s[k])
  }

  ghost predicate Sorted(key: string, s: seq<Row>)
  {
    forall i, j :: 0 <= i < j < |s| ==> InOrder(key, s[i], s[j])
  }

  predicate AllPricesFinite(s: seq<Row>)
  {
    forall r :: r in s ==> r.priceUsd.Finite?
  }

  predicate AllMarketCapsFinite(s: seq<Row>)
  {
    forall r :: r in s ==> r.marketCap.Finite?
  }

  /** The comparator is a total preorder on rows whose compared field is a number. */
  ghost predicate ComparableRows(key: string, s: seq<Row>)
  {
    && (key == "price" ==> AllPricesFinite(s))
    && (key == "market_cap" ==> AllMarketCapsFinite(s))
  }

  lemma InOrderTransitive(key: string, a: Row, b: Row, c: Row)
    requires key == "price" ==> a.priceUsd.Finite? && b.priceUsd.Finite? && c.priceUsd.Finite?
    requires key == "market_cap" ==> a.marketCap.Finite? && b.marketCap.Finite? && c.marketCap.Finite?
    requires InOrder(key, a, b) && InOrder(key, b, c)
    ensures InOrder(key, a, c)
  {
    if key != "price" && key != "market_cap" {
      LocaleCompareTransitive(a.name, b.name, c.name);
    }
  }

  lemma {:induction false} AdjacentInOrderReaches(key: string, s: seq<Row>, i: int, j: int)
    requires AdjacentInOrder(key, s) && ComparableRows(key, s)
    requires 0 <= i < j < |s|
    ensures InOrder(key, s[i], s[j])
    decreases j - i
  {
    if i + 1 < j {
      AdjacentInOrderReaches(key, s, i, j - 1);
      InOrderTransitive(key, s[i], s[j - 1], s[j]);
    }
  }

  /** Where the comparator is a total preorder, ordering neighbours orders the whole sequence. */
  lemma AdjacentInOrderIsSorted(key: string, s: seq<Row>)
    requires AdjacentInOrder(key, s) && ComparableRows(key, s)
    ensures Sorted(key, s)
  {
    forall i, j | 0 <= i < j < |s|
      ensures InOrder(key, s[i], s[j])
    {
      AdjacentInOrderReaches(key, s, i, j);
    }
  }

  /** Exchanges `a[i]` and `a[i + 1]`. */
  method Swap(a: array<Row>, i: int)
    requires 0 <= i && i + 1 < a.Length
    modifies a
    ensures a[i] == old(a[i + 1]) && a[i + 1] == old(a[i])
    ensures forall k :: 0 <= k < a.Length && k != i && k != i + 1 ==> a[k] == old(a[k])
    ensures multiset(a[..]) == old(multiset(a[..]))
  {
    a[i], a[i + 1] := a[i + 1], a[i];
  }

  /** `array.sort(compare)` on the copy: insertion sort by swapping neighbours. */
  method SortInPlace(a: array<Row>, key: string)
    modifies a
    ensures multiset(a[..]) == old(multiset(a[..]))
    ensures AdjacentInOrder(key, a[..])
  {
    var i := 0;
    while i < a.Length
      invariant 0 <= i <= a.Length
      invariant forall k :: 0 < k < i ==> InOrder(key, a[k - 1], a[k])
      invariant multiset(a[..]) == old(multiset(a[..]))
    {
      var j := i;
      while j > 0 && Compare(key, a[j - 1], a[j]) > 0
        invariant 0 <= j <= i
        invariant forall k :: 0 < k < j ==> InOrder(key, a[k - 1], a[k])
        invariant forall k :: j < k <= i ==> InOrder(key, a[k - 1], a[k])
        invariant 0 < j < i ==> InOrder(key, a[j - 1], a[j + 1])
        invariant multiset(a[..]) == old(multiset(a[..]))
      {
        CompareAntisymmetric(key, a[j - 1], a[j]);
        Swap(a, j - 1);
        j := j - 1;
      }
      i := i + 1;
    }
  }

  /**
   * `[...filteredData].sort(compare)`: the result is a permutation of the
   * rows, every neighbour pair is in comparator order, and so the whole
   * result is ordered by name for keys other than "price" and "market_cap",
   * by descending price or market cap for those two when that field is a
   * number in every row. The rows themselves are a value and stay as they were.
   */
  method SortedCopy(rows: seq<Row>, key: string) returns (sorted: seq<Row>)
    ensures multiset(sorted) == multiset(rows)
    ensures AdjacentInOrder(key, sorted)
    ensures key == "price" && AllPricesFinite(rows) ==>
      forall i, j :: 0 <= i < j < |sorted| ==> !Less(sorted[i].priceUsd, sorted[j].priceUsd)
    ensures key == "market_cap" && AllMarketCapsFinite(rows) ==>
      forall i, j :: 0 <= i < j < |sorted| ==> !Less(sorted[i].marketCap, sorted[j].marketCap)
    ensures key != "price" && key != "market_cap" ==>
      forall i, j :: 0 <= i < j < |sorted| ==> LocaleCompare(sorted[i].name, sorted[j].name) <= 0
  {
    var copy := new Row[|rows|](i requires 0 <= i < |rows| => rows[i]);
    assert copy[..] == rows;
    SortInPlace(copy, key);
    sorted := copy[..];
    forall r | r in sorted
      ensures r in rows
    {
      assert r in multiset(sorted);
    }
    if ComparableRows(key, sorted) {
      AdjacentInOrderIsSorted(key, sorted);
    }
  }
}
