/**
 * The two directions between the view state and the page's query
 * parameters: the initial state read from the URL, and the parameter list
 * the URL effect rebuilds after every change of state.
 */
module QuerySync {

  import opened Wrappers
  import opened JsValues
  import opened UrlSearchParams
  import opened ViewCriteria

  /** `get(name) || fallback`: an absent or empty value falls back. */
  function OrElse(x: Option<string>, fallback: string): (r: string)
    ensures x.Some? && x.value != "" ==> r == x.value
    ensures !(x.Some? && x.value != "") ==> r == fallback
    ensures r == "" ==> fallback == ""
  {
    if x.Some? && x.value != "" then x.value else fallback
  }

  /**
   * `text ? Number(text) : ""`: the minimum price read from the URL and from
   * the price input alike. An absent or empty text leaves it unset.
   */
  function MinPriceFromText(text: Option<string>): (m: MinPrice)
    ensures m.Unset? <==> (text.None? || text.value == "")
    ensures text.Some? && text.value != "" ==> m == AtLeast(StringToNumber(text.value))
  {
    if text.Some? && text.value != "" then AtLeast(StringToNumber(text.value)) else Unset
  }

  /** `get(name) ? Number(get(name)) : 0`: the slider value read from the URL. */
  function MinMarketCapFromText(text: Option<string>): (b: JsNumber)
    ensures (text.None? || text.value == "") ==> b == Finite(0)
    ensures text.Some? && text.value != "" ==> b == StringToNumber(text.value)
  {
    if text.Some? && text.value != "" then StringToNumber(text.value) else Finite(0)
  }

  /**
   * The initial state read from the query parameters. Defaults are "", unset,
   * 0 and "price"; a sort key other than the three known ones is kept as given.
   */
  function ParseCriteria(params: seq<Pair>): (c: Criteria)
    ensures c.sortKey != ""
    ensures c.search == (if GetFirst(params, "search").Some? then GetFirst(params, "search").value else "")
    ensures GetFirst(params, "minPrice").Some? && GetFirst(params, "minPrice").value != "" ==>
      c.minPrice == AtLeast(StringToNumber(GetFirst(params, "minPrice").value))
    ensures GetFirst(params, "minPrice") in {None, Some("")} ==> c.minPrice == Unset
    ensures GetFirst(params, "minMarketCapB").Some? && GetFirst(params, "minMarketCapB").value != "" ==>
      c.minMarketCapB == StringToNumber(GetFirst(params, "minMarketCapB").value)
    ensures GetFirst(params, "minMarketCapB") in {None, Some("")} ==> c.minMarketCapB == Finite(0)
    ensures GetFirst(params, "sort").Some? && GetFirst(params, "sort").value != "" ==>
      c.sortKey == GetFirst(params, "sort").value
    ensures GetFirst(params, "sort") in {None, Some("")} ==> c.sortKey == "price"
    ensures !HasName(params, "search") ==> c.search == ""
    ensures !HasName(params, "minPrice") ==> c.minPrice == Unset
    ensures !HasName(params, "minMarketCapB") ==> c.minMarketCapB == Finite(0)
    ensures !HasName(params, "sort") ==> c.sortKey == "price"
  {
    Criteria(
      OrElse(GetFirst(params, "search"), ""),
      MinPriceFromText(GetFirst(params, "minPrice")),
      MinMarketCapFromText(GetFirst(params, "minMarketCapB")),
      OrElse(GetFirst(params, "sort"), "price"))
  }

  /** The position of each parameter name in the written list. */
  function NameRank(name: string): nat
  {
    if name == "search" then 0
    else if name == "minPrice" then 1
    else if name == "minMarketCapB" then 2
    else if name == "sort" then 3
    else 4
  }

  /** `search` when non-empty. */
  function SearchPart(c: Criteria): seq<Pair>
  {
    if c.search != "" then [("search", c.search)] else []
  }

  /** `minPrice` when not "". */
  function MinPricePart(c: Criteria): seq<Pair>
  {
    if c.minPrice.AtLeast? then [("minPrice", NumberToString(c.minPrice.n))] else []
  }

  /** `minMarketCapB` when `> 0`. */
  function MinMarketCapPart(c: Criteria): seq<Pair>
  {
    if Less(Finite(0), c.minMarketCapB) then [("minMarketCapB", NumberToString(c.minMarketCapB))] else []
  }

  /**
   * The parameter list the URL effect produces: `search`, `minPrice` and
   * `minMarketCapB` in that order, each only when it differs from its
   * default, then `sort`, always.
   */
  function QueryParams(c: Criteria): (params: seq<Pair>)
    ensures 1 <= |params| <= 4 && params[|params| - 1] == ("sort", c.sortKey)
    ensures forall i, j :: 0 <= i < j < |params| ==> NameRank(params[i].0) < NameRank(params[j].0)
  {
    SearchPart(c) + MinPricePart(c) + MinMarketCapPart(c) + [("sort", c.sortKey)]
  }

  /** Which names each part of the list carries. */
  lemma PartNames(c: Criteria, name: string)
    ensures HasName(SearchPart(c), name) <==> c.search != "" && name == "search"
    ensures HasName(MinPricePart(c), name) <==> c.minPrice.AtLeast? && name == "minPrice"
    ensures HasName(MinMarketCapPart(c), name) <==> Less(Finite(0), c.minMarketCapB) && name == "minMarketCapB"
  {
    if c.search != "" {
      assert SearchPart(c)[0].0 == "search";
    }
    if c.minPrice.AtLeast? {
      assert MinPricePart(c)[0].0 == "minPrice";
    }
    if Less(Finite(0), c.minMarketCapB) {
      assert MinMarketCapPart(c)[0].0 == "minMarketCapB";
    }
  }

  /** `get(name)` on the written list reads the first part that carries `name`. */
  lemma GetFirstOfParts(c: Criteria, name: string)
    ensures GetFirst(QueryParams(c), name) ==
      if HasName(SearchPart(c), name) then GetFirst(SearchPart(c), name)
      else if HasName(MinPricePart(c), name) then GetFirst(MinPricePart(c), name)
      else if HasName(MinMarketCapPart(c), name) then GetFirst(MinMarketCapPart(c), name)
      else GetFirst([("sort", c.sortKey)], name)
  {
    var a, b, m, s := SearchPart(c), MinPricePart(c), MinMarketCapPart(c), [("sort", c.sortKey)];
    GetFirstAppend(a + b + m, s, name);
    GetFirstAppend(a + b, m, name);
    GetFirstAppend(a, b, name);
    HasNameAppend(a + b, m, name);
    HasNameAppend(a, b, name);
  }

  /**
   * Each name is written at most once, and exactly when its value is not the
   * default; `sort` is always written.
   */
  lemma QueryParamsNames(c: Criteria, name: string)
    ensures HasName(QueryParams(c), name) <==>
      || (name == "search" && c.search != "")
      || (name == "minPrice" && c.minPrice.AtLeast?)
      || (name == "minMarketCapB" && Less(Finite(0), c.minMarketCapB))
      || name == "sort"
  {
    var a, b, m, s := SearchPart(c), MinPricePart(c), MinMarketCapPart(c), [("sort", c.sortKey)];
    PartNames(c, name);
    HasNameAppend(a, b, name);
    HasNameAppend(a + b, m, name);
    HasNameAppend(a + b + m, s, name);
  }

  /**
   * The URL effect's builder: a fresh URLSearchParams and one `set` per
   * parameter that is not at its default, then `set("sort", ...)`.
   */
  method BuildParams(c: Criteria) returns (params: seq<Pair>)
    ensures params == QueryParams(c)
  {
    var p := new SearchParams();
    if c.search != "" {
      p.Set("search", c.search);
    }
    assert p.list == SearchPart(c);
    PartNames(c, "minPrice");
    if c.minPrice.AtLeast? {
      p.Set("minPrice", NumberToString(c.minPrice.n));
    }
    assert p.list == SearchPart(c) + MinPricePart(c);
    PartNames(c, "minMarketCapB");
    HasNameAppend(SearchPart(c), MinPricePart(c), "minMarketCapB");
    if Less(Finite(0), c.minMarketCapB) {
      p.Set("minMarketCapB", NumberToString(c.minMarketCapB));
    }
    assert p.list == SearchPart(c) + MinPricePart(c) + MinMarketCapPart(c);
    PartNames(c, "sort");
    HasNameAppend(SearchPart(c), MinPricePart(c), "sort");
    HasNameAppend(SearchPart(c) + MinPricePart(c), MinMarketCapPart(c), "sort");
    p.Set("sort", c.sortKey);
    params := p.list;
  }

  /**
   * Reading back the parameters written for a state gives that state exactly
   * when its slider value is a number `>= 0` and its sort key is not empty:
   * a negative or NaN slider value is not written and reads back as 0, and an
   * empty sort key reads back as "price".
   */
  lemma RoundTrip(c: Criteria)
    ensures ParseCriteria(QueryParams(c)) == c <==>
      c.minMarketCapB.Finite? && c.minMarketCapB.v >= 0 && c.sortKey != ""
  {
    var params := QueryParams(c);
    PartNames(c, "search");
    PartNames(c, "minPrice");
    PartNames(c, "minMarketCapB");
    PartNames(c, "sort");
    GetFirstOfParts(c, "search");
    GetFirstOfParts(c, "minPrice");
    GetFirstOfParts(c, "minMarketCapB");
    GetFirstOfParts(c, "sort");
    if c.minPrice.AtLeast? {
      NumberStringRoundTrip(c.minPrice.n);
    }
    if Less(Finite(0), c.minMarketCapB) {
      NumberStringRoundTrip(c.minMarketCapB);
    }
  }
}
