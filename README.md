# Crypto price dashboard: view derivation and query-string sync

This project models the logic of the price dashboard component
(`app/crypto/prices/CryptoDashboard.tsx`) that turns the rows from the
backend and the user's criteria into the rows shown, and that keeps the
criteria in the page's query string:

- **Normaliser**: every row of `initialData` is copied with `price_usd` and
  `market_cap` passed through `Number()` (module `Normalizer`).
- **Filter**: a row is kept when it passes all three tests. The first is a
  case-insensitive search in symbol or name. The second is a minimum price,
  where `""` means unset. The third is a minimum market cap given in billions
  (module `RowFilter`).
- **Sort**: the filtered rows are copied, and the copy is sorted with the
  comparator. `"price"` and `"market_cap"` sort descending. Every other key
  sorts by name (module `RowSort`).
- **Query parameters**: the initial criteria are read from the URL with their
  defaults. After every change of state, the URL effect builds a
  URLSearchParams list. It holds `search`, `minPrice` and `minMarketCapB`,
  each only when not at its default, and then `sort`, always (module
  `QuerySync`, over module `UrlSearchParams`).
- **Pipeline**: normalise, then filter, then sort (module `DerivedView`). Two
  concrete scenarios are proved there. With the default criteria, Bitcoin and
  Ethereum come out by price. Sorting by name puts "Bitcoin" and
  "bitcoin Cash" next to each other, before "Ethereum".

JavaScript numbers are modelled as `JsNumber = Finite(int) | NaN`
(module `JsValues`). `Number(text)` and `String(number)` are modelled for
integers and NaN, and `Number(String(x)) == x` is proved for every number.
The string operations the component calls (`toLowerCase`, `includes`,
`localeCompare`) are in module `JsStrings`.

The sort copies the filtered rows into a fresh array and sorts that array in
place by insertion sort. The filtered rows are a sequence value, so they are
never changed. The proved order is "every row is in comparator order with its
neighbour". This holds for any antisymmetric comparator, including the
source's one on NaN values. Where the comparator is a total preorder it gives
the full order: always for names, and for price or market cap when that field
is a number in every row.

Three facts about the code shape the model:
- A `sort` value from the URL is not checked against the three known keys.
  Only a missing or empty value becomes `"price"`. Any other key sorts by name
  and is written back to the URL unchanged.
- The URL effect rebuilds the parameters on every change of state, with no
  delay between changes.
- The component shows no indicator of how fresh the data is.

## Model

| member | source | states |
|---|---|---|
| JsValues.Times | app/crypto/prices/CryptoDashboard.tsx:54 | multiplying by a positive constant keeps NaN as NaN and keeps the sign test `> 0` |
| JsValues.NumberToString | app/crypto/prices/CryptoDashboard.tsx:65-66 | `String(x)` is never empty; for a non-negative number it is all decimal digits |
| JsValues.StringToNumber | app/crypto/prices/CryptoDashboard.tsx:45 | `Number("NaN")` is NaN; a text of digits is a non-negative number |
| JsValues.NumberStringRoundTrip | app/crypto/prices/CryptoDashboard.tsx:65 | `Number(String(x)) == x` for every number, NaN included, so a minimum price written to the URL reads back unchanged |
| JsValues.DigitsValueOfDigits | app/crypto/prices/CryptoDashboard.tsx:66 | the decimal digits written for a number read back as that number |
| JsStrings.Includes | app/crypto/prices/CryptoDashboard.tsx:80-81 | `s.includes(t)` holds exactly when `t` occurs at some index of `s` |
| JsStrings.ToLowerIgnoresCase | app/crypto/prices/CryptoDashboard.tsx:80-81 | two texts that differ only in the case of their letters lower-case to the same text |
| JsStrings.LexCompare | app/crypto/prices/CryptoDashboard.tsx:103 | code-point comparison returns -1, 0 or 1, and 0 exactly for equal texts |
| JsStrings.LexCompareAntisymmetric | app/crypto/prices/CryptoDashboard.tsx:103 | swapping the arguments negates the code-point comparison |
| JsStrings.LexCompareTransitive | app/crypto/prices/CryptoDashboard.tsx:103 | code-point order is transitive |
| JsStrings.LocaleCompare | app/crypto/prices/CryptoDashboard.tsx:103 | `localeCompare` returns -1, 0 or 1, and 0 exactly for equal names |
| JsStrings.LocaleCompareAntisymmetric | app/crypto/prices/CryptoDashboard.tsx:103 | swapping the names negates the result |
| JsStrings.LocaleCompareTransitive | app/crypto/prices/CryptoDashboard.tsx:103 | name order is transitive, so it is a total order on names |
| UrlSearchParams.GetFirst | app/crypto/prices/CryptoDashboard.tsx:41 | `get(name)` is null exactly when no pair has that name; otherwise its value belongs to such a pair |
| UrlSearchParams.GetFirstAppend | app/crypto/prices/CryptoDashboard.tsx:41-58 | `get` on a joined list reads the first part that has the name, else the second part |
| UrlSearchParams.SetPair | app/crypto/prices/CryptoDashboard.tsx:64-67 | after `set(name, value)`, `get(name)` is the value; a new name is appended at the end |
| UrlSearchParams.SetPairKeepsOthers | app/crypto/prices/CryptoDashboard.tsx:64-67 | `set(name, value)` leaves `get` of every other name as it was |
| UrlSearchParams.SearchParams.constructor | app/crypto/prices/CryptoDashboard.tsx:63 | `new URLSearchParams()` starts with an empty list |
| UrlSearchParams.SearchParams.Set | app/crypto/prices/CryptoDashboard.tsx:64-67 | `params.set` replaces the object's list by the set result; a name not yet present is appended |
| Normalizer.Coerce | app/crypto/prices/CryptoDashboard.tsx:34-35 | `Number()` keeps a JSON number and turns null into 0 |
| Normalizer.Normalise | app/crypto/prices/CryptoDashboard.tsx:30-38 | one row per input row, in order, with every field kept and `price_usd` and `market_cap` coerced |
| Normalizer.NormaliseTextRows | app/crypto/prices/CryptoDashboard.tsx:30-38 | rows whose numbers arrive as their own decimal text normalise back to those rows |
| Normalizer.NormaliseNumericRows | app/crypto/prices/CryptoDashboard.tsx:30-38 | rows whose numbers arrive as numbers normalise to themselves |
| ViewCriteria.MinMarketCapUsd | app/crypto/prices/CryptoDashboard.tsx:54 | the dollar threshold is positive exactly when the slider value in billions is positive, and NaN exactly when the slider value is NaN |
| RowFilter.FilterRows | app/crypto/prices/CryptoDashboard.tsx:74-94 | the kept rows keep their order as a subsequence of the data, and a row is kept exactly when it passes all three tests; an empty input gives an empty output |
| RowFilter.FilterRowsMultiplicity | app/crypto/prices/CryptoDashboard.tsx:74-94 | a row that passes is kept as often as it occurs in the data, and a row that fails is not kept at all |
| RowFilter.KeepMeaning | app/crypto/prices/CryptoDashboard.tsx:78-89 | the three tests in plain terms: the search text occurs ignoring case, the price is at least a set minimum, the market cap is at least a positive threshold of billions; NaN drops nothing |
| RowFilter.SearchIgnoresCase | app/crypto/prices/CryptoDashboard.tsx:80-81 | the search ignores case: changing the case of letters in the search text, the symbol or the name does not change whether a row matches |
| RowFilter.UnsetCriteriaKeepAll | app/crypto/prices/CryptoDashboard.tsx:78-89 | an empty search, an unset minimum price and a slider value that is not positive drop no row |
| RowFilter.RowAtMinimumPriceKept | app/crypto/prices/CryptoDashboard.tsx:86 | a row priced exactly at the minimum is kept, because the test is a strict `<` |
| RowSort.CompareAntisymmetric | app/crypto/prices/CryptoDashboard.tsx:101-103 | the comparator negates when its arguments swap, for every key |
| RowSort.InOrderTransitive | app/crypto/prices/CryptoDashboard.tsx:101-103 | comparator order is transitive for names, and for price or market cap when the values are numbers |
| RowSort.AdjacentInOrderIsSorted | app/crypto/prices/CryptoDashboard.tsx:101-103 | where the comparator is a total preorder, ordered neighbours give a sorted sequence |
| RowSort.SortInPlace | app/crypto/prices/CryptoDashboard.tsx:99-104 | the array becomes a permutation of itself in which every neighbour pair is in comparator order |
| RowSort.SortedCopy | app/crypto/prices/CryptoDashboard.tsx:97-106 | the result is a permutation of the filtered rows with every neighbour pair in comparator order. Other keys give non-decreasing names. "price" and "market_cap" give non-increasing values when all of them are numbers |
| QuerySync.OrElse | app/crypto/prices/CryptoDashboard.tsx:58 | reading a parameter with a fallback gives the value read when it is present and non-empty, and the fallback otherwise |
| QuerySync.MinPriceFromText | app/crypto/prices/CryptoDashboard.tsx:129 | the minimum price is unset exactly when the text is absent or empty, and is at least `Number(text)` otherwise |
| QuerySync.MinMarketCapFromText | app/crypto/prices/CryptoDashboard.tsx:50 | an absent or empty slider value reads as 0, a present one as `Number(text)` |
| QuerySync.ParseCriteria | app/crypto/prices/CryptoDashboard.tsx:41-59 | each field is read from the first pair with its name: `search` as given, or "" when absent; `minPrice` as `Number(text)`, or unset when absent or empty; `minMarketCapB` as `Number(text)`, or 0 when absent or empty; `sort` as given when non-empty, known or not, or "price" when absent or empty, so the sort key is never empty |
| QuerySync.QueryParams | app/crypto/prices/CryptoDashboard.tsx:62-67 | the list ends with `sort`, and its names appear in the order search, minPrice, minMarketCapB, sort, each at most once |
| QuerySync.QueryParamsNames | app/crypto/prices/CryptoDashboard.tsx:64-67 | a name is written exactly when its value is not the default; `sort` is always written |
| QuerySync.BuildParams | app/crypto/prices/CryptoDashboard.tsx:63-67 | the successive `params.set` calls build exactly the parameter list of the state |
| QuerySync.RoundTrip | app/crypto/prices/CryptoDashboard.tsx:41-67 | reading back the written list gives the same state exactly when the slider value is a number `>= 0` and the sort key is not empty |
| DerivedView.DeriveView | app/crypto/prices/CryptoDashboard.tsx:30-106 | the displayed rows are exactly the normalised rows that pass the filter, with their multiplicity, in comparator order: by descending price or market cap when that field is a number in every kept row, and by name for every other key |
| DerivedView.DefaultCriteriaKeepBoth | app/crypto/prices/CryptoDashboard.tsx:41-59 | with no URL parameters the defaults apply and both example rows pass the filter |
| DerivedView.ExampleNamesOrder | app/crypto/prices/CryptoDashboard.tsx:103 | "Bitcoin" sorts before "bitcoin Cash", which sorts before "Ethereum" |

## Left out

- Fetching the rows and the refresh status on the server (`app/crypto/prices/page.tsx`) is network I/O. The `lastUpdated` prop is never declared or used by the dashboard.
- React plumbing is not modelled: `useState`, `useMemo`, `useEffect`, the unused `data` state and the JSX table. So the effect's re-running after every change of state (`app/crypto/prices/CryptoDashboard.tsx:71`) is not modelled either. `router.replace` is a navigation side effect: the model stops at the parameter list handed to it.
- URLSearchParams `toString()` (percent-encoding and the `&`/`=` joining) and the parsing of the URL's query into pairs are not modelled. The query is an ordered list of name-value pairs.
- JsValues.StringToNumber: only the empty text, integers with an optional sign, and NaN are modelled. `Number()` also accepts fractions, exponents, surrounding white space, hexadecimal and `Infinity`. Those texts read as NaN here.
- JsValues.Times: JavaScript numbers are doubles. The model uses exact integers, so fractions, rounding and precision loss beyond 2^53 are not represented.
- JsStrings.LexCompare: characters are Unicode code points, while JavaScript strings are UTF-16 code units. Texts with characters above U+FFFF can therefore compare differently from a code-unit comparison.
- JsStrings.ToLower: only the ASCII letters A-Z are lower-cased. Full Unicode case mapping is not modelled.
- JsStrings.LocaleCompare: locale collation is modelled as a comparison of case-folded text in Unicode code-point order, with ties broken by the raw code points. Accents, numeric collation and locale tailoring are not modelled.
- RowSort.SortedCopy: full price or market-cap order is only claimed when every compared value is a number. With a NaN value, the source's subtraction comparator is not consistent and the order depends on the engine. Only the neighbour order is proved in that case.
- RowSort.SortedCopy: the stability of `Array.prototype.sort` (equal rows keep their filtered order) is not proved. The insertion sort used is stable, but no contract states it.
- Formatting for display (`toLocaleString`, `Date`) is not modelled. The slider's bounds (0 to 2000, step 10) are not modelled either: its value is any number.
