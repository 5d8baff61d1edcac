/**
 * The rows handed to the dashboard and their normalisation: every row is
 * copied with `price_usd` and `market_cap` passed through `Number()`.
 */
module Normalizer {

  import opened JsValues

  /** A numeric field as the backend's JSON may deliver it. */
  datatype RawValue = JsonNumber(n: JsNumber) | JsonString(s: string) | JsonNull

  /** A row of `initialData`, before normalisation. */
  datatype RawRow = RawRow(
    id: int,
    symbol: string,
    name: string,
    priceUsd: RawValue,
    marketCap: RawValue,
    timestamp: string)

  /** A row of the normalised data: both numeric fields are numbers. */
  datatype Row = Row(
    id: int,
    symbol: string,
    name: string,
    priceUsd: JsNumber,
    marketCap: JsNumber,
    timestamp: string)

  /** `Number(x)` on a JSON value: a number is kept, text is parsed, null is 0. */
  function Coerce(x: RawValue): (n: JsNumber)
    ensures x.JsonNumber? ==> n == x.n
    ensures x.JsonNull? ==> n == Finite(0)
  {
    match x
    case JsonNumber(n) => n
    case JsonString(s) => StringToNumber(s)
    case JsonNull => Finite(0)
  }

  function NormaliseRow(c: RawRow): Row
  {
    Row(c.id, c.symbol, c.name, Coerce(c.priceUsd), Coerce(c.marketCap), c.timestamp)
  }

  /** The normalised data: one row per input row, in the same order. */
  function Normalise(rows: seq<RawRow>): (r: seq<Row>)
    ensures |r| == |rows|
    ensures forall i :: 0 <= i < |rows| ==>
      && r[i].id == rows[i].id
      && r[i].symbol == rows[i].symbol
      && r[i].name == rows[i].name
      && r[i].timestamp == rows[i].timestamp
      && r[i].priceUsd == Coerce(rows[i].priceUsd)
      && r[i].marketCap == Coerce(rows[i].marketCap)
  {
    seq(|rows|, i requires 0 <= i < |rows| => NormaliseRow(rows[i]))
  }

  /** A row as the backend sends it when its numbers are encoded as decimal text. */
  function AsText(r: Row): RawRow
  {
    RawRow(r.id, r.symbol, r.name, JsonString(NumberToString(r.priceUsd)),
           JsonString(NumberToString(r.marketCap)), r.timestamp)
  }

  /** Normalising rows whose numbers arrive as their own decimal text gives back those rows. */
  lemma NormaliseTextRows(rows: seq<Row>)
    ensures Normalise(seq(|rows|, i requires 0 <= i < |rows| => AsText(rows[i]))) == rows
  {
    var raw := seq(|rows|, i requires 0 <= i < |rows| => AsText(rows[i]));
    forall i | 0 <= i < |rows|
      ensures Normalise(raw)[i] == rows[i]
    {
      NumberStringRoundTrip(rows[i].priceUsd);
      NumberStringRoundTrip(rows[i].marketCap);
    }
  }

  /** A row whose numbers already arrive as JSON numbers. */
  function AsNumbers(r: Row): RawRow
  {
    RawRow(r.id, r.symbol, r.name, JsonNumber(r.priceUsd), JsonNumber(r.marketCap), r.timestamp)
  }

  /** Normalisation leaves data that is already numeric as it is. */
  lemma NormaliseNumericRows(rows: seq<Row>)
    ensures Normalise(seq(|rows|, i requires 0 <= i < |rows| => AsNumbers(rows[i]))) == rows
  {
  }
}
