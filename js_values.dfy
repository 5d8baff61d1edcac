/**
 * JavaScript numbers as the dashboard uses them, and the two conversions it
 * applies to them: `Number(text)` and `String(number)`.
 *
 * A number is an integer or NaN. Fractions, infinities, negative zero and the
 * 53-bit precision limit of IEEE doubles are not represented.
 */
module JsValues {

  datatype JsNumber = Finite(v: int) | NaN

  /** `a < b`: false as soon as either side is NaN. */
  predicate Less(a: JsNumber, b: JsNumber)
  {
    a.Finite? && b.Finite? && a.v < b.v
  }

  /** `a * k` for an integer constant `k`: NaN stays NaN. */
  function Times(a: JsNumber, k: int): (r: JsNumber)
    ensures r.NaN? <==> a.NaN?
    ensures k > 0 ==> (Less(Finite(0), r) <==> Less(Finite(0), a))
  {
    if a.NaN? then NaN else Finite(a.v * k)
  }

  predicate IsDigit(c: char)
  {
    '0' <= c <= '9'
  }

  predicate AllDigits(s: string)
  {
    forall i :: 0 <= i < |s| ==> IsDigit(s[i])
  }

  function DigitChar(d: int): (c: char)
    requires 0 <= d < 10
    ensures IsDigit(c) && c as int - '0' as int == d
  {
    ('0' as int + d) as char
  }

  /** The decimal digits of `n`, most significant first, without leading zeros. */
  function Digits(n: nat): (s: string)
    ensures s != [] && AllDigits(s)
    ensures |s| > 1 ==> s[0] != '0'
    decreases n
  {
    if n < 10 then [DigitChar(n)] else Digits(n / 10) + [DigitChar(n % 10)]
  }

  /** The value of a string of decimal digits (leading zeros allowed). */
  function DigitsValue(s: string): nat
    requires AllDigits(s)
    decreases |s|
  {
    if s == [] then 0 else 10 * DigitsValue(s[..|s| - 1]) + (s[|s| - 1] as int - '0' as int)
  }

  /** Reading back the digits of `n` gives `n`. */
  lemma {:induction false} DigitsValueOfDigits(n: nat)
    ensures DigitsValue(Digits(n)) == n
    decreases n
  {
    if n >= 10 {
      var s := Digits(n);
      DigitsValueOfDigits(n / 10);
      assert s[..|s| - 1] == Digits(n / 10);
    }
  }

  /** `String(x)`: the decimal text of an integer, with a leading "-" when negative, or "NaN". */
  function NumberToString(x: JsNumber): (s: string)
    ensures s != []
    ensures x.Finite? && x.v >= 0 ==> AllDigits(s)
  {
    match x
    case NaN => "NaN"
    case Finite(v) => if v < 0 then "-" + Digits(-v) else Digits(v)
  }

  /**
   * `Number(s)` on the texts this model covers: the empty text is 0; an
   * optional "+" or "-" followed by one or more decimal digits is that
   * integer; any other text is NaN.
   */
  function StringToNumber(s: string): (x: JsNumber)
    ensures s == "NaN" ==> x.NaN?
    ensures AllDigits(s) ==> x.Finite? && x.v >= 0
  {
    if s == [] then Finite(0)
    else if AllDigits(s) then Finite(DigitsValue(s))
    else if |s| > 1 && s[0] == '-' && AllDigits(s[1..]) then Finite(-(DigitsValue(s[1..]) as int))
    else if |s| > 1 && s[0] == '+' && AllDigits(s[1..]) then Finite(DigitsValue(s[1..]))
    else NaN
  }

  /** `Number(String(x))` is `x` for every number, NaN included. */
  lemma NumberStringRoundTrip(x: JsNumber)
    ensures StringToNumber(NumberToString(x)) == x
  {
    match x
    case NaN =>
    case Finite(v) =>
      var s := NumberToString(x);
      if v < 0 {
        DigitsValueOfDigits(-v);
        assert s[1..] == Digits(-v);
        assert !IsDigit(s[0]);
      } else {
        DigitsValueOfDigits(v);
      }
  }
}
