/** Sign-aware display helpers (services/financeUtils.ts). The numbers
    themselves are rendered by `toFixed` and `Intl.NumberFormat`, which are
    outside the model: their output is passed in as `digits`. */
module FinanceUtils {

  const Red := "text-stock-red"
  const Green := "text-stock-green"
  const Gray := "text-gray-500"

  const RedBg := "bg-red-50"
  const GreenBg := "bg-green-50"
  const GrayBg := "bg-gray-50"

  /** Text colour for a signed amount: red for gains, green for losses. */
  function SignColor(val: real): (r: string)
    ensures r == Red <==> val > 0.0
    ensures r == Green <==> val < 0.0
    ensures r == Gray <==> val == 0.0
  {
    if val > 0.0 then Red else if val < 0.0 then Green else Gray
  }

  /** Background colour for a signed amount. */
  function BgColor(val: real): (r: string)
    ensures r == RedBg <==> val > 0.0
    ensures r == GreenBg <==> val < 0.0
    ensures r == GrayBg <==> val == 0.0
  {
    if val > 0.0 then RedBg else if val < 0.0 then GreenBg else GrayBg
  }

  /** Both colourings classify every value the same way. */
  lemma SameSignClassification(val: real)
    ensures SignColor(val) == Red <==> BgColor(val) == RedBg
    ensures SignColor(val) == Green <==> BgColor(val) == GreenBg
    ensures SignColor(val) == Gray <==> BgColor(val) == GrayBg
  {
  }

  /** The sign prefix both signed formats put in front of the digits. */
  function SignPrefix(val: real): string {
    if val > 0.0 then "+" else ""
  }

  /** `formatPct`: `digits` is `val.toFixed(2)`, which carries its own minus
      sign; a `+` is added for strictly positive values and a `%` always
      closes the text. */
  function FormatPct(val: real, digits: string): (r: string)
    ensures |r| == |digits| + 1 + (if val > 0.0 then 1 else 0)
    ensures r[|r| - 1] == '%'
    ensures val > 0.0 ==> r[0] == '+' && r[1..|r| - 1] == digits
    ensures val <= 0.0 ==> r[..|r| - 1] == digits
  {
    SignPrefix(val) + digits + "%"
  }

  /** `formatSignedCurrency`: `digits` is `formatCurrency(val)`; a `+` is
      added for strictly positive values only. */
  function FormatSignedCurrency(val: real, digits: string): (r: string)
    ensures val > 0.0 ==> r == "+" + digits
    ensures val <= 0.0 ==> r == digits
  {
    SignPrefix(val) + digits
  }

  /** The fraction-digit options `formatCurrency` hands to
      `Intl.NumberFormat`: the maximum is raised to the minimum when the
      caller asks for more than two digits, so the pair is never inverted. */
  function CurrencyFractionDigits(minimumFractionDigits: int): (r: (int, int))
    ensures r.0 == minimumFractionDigits
    ensures r.1 >= r.0 && r.1 >= 2
    ensures r.1 == 2 || r.1 == minimumFractionDigits
  {
    (minimumFractionDigits, if minimumFractionDigits > 2 then minimumFractionDigits else 2)
  }
}
