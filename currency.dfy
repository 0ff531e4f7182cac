/** The currency glyph shown before every amount on the dashboard. */
module Currency {

  /** `currencySign(cur)`: the glyph of the three supported ISO codes, the empty string otherwise. */
  function CurrencySign(cur: string): (sign: string)
    ensures sign != "" <==> cur in {"USD", "EUR", "INR"}
    ensures cur == "USD" ==> sign == "$"
    ensures cur == "EUR" ==> sign == "\U{20AC}"
    ensures cur == "INR" ==> sign == "\U{20B9}"
  {
    match cur
    case "USD" => "$"
    case "EUR" => "\U{20AC}"
    case "INR" => "\U{20B9}"
    case _ => ""
  }

  /** The currency the dashboard starts with before the user's own is fetched. */
  const DefaultCurrency: string := "INR"

  /** Distinct supported codes never share a glyph, so the glyph identifies the currency. */
  lemma SignIdentifiesCurrency(a: string, b: string)
    requires CurrencySign(a) != ""
    ensures CurrencySign(a) == CurrencySign(b) ==> a == b
  {
  }
}
