/** `validateInputs`: the checks on the item name and price fields before an add. */
module Validation {
  import opened Wrappers
  import opened Text
  import opened Money

  datatype NameError = NameRequired | NameTooLong
  datatype PriceError = PriceRequired | PriceNotPositive | PriceTooLarge

  /** One error (or none) per field, the one the form shows under that field. */
  datatype Validation = Validation(nameError: Option<NameError>, priceError: Option<PriceError>) {
    predicate IsValid() {
      nameError.None? && priceError.None?
    }
  }

  const MaxNameLength: nat := 50
  const MaxPrice: nat := 99_999_999

  function ValidateInputs(nameRaw: string, priceRaw: string): (v: Validation)
    ensures v.IsValid() <==>
      1 <= |Trim(nameRaw)| <= MaxNameLength && 1 <= ParseAmount(priceRaw) <= MaxPrice
    ensures v.nameError == Some(NameRequired) <==> AllWhitespace(nameRaw)
    ensures v.nameError == Some(NameTooLong) <==> |Trim(nameRaw)| > MaxNameLength
    ensures v.priceError == Some(PriceRequired) <==> StripNonDigits(priceRaw) == ""
    ensures v.priceError == Some(PriceNotPositive) <==>
      StripNonDigits(priceRaw) != "" && ParseAmount(priceRaw) == 0
    ensures v.priceError == Some(PriceTooLarge) <==> ParseAmount(priceRaw) > MaxPrice
  {
    TrimEmptyIffBlank(nameRaw);
    var name := Trim(nameRaw);
    var priceStr := StripNonDigits(priceRaw);
    var price := ValueOf(priceStr);
    Validation(
      if name == "" then Some(NameRequired)
      else if |name| > MaxNameLength then Some(NameTooLong)
      else None,
      if priceStr == "" then Some(PriceRequired)
      else if price <= 0 then Some(PriceNotPositive)
      else if price > MaxPrice then Some(PriceTooLarge)
      else None)
  }
}
