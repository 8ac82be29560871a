/** Data-quality guards of the web application (apps/web/src/lib/validation.ts):
    a price, a living area or a price per square foot outside its plausible
    range is treated as missing rather than reported. */
module Validation {
  import opened Js

  const MinPrice: int := 20000
  const MaxPrice: int := 50000000
  const MinSqft: int := 100
  const MaxSqft: int := 20000
  const MinPps: real := 5.0
  const MaxPps: real := 5000.0

  /** The guard every validator starts with: a finite number within [lo, hi].
      The range is checked on the value as given, before any rounding. */
  predicate Accepts(n: Num, lo: real, hi: real) {
    n.Finite? && lo <= n.value <= hi
  }

  /** validatePrice: null, undefined, NaN, Infinity and values outside
      [20000, 50000000] give null; anything else is rounded. */
  function ValidatePrice(price: Num): (r: Option<int>)
    ensures r.Some? <==> Accepts(price, MinPrice as real, MaxPrice as real)
    ensures r.Some? ==> MinPrice <= r.value <= MaxPrice
    ensures r.Some? ==> r.value as real - 0.5 <= price.value < r.value as real + 0.5
  {
    if !Accepts(price, MinPrice as real, MaxPrice as real) then None
    else
      RoundWithin(price.value, MinPrice, MaxPrice);
      Some(Round(price.value))
  }

  /** validateSqft: the same scheme over [100, 20000]. */
  function ValidateSqft(sqft: Num): (r: Option<int>)
    ensures r.Some? <==> Accepts(sqft, MinSqft as real, MaxSqft as real)
    ensures r.Some? ==> MinSqft <= r.value <= MaxSqft
    ensures r.Some? ==> r.value as real - 0.5 <= sqft.value < r.value as real + 0.5
  {
    if !Accepts(sqft, MinSqft as real, MaxSqft as real) then None
    else
      RoundWithin(sqft.value, MinSqft, MaxSqft);
      Some(Round(sqft.value))
  }

  /** validatePps: the same scheme over [5, 5000], without rounding. */
  function ValidatePps(pps: Num): (r: Option<real>)
    ensures r.Some? <==> Accepts(pps, MinPps, MaxPps)
    ensures r.Some? ==> r.value == pps.value && MinPps <= r.value <= MaxPps
  {
    if !Accepts(pps, MinPps, MaxPps) then None else Some(pps.value)
  }

  /** Validating a validated price gives it back. */
  lemma ValidatePriceIdempotent(price: Num)
    requires ValidatePrice(price).Some?
    ensures ValidatePrice(Finite(ValidatePrice(price).value as real)) == ValidatePrice(price)
  {
    RoundOfInteger(ValidatePrice(price).value);
  }

  /** Validating a validated area gives it back. */
  lemma ValidateSqftIdempotent(sqft: Num)
    requires ValidateSqft(sqft).Some?
    ensures ValidateSqft(Finite(ValidateSqft(sqft).value as real)) == ValidateSqft(sqft)
  {
    RoundOfInteger(ValidateSqft(sqft).value);
  }

  /** Validating a validated price per square foot gives it back. */
  lemma ValidatePpsIdempotent(pps: Num)
    requires ValidatePps(pps).Some?
    ensures ValidatePps(Finite(ValidatePps(pps).value)) == ValidatePps(pps)
  {
  }

  /** The range check precedes rounding: 19999.6 is rejected although it
      would round to 20000, while 25000.4 is accepted and rounded down. */
  lemma RangeCheckedBeforeRounding()
    ensures Round(19999.6) == MinPrice
    ensures ValidatePrice(Finite(19999.6)) == None
    ensures ValidatePrice(Finite(25000.4)) == Some(25000)
    ensures ValidatePrice(Finite(20000.0)) == Some(20000)
    ensures ValidatePrice(Finite(1000000000.0)) == None
    ensures ValidateSqft(Finite(1500.7)) == Some(1501)
    ensures ValidateSqft(Finite(99999.0)) == None
    ensures ValidatePps(Finite(150.0)) == Some(150.0)
    ensures ValidatePps(Finite(1.0)) == None
    ensures ValidatePps(Finite(6000.0)) == None
  {
  }

  /** The two rounded fields of a listing after sanitizeListing. */
  datatype Sanitized = Sanitized(listPrice: Option<int>, sqft: Option<int>)

  /** sanitizeListing: list_price through validatePrice and sqft through validateSqft. */
  function SanitizeListing(listPrice: Num, sqft: Num): (r: Sanitized)
    ensures r.listPrice == ValidatePrice(listPrice)
    ensures r.sqft == ValidateSqft(sqft)
  {
    Sanitized(ValidatePrice(listPrice), ValidateSqft(sqft))
  }

  /** A sanitized field fed back as the number it stands for. */
  function AsNum(v: Option<int>): (n: Num)
    ensures v.None? <==> n.Absent?
    ensures v.Some? ==> n == Finite(v.value as real)
  {
    if v.Some? then Finite(v.value as real) else Absent
  }

  /** Sanitizing a sanitized listing changes nothing. */
  lemma SanitizeListingIdempotent(listPrice: Num, sqft: Num)
    ensures var r := SanitizeListing(listPrice, sqft);
            SanitizeListing(AsNum(r.listPrice), AsNum(r.sqft)) == r
  {
    if ValidatePrice(listPrice).Some? {
      ValidatePriceIdempotent(listPrice);
    }
    if ValidateSqft(sqft).Some? {
      ValidateSqftIdempotent(sqft);
    }
  }
}
