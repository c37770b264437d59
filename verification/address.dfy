/** A postal address. */
module Addresses {
  import opened Wrappers
  import opened Primitives
  import opened Errors

  datatype Address = Address(street: NString, city: NString, state: NString, zipCode: NString, country: NString)

  predicate AnyFieldBlank(a: Address) {
    || IsNullOrWhiteSpace(a.street)
    || IsNullOrWhiteSpace(a.city)
    || IsNullOrWhiteSpace(a.state)
    || IsNullOrWhiteSpace(a.zipCode)
    || IsNullOrWhiteSpace(a.country)
  }

  /** Rejects a blank field, then a zip code shorter than three characters. */
  function Validate(a: Address): (r: Outcome<Error>)
    ensures r.Pass? <==>
      (forall f :: f in [a.street, a.city, a.state, a.zipCode, a.country] ==> !IsNullOrWhiteSpace(f))
      && a.zipCode.Some? && |a.zipCode.value| >= 3
    ensures AnyFieldBlank(a) ==> r == Fail(Argument(BlankAddressField))
    ensures !AnyFieldBlank(a) && |a.zipCode.value| < 3 ==> r == Fail(Argument(ShortZipCode))
  {
    if AnyFieldBlank(a) then Fail(Argument(BlankAddressField))
    else if |a.zipCode.value| < 3 then Fail(Argument(ShortZipCode))
    else Pass
  }

  /** A zip code of white space alone reports the blank-field error, not the
      length error, whatever its length. */
  lemma BlankZipReportsBlankField(a: Address)
    requires a.zipCode.Some? && forall i :: 0 <= i < |a.zipCode.value| ==> IsWhiteSpace(a.zipCode.value[i])
    ensures Validate(a) == Fail(Argument(BlankAddressField))
  {
  }
}
