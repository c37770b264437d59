/** An amount of money in a currency. */
module MoneyValues {
  import opened Wrappers
  import opened Primitives
  import opened Errors

  /** The amount is a C# `decimal`, modelled as an integer. */
  datatype Money = Money(amount: int, currency: NString)

  /** Returns the value itself when the amount is non-negative and the currency
      is not blank; the amount is checked first. */
  function EnsureValid(m: Money): (r: Result<Money, Error>)
    ensures r.Ok? <==> m.amount >= 0 && !IsNullOrWhiteSpace(m.currency)
    ensures r.Ok? ==> r.value == m
    ensures m.amount < 0 ==> r == Err(Argument(NegativeAmount))
    ensures m.amount >= 0 && IsNullOrWhiteSpace(m.currency) ==> r == Err(Argument(BlankCurrency))
  {
    if m.amount < 0 then Err(Argument(NegativeAmount))
    else if IsNullOrWhiteSpace(m.currency) then Err(Argument(BlankCurrency))
    else Ok(m)
  }

  /** Validating a validated value changes nothing. */
  lemma EnsureValidIdempotent(m: Money)
    requires EnsureValid(m).Ok?
    ensures EnsureValid(EnsureValid(m).value) == EnsureValid(m)
  {
  }

  /** A zero amount is valid. */
  lemma ZeroAccepted(currency: string)
    requires !IsNullOrWhiteSpace(Some(currency))
    ensures EnsureValid(Money(0, Some(currency))) == Ok(Money(0, Some(currency)))
  {
  }
}
