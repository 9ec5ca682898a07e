/** Tagged decimal money and its exact arithmetic (money/fiat.py). */
module Fiats {
  import opened Common
  import opened Decimals

  datatype Fiat = Fiat(amount: Decimal, currency: string)

  function Plus(a: Fiat, b: Fiat): Result<Fiat> {
    if a.currency != b.currency then Err(CurrencyMismatchError) else Ok(Fiat(ExactSum(a.amount, b.amount), a.currency))
  }

  function Minus(a: Fiat, b: Fiat): Result<Fiat> {
    if a.currency != b.currency then Err(CurrencyMismatchError)
    else Ok(Fiat(ExactSum(a.amount, Negate(b.amount)), a.currency))
  }

  /** A sum or difference within one currency is the exact one; across two it is refused. */
  lemma ArithmeticIsExact(a: Fiat, b: Fiat)
    ensures Plus(a, b).Ok? <==> a.currency == b.currency
    ensures Minus(a, b).Ok? <==> a.currency == b.currency
    ensures a.currency != b.currency ==>
      Plus(a, b) == Err(CurrencyMismatchError) && Minus(a, b) == Err(CurrencyMismatchError)
    ensures a.currency == b.currency ==> Plus(a, b).value.currency == Minus(a, b).value.currency == a.currency
    ensures a.currency == b.currency ==> Value(Plus(a, b).value.amount) == Value(a.amount) + Value(b.amount)
    ensures a.currency == b.currency ==> Value(Minus(a, b).value.amount) == Value(a.amount) - Value(b.amount)
  {
    hide Value, ExactSum;
    ExactSumIsSum(a.amount, b.amount);
    ExactSumIsSum(a.amount, Negate(b.amount));
  }

  /** `amount < 0`; a negative zero is not. */
  predicate BelowZero(d: Decimal) {
    Signed(d) < 0
  }

  lemma BelowZeroIsNegative(d: Decimal)
    ensures BelowZero(d) <==> Value(d) < 0.0
  {
    ScaleKeepsSign(Signed(d) as real, d.exponent);
  }
}
