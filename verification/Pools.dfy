/** The pooled average of the adjusted-cost-base method (accounting/acb.py). */
module Pools {
  import opened Common
  import opened Lots

  /** One asset's running pooled cost; `cost` is `None` once poisoned. */
  datatype Pool = Pool(currency: string, cost: Option<real>, raw: nat, decimals: Option<nat>)

  function FreshPool(currency: string): Pool {
    Pool(currency, Some(0.0), 0, None)
  }

  /** What `dispose` leaves and returns. */
  datatype Slice = Slice(pool: Pool, basis: Option<real>)

  /** `AcbPool.acquire`. */
  function PoolAcquire(p: Pool, quantity: Quantity, cost: Option<Money>): Result<Pool> {
    if quantity.raw < 0 then Err(ValidationError)
    else if p.decimals.Some? && p.decimals.value != quantity.decimals then Err(DecimalsMismatchError)
    else if cost.Some? && cost.value.currency != p.currency then Err(CurrencyMismatchError)
    else
      Ok(Pool(p.currency,
              if cost.None? || p.cost.None? then None else Some(p.cost.value + cost.value.amount),
              p.raw + quantity.raw,
              if p.decimals.None? then Some(quantity.decimals) else p.decimals))
  }

  /** `AcbPool.dispose`. */
  function PoolDispose(p: Pool, quantity: Quantity): Result<Slice> {
    if quantity.raw < 0 then Err(ValidationError)
    else if p.decimals.Some? && p.decimals.value != quantity.decimals then Err(DecimalsMismatchError)
    else if quantity.raw > p.raw then Err(ValidationError)
    else if quantity.raw == 0 then Ok(Slice(p, if p.cost.None? then None else Some(0.0)))
    else if p.cost.None? then Ok(Slice(p.(raw := p.raw - quantity.raw), None))
    else
      var consumed := Share(p.cost.value, quantity.raw, p.raw);
      Ok(Slice(p.(cost := Some(p.cost.value - consumed), raw := p.raw - quantity.raw), Some(consumed)))
  }

  /** An emptied pool that was never poisoned holds no cost. */
  predicate Settled(p: Pool) {
    p.raw == 0 && p.cost.Some? ==> p.cost.value == 0.0
  }

  lemma WholeSlice(cost: real, n: nat)
    requires n > 0
    ensures Share(cost, n, n) == cost
  {
  }

  /** A disposal moves cost out of the pool exactly, and emptying the pool takes
      all of it. */
  lemma DisposeConserves(p: Pool, quantity: Quantity)
    requires Settled(p) && PoolDispose(p, quantity).Ok?
    ensures var s := PoolDispose(p, quantity).value;
      && Settled(s.pool)
      && s.pool.raw == p.raw - quantity.raw
      && s.pool.decimals == p.decimals && s.pool.currency == p.currency
      && (p.cost.None? ==> s.pool.cost.None? && s.basis.None?)
      && (p.cost.Some? ==> s.pool.cost.Some? && s.basis.Some? && s.pool.cost.value + s.basis.value == p.cost.value)
  {
    if p.cost.Some? && quantity.raw == p.raw && p.raw > 0 {
      WholeSlice(p.cost.value, p.raw);
    }
  }

  predicate AtScaleOf(p: Pool, quantity: Quantity) {
    p.decimals.Some? ==> p.decimals.value == quantity.decimals
  }

  /** An acquisition is refused exactly when it is negative, at another scale or in another
      currency, and a disposal when it is negative, at another scale or an overdraw.  An
      accepted one moves exactly its units; an unpriced acquisition poisons the pool, a
      priced one adds its cost, and a disposal never changes which of the two it is. */
  lemma PoolContract(p: Pool, quantity: Quantity, cost: Option<Money>)
    ensures PoolAcquire(p, quantity, cost).Ok? <==>
      quantity.raw >= 0 && AtScaleOf(p, quantity) && (cost.Some? ==> cost.value.currency == p.currency)
    ensures PoolAcquire(p, quantity, cost).Ok? ==>
      && var after := PoolAcquire(p, quantity, cost).value;
      && after.raw == p.raw + quantity.raw && after.decimals == Some(quantity.decimals) && after.currency == p.currency
      && (after.cost.None? <==> p.cost.None? || cost.None?)
      && (after.cost.Some? ==> after.cost.value - p.cost.value == cost.value.amount)
    ensures PoolDispose(p, quantity).Ok? <==> 0 <= quantity.raw <= p.raw && AtScaleOf(p, quantity)
    ensures PoolDispose(p, quantity).Ok? ==>
      && var after := PoolDispose(p, quantity).value.pool;
      && after.raw == p.raw - quantity.raw && after.decimals == p.decimals && after.currency == p.currency
      && (after.cost.None? <==> p.cost.None?)
      && (PoolDispose(p, quantity).value.basis.None? <==> p.cost.None?)
  {
  }

  /** What each refusal says. */
  lemma PoolRefusals(p: Pool, quantity: Quantity, cost: Option<Money>)
    ensures PoolAcquire(p, quantity, cost) == Err(ValidationError) <==> quantity.raw < 0
    ensures PoolAcquire(p, quantity, cost) == Err(DecimalsMismatchError) <==>
      quantity.raw >= 0 && p.decimals.Some? && p.decimals.value != quantity.decimals
    ensures PoolAcquire(p, quantity, cost).Err? ==>
      PoolAcquire(p, quantity, cost).error in {ValidationError, DecimalsMismatchError, CurrencyMismatchError}
    ensures PoolDispose(p, quantity) == Err(DecimalsMismatchError) <==>
      quantity.raw >= 0 && p.decimals.Some? && p.decimals.value != quantity.decimals
    ensures PoolDispose(p, quantity).Err? ==> PoolDispose(p, quantity).error in {ValidationError, DecimalsMismatchError}
  {
  }

  /** The basis of a disposal is the average cost of what the pool holds, times the units. */
  lemma DisposesAtAverage(p: Pool, quantity: Quantity)
    requires PoolDispose(p, quantity).Ok? && p.cost.Some?
    ensures var s := PoolDispose(p, quantity).value;
      && s.basis.Some? && s.basis.value * p.raw as real == p.cost.value * quantity.raw as real
      && s.pool.cost == Some(p.cost.value - s.basis.value)
  {
    if quantity.raw > 0 {
      DivideBack(p.cost.value * quantity.raw as real, p.raw as real);
    }
  }

  lemma DivideBack(x: real, n: real)
    requires n > 0.0
    ensures x / n * n == x
  {
  }

  /** The accumulator itself. */
  class AcbPool {
    var currency: string
    var cost: Option<real>
    var raw: nat
    var decimals: Option<nat>

    constructor (currency: string)
      ensures View() == FreshPool(currency)
    {
      this.currency := currency;
      cost := Some(0.0);
      raw := 0;
      decimals := None;
    }

    function View(): Pool
      reads this
    {
      Pool(currency, cost, raw, decimals)
    }

    predicate SameScale(quantity: Quantity)
      reads this
    {
      decimals.None? || decimals.value == quantity.decimals
    }

    method Acquire(quantity: Quantity, price: Option<Money>) returns (r: Result<()>)
      modifies this
      ensures r.Ok? ==> PoolAcquire(old(View()), quantity, price) == Ok(View())
      ensures r.Err? ==> PoolAcquire(old(View()), quantity, price) == Err(r.error) && View() == old(View())
    {
      if quantity.raw < 0 {
        return Err(ValidationError);
      }
      if !SameScale(quantity) {
        return Err(DecimalsMismatchError);
      }
      if price.Some? && price.value.currency != currency {
        return Err(CurrencyMismatchError);
      }
      if decimals.None? {
        decimals := Some(quantity.decimals);
      }
      raw := raw + quantity.raw;
      if price.None? {
        cost := None;
      } else if cost.Some? {
        cost := Some(cost.value + price.value.amount);
      }
      return Ok(());
    }

    method Dispose(quantity: Quantity) returns (r: Result<Option<real>>)
      modifies this
      ensures r.Ok? ==> PoolDispose(old(View()), quantity) == Ok(Slice(View(), r.value))
      ensures r.Err? ==> PoolDispose(old(View()), quantity) == Err(r.error) && View() == old(View())
    {
      if quantity.raw < 0 {
        return Err(ValidationError);
      }
      if !SameScale(quantity) {
        return Err(DecimalsMismatchError);
      }
      if quantity.raw > raw {
        return Err(ValidationError);
      }
      if quantity.raw == 0 {
        return Ok(if cost.None? then None else Some(0.0));
      }
      if cost.None? {
        raw := raw - quantity.raw;
        return Ok(None);
      }
      var consumed := Share(cost.value, quantity.raw, raw);
      cost := Some(cost.value - consumed);
      raw := raw - quantity.raw;
      return Ok(Some(consumed));
    }
  }
}
