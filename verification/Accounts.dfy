/** One asset's account under each method: the pool stays in step with the lots,
    no pool is ever overdrawn, and units and basis are conserved. */
module Accounts {
  import opened Common
  import opened Lots
  import opened Selection
  import opened SelectionSpec
  import opened Basis
  import opened Pools
  import opened Pnl
  import Refinement

  function UnitsLeft(a: Account): nat {
    UnitsHeld(a.ledger.lots)
  }

  /** The cost the method would still charge: the pool's under ACB, the lots'
      otherwise. */
  function BasisLeft(how: Method, a: Account): Option<real> {
    if how.Acb? then (if a.pool.None? then Some(0.0) else a.pool.value.cost)
    else if forall l :: l in a.ledger.lots && Live(l) ==> l.costRemaining.Some? then Some(BasisOf(a.ledger.lots))
    else None
  }

  /** The pool holds exactly the units the open lots do, at the same scale and
      in the stream's currency, and no cost once it is empty. */
  predicate InStep(a: Account, currency: string) {
    if a.pool.None? then UnitsLeft(a) == 0 && a.ledger.book.decimals.None?
    else
      && a.pool.value.raw == UnitsLeft(a)
      && a.pool.value.decimals == a.ledger.book.decimals
      && a.pool.value.currency == currency
      && Settled(a.pool.value)
  }

  ghost predicate ValidAccount(how: Method, a: Account, assetId: string, currency: Option<string>) {
    && a.ledger.book.assetId == assetId
    && Sound(a.ledger)
    && (a.ledger.book.currency.Some? ==> currency == a.ledger.book.currency)
    && (if how.Acb? then InStep(a, if currency.Some? then currency.value else DEFAULT_CURRENCY) else a.pool.None?)
  }

  /** Every lot, or the pool, still knows its cost. */
  ghost predicate Priced(how: Method, a: Account) {
    && (forall l :: l in a.ledger.lots ==> l.costTotal.Some?)
    && (a.pool.Some? ==> a.pool.value.cost.Some?)
  }

  lemma SoundIsOneAsset(l: Ledger)
    requires Sound(l)
    ensures Refinement.OneAsset(l)
    ensures forall needed: Quantity :: !WrongScale(l.book, needed) ==> AtScale(OpenLots(l.lots), needed.decimals)
  {
    Refinement.OpenLotsAreLive(l.lots);
    forall needed: Quantity, k | !WrongScale(l.book, needed) && 0 <= k < |OpenLots(l.lots)|
      ensures OpenLots(l.lots)[k].remaining.decimals == needed.decimals
    {
      assert OpenLots(l.lots)[k] in l.lots;
    }
  }

  /** Opening a lot fails only on the ledger's own grounds, never the pool's. */
  lemma OpenKeepsValid(how: Method, a: Account, assetId: string, currency: Option<string>, e: Event)
    requires ValidAccount(how, a, assetId, currency) && e.Acquisition? && e.assetId == assetId
    requires e.cost.Some? ==> currency == Some(e.cost.value.currency)
    ensures var c := Open(how, a, if currency.Some? then currency.value else DEFAULT_CURRENCY, e);
      && ValidAccount(how, c.account, assetId, currency)
      && (c.outcome.Ok? <==> !WrongScale(a.ledger.book, e.quantity))
      && UnitsLeft(c.account) == UnitsLeft(a) + (if c.outcome.Ok? then e.quantity.raw else 0)
      && (c.outcome.Err? ==> c.account == a)
  {
    hide Sound, UnitsHeld, NewLot, BasisOf;
    if OpenLot(a.ledger, e).Ok? {
      OpenConserves(a.ledger, e);
    }
  }

  lemma OpenAddsCost(how: Method, a: Account, assetId: string, currency: string, e: Event)
    requires ValidAccount(how, a, assetId, Some(currency)) && e.Acquisition? && e.assetId == assetId
    requires Priced(how, a) && e.cost.Some? && e.cost.value.currency == currency
    requires Open(how, a, currency, e).outcome.Ok?
    ensures var c := Open(how, a, currency, e);
      && Priced(how, c.account)
      && BasisLeft(how, a).Some? && BasisLeft(how, c.account).Some?
      && BasisLeft(how, c.account).value == BasisLeft(how, a).value + e.cost.value.amount
  {
    hide UnitsHeld, BasisOf;
    OpenConserves(a.ledger, e);
  }

  /** The units a disposal covers, whatever the method. */
  lemma SellKeepsValid(how: Method, a: Account, assetId: string, currency: Option<string>, e: Event)
    requires ValidAccount(how, a, assetId, currency) && e.Disposal?
    ensures var c := Sell(how, a, if currency.Some? then currency.value else DEFAULT_CURRENCY, e);
      && ValidAccount(how, c.account, assetId, currency)
      && (c.outcome.Ok? <==> !WrongScale(a.ledger.book, e.quantity))
      && (c.outcome.Ok? ==>
            && c.outcome.value.shortfall.raw == e.quantity.raw - Min(e.quantity.raw, UnitsLeft(a))
            && UnitsLeft(c.account) == UnitsLeft(a) - Min(e.quantity.raw, UnitsLeft(a)))
  {
    hide Sound, Select;
    SoundIsOneAsset(a.ledger);
    MethodsPlanOverHanded(how);
    ConsumeConserves(Pruning, a.ledger, e.quantity, Select(how));
    OpenKeepsTotals(a.ledger.lots, Any);
    if !WrongScale(a.ledger.book, e.quantity) {
      ConsumeNeverRaises(how, Pruning, a.ledger, e.quantity);
      if how.Acb? {
        var cur := if currency.Some? then currency.value else DEFAULT_CURRENCY;
        var pool := PoolOf(a, cur);
        DisposeConserves(pool, Quantity(Min(e.quantity.raw, pool.raw), e.quantity.decimals));
      }
    }
  }

  lemma {:induction false} PricedPieces(open: seq<Lot>, plan: seq<Pick>)
    requires Refinement.PlansHeld(open, plan)
    requires forall k | 0 <= k < |open| :: open[k].costTotal.Some? && open[k].costRemaining.Some?
    ensures SumPortions(Pieces(open, plan)) == Some(PortionsOf(Pieces(open, plan)))
    decreases |plan|
  {
    if plan != [] {
      var p := plan[0];
      var open' := open[p.lot.at := Drawn(open[p.lot.at], p.take.raw)];
      PricedPieces(open', plan[1..]);
      assert Pieces(open, plan)[1..] == Pieces(open', plan[1..]);
    }
  }

  /** Consuming priced lots leaves priced lots and priced pieces. */
  lemma ConsumeKeepsPriced(how: Method, l: Ledger, needed: Quantity)
    requires Sound(l) && forall lot :: lot in l.lots ==> lot.costTotal.Some?
    ensures var c := Consume(Pruning, l, needed, Select(how));
      && (forall lot :: lot in c.ledger.lots ==> lot.costTotal.Some?)
      && (c.outcome.Ok? ==> SumPortions(c.outcome.value.pieces) == Some(PortionsOf(c.outcome.value.pieces)))
  {
    var open := OpenLots(l.lots);
    Refinement.OpenLotsAreLive(l.lots);
    MethodsPlanOverHanded(how);
    if !WrongScale(l.book, needed) && Select(how)(open, needed).Ok? {
      var plan := Select(how)(open, needed).value;
      Refinement.DrainKeepsOrigin(open, plan);
      forall k | 0 <= k < |open|
        ensures open[k].costTotal.Some? && open[k].costRemaining.Some?
      {
        assert open[k] in l.lots;
      }
      PricedPieces(open, plan);
    }
  }

  /** A disposal moves basis out of what is left, exactly. */
  lemma SellMovesBasis(how: Method, a: Account, assetId: string, currency: Option<string>, e: Event)
    requires ValidAccount(how, a, assetId, currency) && e.Disposal? && Priced(how, a)
    requires !WrongScale(a.ledger.book, e.quantity)
    ensures var c := Sell(how, a, if currency.Some? then currency.value else DEFAULT_CURRENCY, e);
      && Priced(how, c.account)
      && c.outcome.Ok? && c.outcome.value.basis.Some?
      && BasisLeft(how, a).Some? && BasisLeft(how, c.account).Some?
      && BasisLeft(how, c.account).value == BasisLeft(how, a).value - c.outcome.value.basis.value
  {
    SellKeepsValid(how, a, assetId, currency, e);
    ConsumeKeepsPriced(how, a.ledger, e.quantity);
    if how.Acb? {
      var cur := if currency.Some? then currency.value else DEFAULT_CURRENCY;
      var pool := PoolOf(a, cur);
      DisposeConserves(pool, Quantity(Min(e.quantity.raw, pool.raw), e.quantity.decimals));
    } else {
      MethodsPlanOverHanded(how);
      ConsumeConserves(Pruning, a.ledger, e.quantity, Select(how));
    }
  }

  lemma {:induction false} NothingHeldNoBasis(lots: seq<Lot>)
    requires UnitsHeld(lots) == 0
    ensures BasisOf(lots) == 0.0
  {
    if |lots| > 0 {
      NothingHeldNoBasis(lots[..|lots| - 1]);
    }
  }

  /** An account that holds no units holds no basis, under every method. */
  lemma FlatHoldsNoBasis(how: Method, a: Account, assetId: string, currency: Option<string>)
    requires ValidAccount(how, a, assetId, currency) && UnitsLeft(a) == 0 && BasisLeft(how, a).Some?
    ensures BasisLeft(how, a).value == 0.0
  {
    NothingHeldNoBasis(a.ledger.lots);
  }
}
