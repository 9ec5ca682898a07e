/** HIFO against every method of the replay engine, the pooled average included
    (accounting/hifo.py, accounting/pnl.py). */
module HifoReplay {
  import opened Common
  import opened Lots
  import opened Selection
  import opened SelectionSpec
  import opened Basis
  import opened Pnl
  import opened Rounding
  import opened Accounts
  import opened Report
  import opened Replay
  import opened Conservation
  import HifoOptimal
  import Independence
  import Refinement

  // --------------------------------------------- a disposal's fair share

  lemma TimesGrows(c: real, k: real, n: real)
    requires c <= k && n >= 0.0
    ensures c * n <= k * n
  {
  }

  lemma PortionIs(l: Lot, take: int)
    requires l.costTotal.Some? && l.costRemaining.Some?
    ensures Portion(l, take).Some? && Portion(l, take).value == UnitCost(l).value * take as real
  {
    var cost, units := l.costTotal.value.amount, l.original.raw as real;
    HifoOptimal.Commute(cost, take as real, units);
    assert Portion(l, take).value == cost * take as real / units;
  }

  /** What validating a plan says of its first pick. */
  lemma FirstPick(open: seq<Lot>, budgets: map<LotRef, int>, plan: seq<Pick>, needed: Quantity, total: int)
    requires AllExact(open) && Current(open, budgets) && plan != [] && CheckFull(budgets, plan, needed, total).Ok?
    ensures var p := plan[0];
      && p.lot.Held? && p.lot.at < |open| && 0 < p.take.raw <= open[p.lot.at].remaining.raw && p.lot in budgets
      && var l := Drawn(open[p.lot.at], p.take.raw);
      && AllExact(open[p.lot.at := l]) && Current(open[p.lot.at := l], budgets[p.lot := budgets[p.lot] - p.take.raw])
      && CheckFull(budgets[p.lot := budgets[p.lot] - p.take.raw], plan[1..], needed, total + p.take.raw).Ok?
      && Pieces(open, plan) == [Piece(open[p.lot.at].lotId, p.take, Portion(open[p.lot.at], p.take.raw))]
                               + Pieces(open[p.lot.at := l], plan[1..])
  {
    DrawKeepsExact(open[plan[0].lot.at], plan[0].take.raw);
  }

  lemma TakenFirst(open: seq<Lot>, plan: seq<Pick>, w: Lot -> bool)
    requires plan != [] && plan[0].lot.Held? && plan[0].lot.at < |open|
    ensures TakenWhere(open, plan, w)
         == (if w(open[plan[0].lot.at]) then plan[0].take.raw else 0) + TakenWhere(open, plan[1..], w)
  {
  }

  /** No class of lots but all of them gives what all of them give. */
  lemma RestIsAbove(open: seq<Lot>, budgets: map<LotRef, int>, plan: seq<Pick>, needed: Quantity, total: int, c: real)
    requires AllExact(open) && Current(open, budgets) && plan != [] && CheckFull(budgets, plan, needed, total).Ok?
    requires plan[0].lot.Held? && plan[0].lot.at < |open|
    requires TakenWhere(open, plan, HifoOptimal.Above(c)) == TakenWhere(open, plan, Any)
    ensures HifoOptimal.Above(c)(open[plan[0].lot.at])
    ensures var l := Drawn(open[plan[0].lot.at], plan[0].take.raw);
      && TakenWhere(open[plan[0].lot.at := l], plan[1..], HifoOptimal.Above(c))
         == TakenWhere(open[plan[0].lot.at := l], plan[1..], Any)
         == TakenWhere(open, plan[1..], Any)
  {
    hide AllExact, Drawn, CheckFull, TakenWhere, Current, Pieces;
    FirstPick(open, budgets, plan, needed, total);
    TakenFirst(open, plan, HifoOptimal.Above(c));
    TakenFirst(open, plan, Any);
    HifoOptimal.CurrentIsOverHeld(open, budgets);
    var p, rest := plan[0], plan[1..];
    var l := Drawn(open[p.lot.at], p.take.raw);
    CheckedTotal(open, budgets[p.lot := budgets[p.lot] - p.take.raw], rest, needed, total + p.take.raw,
                 HifoOptimal.Above(c));
    HifoOptimal.AboveIsDrawFree(c);
    TakenIgnoresDraw(open, p.lot.at, l, rest, HifoOptimal.Above(c));
    TakenIgnoresDraw(open, p.lot.at, l, rest, Any);
  }

  ghost predicate AllPriced(lots: seq<Lot>) {
    forall k | 0 <= k < |lots| :: lots[k].costTotal.Some?
  }

  /** A plan that draws only on lots of at least `c` a unit takes at least `c` a unit. */
  lemma {:induction false} PortionsAtLeast(open: seq<Lot>, budgets: map<LotRef, int>, plan: seq<Pick>,
                                           needed: Quantity, total: int, c: real)
    requires AllExact(open) && Current(open, budgets) && AllPriced(open)
    requires CheckFull(budgets, plan, needed, total).Ok?
    requires TakenWhere(open, plan, HifoOptimal.Above(c)) == TakenWhere(open, plan, Any)
    ensures PortionsOf(Pieces(open, plan)) >= c * TakenWhere(open, plan, Any) as real
    decreases |plan|
  {
    hide CheckFull, Pieces, Current, TakenWhere, Portion, PortionsOf;
    if plan == [] {
      NoPortions(open);
    } else {
      var p, rest := plan[0], plan[1..];
      FirstPick(open, budgets, plan, needed, total);
      RestIsAbove(open, budgets, plan, needed, total, c);
      var l := open[p.lot.at];
      var open' := open[p.lot.at := Drawn(l, p.take.raw)];
      assert Exact(l);
      TakenFirst(open, plan, Any);
      PortionsAtLeast(open', budgets[p.lot := budgets[p.lot] - p.take.raw], rest, needed, total + p.take.raw, c);
      PortionIs(l, p.take.raw);
      TimesGrows(c, UnitCost(l).value, p.take.raw as real);
      TimesAdds(c, p.take.raw as real, TakenWhere(open, rest, Any) as real);
      PortionsOneMore(Piece(l.lotId, p.take, Portion(l, p.take.raw)), Pieces(open', rest));
    }
  }

  lemma NoPortions(open: seq<Lot>)
    ensures PortionsOf(Pieces(open, [])) == 0.0 && TakenWhere(open, [], Any) == 0
  {
  }

  lemma PortionsOneMore(piece: Piece, rest: seq<Piece>)
    requires piece.portion.Some?
    ensures PortionsOf([piece] + rest) == piece.portion.value + PortionsOf(rest)
  {
    assert ([piece] + rest)[1..] == rest;
  }

  lemma TimesAdds(c: real, m: real, n: real)
    ensures c * (m + n) == c * m + c * n
  {
  }

  /** The dearest unit cost of the live lots. */
  function Dearest(lots: seq<Lot>): real
    requires UnitsHeld(lots) > 0 && AllPriced(lots)
  {
    var n := |lots| - 1;
    if UnitsHeld(lots[..n]) == 0 then UnitCost(lots[n]).value
    else if Live(lots[n]) && UnitCost(lots[n]).value > Dearest(lots[..n]) then UnitCost(lots[n]).value
    else Dearest(lots[..n])
  }

  /** Something is left at the dearest cost, and no live lot costs more. */
  lemma {:induction false} DearestIs(lots: seq<Lot>)
    requires UnitsHeld(lots) > 0 && AllPriced(lots)
    ensures UnitsWhere(lots, HifoOptimal.Above(Dearest(lots))) > 0
    ensures forall k | 0 <= k < |lots| && Live(lots[k]) :: UnitCost(lots[k]).value <= Dearest(lots)
  {
    var n := |lots| - 1;
    var init, last := lots[..n], lots[n];
    if UnitsHeld(init) == 0 {
      NoneLive(init);
      assert HifoOptimal.Above(Dearest(lots))(last);
    } else {
      DearestIs(init);
      if Dearest(lots) != Dearest(init) {
        assert HifoOptimal.Above(Dearest(lots))(last);
      }
    }
  }

  lemma {:induction false} NoneLive(lots: seq<Lot>)
    requires UnitsHeld(lots) == 0
    ensures forall k | 0 <= k < |lots| :: !Live(lots[k])
  {
    if lots != [] {
      NoneLive(lots[..|lots| - 1]);
    }
  }

  lemma {:induction false} BasisAtMost(lots: seq<Lot>, c: real)
    requires AllPriced(lots) && AllExact(lots)
    requires forall k | 0 <= k < |lots| && Live(lots[k]) :: UnitCost(lots[k]).value <= c
    ensures BasisOf(lots) <= c * UnitsHeld(lots) as real
  {
    hide UnitCost, Exact;
    if lots != [] {
      var n := |lots| - 1;
      var init, last := lots[..n], lots[n];
      assert AllPriced(init) && AllExact(init) && Exact(last);
      BasisAtMost(init, c);
      LotAtMost(last, c);
      TimesAdds(c, UnitsHeld(init) as real, Counted(last, Any) as real);
    }
  }

  lemma LotAtMost(l: Lot, c: real)
    requires Exact(l) && l.costTotal.Some? && (Live(l) ==> UnitCost(l).value <= c)
    ensures BasisIn(l) <= c * Counted(l, Any) as real
  {
    if Live(l) {
      HifoOptimal.UnitShare(l);
      TimesGrows(UnitCost(l).value, c, l.remaining.raw as real);
    }
  }

  /** If `taken` of `units` carry at least `c` each and the rest at most `c`, they carry at
      least their share. */
  lemma FairShare(basis: real, portion: real, units: real, taken: real, c: real)
    requires 0.0 <= taken <= units
    requires portion >= c * taken && basis - portion <= c * (units - taken)
    ensures units * (basis - portion) <= (units - taken) * basis
  {
    var left := units - taken;
    MulGrows(left, c * taken, portion);
    MulGrows(taken, basis - portion, c * left);
    assert taken * (c * left) == left * (c * taken);
    assert taken * basis == taken * (basis - portion) + taken * portion;
    assert left * portion + taken * portion == units * portion;
    assert units * (basis - portion) == units * basis - units * portion;
    assert left * basis == units * basis - taken * basis;
  }

  lemma MulGrows(k: real, x: real, y: real)
    requires k >= 0.0 && x <= y
    ensures k * x <= k * y
  {
  }

  lemma DrainKeepsPriced(open: seq<Lot>, plan: seq<Pick>)
    requires AllPriced(open)
    ensures AllPriced(Drain(open, plan))
  {
    Refinement.DrainKeepsOrigin(open, plan);
  }

  /** A HIFO disposal that leaves something takes only at or above all it leaves. */
  lemma TakesAbovePivot(open: seq<Lot>, needed: Quantity, c: real)
    requires AllExact(open) && AllPriced(open) && AtScale(open, needed.decimals) && needed.raw > 0
    requires Current(open, Budgets(open)) && Select(Hifo)(open, needed).Ok?
    requires CheckFull(Budgets(open), Select(Hifo)(open, needed).value, needed, 0).Ok?
    requires UnitsWhere(Drain(open, Select(Hifo)(open, needed).value), HifoOptimal.Above(c)) > 0
    ensures TakenWhere(open, Select(Hifo)(open, needed).value, HifoOptimal.Above(c))
         == TakenWhere(open, Select(Hifo)(open, needed).value, Any)
  {
    hide Select, CheckFull, Drain, AllExact, TakenWhere, UnitsWhere, Budgets;
    var plan := Select(Hifo)(open, needed).value;
    HifoOptimal.CurrentIsOverHeld(open, Budgets(open));
    HifoOptimal.HifoTakesDearest(open, needed, c);
    HifoOptimal.AboveIsDrawFree(c);
    DrainTakes(open, Budgets(open), plan, needed, 0, HifoOptimal.Above(c));
    CheckedTotal(open, Budgets(open), plan, needed, 0, HifoOptimal.Above(c));
    CheckedWithinNeed(Budgets(open), plan, needed, 0);
  }

  /** What a HIFO disposal leaves, in units and basis. */
  lemma HifoAccounts(open: seq<Lot>, needed: Quantity)
    requires AllExact(open) && AllPriced(open) && AtScale(open, needed.decimals) && needed.raw > 0
    requires Current(open, Budgets(open))
    ensures Select(Hifo)(open, needed).Ok?
    ensures var plan := Select(Hifo)(open, needed).value;
      && CheckFull(Budgets(open), plan, needed, 0).Ok?
      && TakenWhere(open, plan, Any) == Min(needed.raw, UnitsHeld(open))
      && AllExact(Drain(open, plan)) && AllPriced(Drain(open, plan))
      && UnitsHeld(Drain(open, plan)) == UnitsHeld(open) - Min(needed.raw, UnitsHeld(open))
      && BasisOf(Drain(open, plan)) + PortionsOf(Pieces(open, plan)) == BasisOf(open)
  {
    hide Select, CheckFull, Drain, Budgets, Pieces, TakenWhere;
    PlanPassesFull(Hifo, open, needed);
    var (plan, budgets) := (Select(Hifo)(open, needed).value, Budgets(open));
    HifoOptimal.CurrentIsOverHeld(open, budgets);
    CheckedTotal(open, budgets, plan, needed, 0, Any);
    DrainTakes(open, budgets, plan, needed, 0, Any);
    DrainConserves(open, budgets, plan, needed, 0);
    DrainKeepsPriced(open, plan);
  }

  /** A HIFO disposal takes at least its share of the basis: what is left per unit is no
      more than what there was. */
  lemma HifoTakesItsShare(open: seq<Lot>, needed: Quantity)
    requires AllExact(open) && AllPriced(open) && AtScale(open, needed.decimals) && needed.raw > 0
    requires Current(open, Budgets(open))
    ensures Select(Hifo)(open, needed).Ok?
    ensures var (after, units) := (Drain(open, Select(Hifo)(open, needed).value), UnitsHeld(open));
      units as real * BasisOf(after) <= (units - Min(needed.raw, units)) as real * BasisOf(open)
  {
    hide Select, CheckFull, Drain, Budgets, Current, Pieces, AllExact, AllPriced, AtScale, TakenWhere, BasisOf,
      UnitsHeld, PortionsOf;
    HifoAccounts(open, needed);
    var (plan, units) := (Select(Hifo)(open, needed).value, UnitsHeld(open));
    var (after, portion, take) := (Drain(open, plan), PortionsOf(Pieces(open, plan)), Min(needed.raw, units));
    if UnitsHeld(after) == 0 {
      NothingHeldNoBasis(after);
      assert units - take == 0;
    } else {
      var c := Dearest(after);
      DearestIs(after);
      BasisAtMost(after, c);
      TakesAbovePivot(open, needed, c);
      PortionsAtLeast(open, Budgets(open), plan, needed, 0, c);
      FairShare(BasisOf(open), portion, units as real, take as real, c);
      assert (units - take) as real == units as real - take as real;
    }
  }

  // ------------------------------------------------------- two accounts

  /** The first, kept under HIFO, holds the units of the second, kept under `how`, in the
      same book, and no dearer. */
  ghost predicate Trails(how: Method, h: Account, o: Account) {
    && h.ledger.book == o.ledger.book
    && UnitsLeft(h) == UnitsLeft(o)
    && (if how.Acb? then BasisOf(h.ledger.lots) <= PooledCost(o)
       else HifoOptimal.Dominates(h.ledger.lots, o.ledger.lots))
  }

  function PooledCost(o: Account): real {
    if o.pool.Some? && o.pool.value.cost.Some? then o.pool.value.cost.value else 0.0
  }

  ghost predicate Comparable(how: Method, h: Account, o: Account, assetId: string, currency: Option<string>) {
    && ValidAccount(Hifo, h, assetId, currency) && ValidAccount(how, o, assetId, currency)
    && Accounts.Priced(Hifo, h) && Accounts.Priced(how, o)
    && Trails(how, h, o)
  }

  /** So it has no more basis left. */
  lemma TrailsHoldsLess(how: Method, h: Account, o: Account, assetId: string, currency: Option<string>)
    requires Comparable(how, h, o, assetId, currency)
    ensures BasisLeft(Hifo, h).Some? && BasisLeft(how, o).Some?
    ensures BasisLeft(Hifo, h).value <= BasisLeft(how, o).value
  {
    if !how.Acb? {
      HifoOptimal.DominatingHoldsLessBasis(h.ledger.lots, o.ledger.lots);
    }
  }

  lemma OneMoreLot(lots: seq<Lot>, lot: Lot, w: Lot -> bool)
    ensures UnitsWhere(lots + [lot], w) == UnitsWhere(lots, w) + Counted(lot, w)
    ensures BasisOf(lots + [lot]) == BasisOf(lots) + BasisIn(lot)
  {
    assert (lots + [lot])[..|lots|] == lots;
  }

  lemma OpenTrails(how: Method, h: Account, o: Account, assetId: string, currency: string, e: Event)
    requires Comparable(how, h, o, assetId, Some(currency)) && e.Acquisition? && e.assetId == assetId
    requires e.cost.Some? && e.cost.value.currency == currency && !WrongScale(h.ledger.book, e.quantity)
    ensures Trails(how, Open(Hifo, h, currency, e).account, Open(how, o, currency, e).account)
  {
    hide Sound, BasisOf, UnitsWhere, AllExact;
    OpenKeepsValid(Hifo, h, assetId, Some(currency), e);
    OpenKeepsValid(how, o, assetId, Some(currency), e);
    var lot := NewLot(h.ledger.book, e);
    forall c: real
      ensures UnitsWhere(h.ledger.lots + [lot], HifoOptimal.Above(c))
           == UnitsWhere(h.ledger.lots, HifoOptimal.Above(c)) + Counted(lot, HifoOptimal.Above(c))
      ensures UnitsWhere(o.ledger.lots + [lot], HifoOptimal.Above(c))
           == UnitsWhere(o.ledger.lots, HifoOptimal.Above(c)) + Counted(lot, HifoOptimal.Above(c))
    {
      OneMoreLot(h.ledger.lots, lot, HifoOptimal.Above(c));
      OneMoreLot(o.ledger.lots, lot, HifoOptimal.Above(c));
    }
    OneMoreLot(h.ledger.lots, lot, Any);
  }

  /** A disposal of a sound ledger drains its open lots by the method's plan. */
  lemma SaleDrains(how: Method, l: Ledger, needed: Quantity)
    requires Sound(l) && !WrongScale(l.book, needed) && needed.raw > 0
    ensures var open := OpenLots(l.lots);
      && AllExact(open) && AtScale(open, needed.decimals) && Current(open, Budgets(open))
      && UnitsHeld(open) == UnitsHeld(l.lots) && BasisOf(open) == BasisOf(l.lots)
      && (forall lot :: lot in open ==> lot in l.lots)
      && Select(how)(open, needed).Ok?
      && CheckFull(Budgets(open), Select(how)(open, needed).value, needed, 0) == Ok(Min(needed.raw, UnitsHeld(open)))
      && Consume(Pruning, l, needed, Select(how)).ledger == l.(lots := Drain(open, Select(how)(open, needed).value))
      && Consume(Pruning, l, needed, Select(how)).outcome.Ok?
  {
    hide Select, CheckFull, Drain, UnitsWhere, Pieces, Budgets, AllExact, AtScale, Current, OpenLots, CheckPruning;
    var open := OpenLots(l.lots);
    HifoOptimal.SoundOpenLots(l, needed);
    SoundIsOneAsset(l);
    PlanPassesFull(how, open, needed);
    OpenKeepsTotals(l.lots, Any);
    ConsumeNeverRaises(how, Pruning, l, needed);
  }

  /** Above every cost, HIFO's disposal leaves no more than another method's. */
  lemma SaleDominates(how: Method, h: Ledger, o: Ledger, needed: Quantity)
    requires Sound(h) && Sound(o) && h.book == o.book && !WrongScale(h.book, needed) && needed.raw > 0
    requires (forall lot :: lot in h.lots ==> HifoOptimal.Priced(lot)) && HifoOptimal.Dominates(h.lots, o.lots)
    ensures forall c: real ::
      UnitsWhere(Consume(Pruning, h, needed, Select(Hifo)).ledger.lots, HifoOptimal.Above(c))
      <= UnitsWhere(Consume(Pruning, o, needed, Select(how)).ledger.lots, HifoOptimal.Above(c))
  {
    hide Select, CheckFull, Drain, UnitsWhere, Budgets, Consume, OpenLots, Sound, AllExact, Current, AtScale;
    SaleDrains(Hifo, h, needed);
    SaleDrains(how, o, needed);
    var (ho, oo) := (OpenLots(h.lots), OpenLots(o.lots));
    forall c: real
      ensures UnitsWhere(Drain(ho, Select(Hifo)(ho, needed).value), HifoOptimal.Above(c))
           <= UnitsWhere(Drain(oo, Select(how)(oo, needed).value), HifoOptimal.Above(c))
    {
      HifoOptimal.HifoDrainLeaves(ho, needed, c);
      HifoOptimal.AnyDrainLeaves(oo, Select(how)(oo, needed).value, needed, c);
      OpenKeepsTotals(h.lots, HifoOptimal.Above(c));
      OpenKeepsTotals(o.lots, HifoOptimal.Above(c));
    }
  }

  /** Nor does it leave more than the share a pooled average leaves. */
  lemma SaleSharesAtMost(l: Ledger, needed: Quantity)
    requires Sound(l) && !WrongScale(l.book, needed) && needed.raw > 0
    requires forall lot :: lot in l.lots ==> lot.costTotal.Some?
    ensures var units := UnitsHeld(l.lots);
      units as real * BasisOf(Consume(Pruning, l, needed, Select(Hifo)).ledger.lots)
      <= (units - Min(needed.raw, units)) as real * BasisOf(l.lots)
  {
    hide Select, CheckFull, Drain, UnitsHeld, BasisOf, Budgets, Consume, OpenLots, Sound, AllExact, Current, AtScale;
    SaleDrains(Hifo, l, needed);
    var open := OpenLots(l.lots);
    assert AllPriced(open) by {
      assert forall k | 0 <= k < |open| :: open[k] in open;
    }
    HifoTakesItsShare(open, needed);
  }

  /** Scaling down a cost that is no less keeps it no less. */
  lemma PooledShare(basis: real, left: real, cost: real, units: nat, take: nat)
    requires 0 < take <= units && basis <= cost
    requires units as real * left <= (units - take) as real * basis
    ensures left <= cost - Share(cost, take, units)
  {
    var n, t := units as real, take as real;
    assert (units - take) as real == n - t;
    MulGrows(n - t, basis, cost);
    assert n * left <= (n - t) * cost;
    var rest := cost - Share(cost, take, units);
    ShareOut(cost, take, units);
    assert n * rest == (n - t) * cost;
    DivideOut(n, left, rest);
  }

  lemma ShareOut(cost: real, take: nat, units: nat)
    requires units > 0
    ensures units as real * (cost - Share(cost, take, units)) == (units as real - take as real) * cost
  {
    var n, t, share := units as real, take as real, Share(cost, take, units);
    assert share * n == cost * t;
    assert n * (cost - share) == n * cost - share * n;
    assert (n - t) * cost == n * cost - cost * t;
  }

  lemma DivideOut(n: real, x: real, y: real)
    requires n > 0.0 && n * x <= n * y
    ensures x <= y
  {
    var d := x - y;
    assert n * d <= 0.0;
  }

  /** The pool's cost after a disposal that the lots cover as far as they can. */
  lemma PoolAfterSale(o: Account, assetId: string, currency: Option<string>, e: Event)
    requires ValidAccount(Acb, o, assetId, currency) && Accounts.Priced(Acb, o) && e.Disposal?
    requires !WrongScale(o.ledger.book, e.quantity)
    ensures var c := Sell(Acb, o, if currency.Some? then currency.value else DEFAULT_CURRENCY, e);
      var take := Min(e.quantity.raw, UnitsLeft(o));
      PooledCost(c.account)
      == PooledCost(o) - (if take == 0 then 0.0 else Share(PooledCost(o), take, UnitsLeft(o)))
  {
    hide Lots.Consume, Sound, UnitsHeld;
    SellKeepsValid(Acb, o, assetId, currency, e);
  }

  lemma SellTrailsPool(h: Account, o: Account, assetId: string, currency: Option<string>, e: Event)
    requires Comparable(Acb, h, o, assetId, currency) && e.Disposal? && !WrongScale(h.ledger.book, e.quantity)
    ensures var cur := if currency.Some? then currency.value else DEFAULT_CURRENCY;
      BasisOf(Sell(Hifo, h, cur, e).account.ledger.lots) <= PooledCost(Sell(Acb, o, cur, e).account)
  {
    hide Consume, Sound, UnitsHeld, BasisOf, InStep, Sell, PooledCost;
    var cur := if currency.Some? then currency.value else DEFAULT_CURRENCY;
    PoolAfterSale(o, assetId, currency, e);
    var (units, after) := (UnitsLeft(h), Sell(Hifo, h, cur, e).account.ledger.lots);
    SellKeepsValid(Hifo, h, assetId, currency, e);
    SellIsConsume(Hifo, h, cur, e);
    SaleSharesAtMost(h.ledger, e.quantity);
    if units == 0 {
      NothingHeldNoBasis(after);
      EmptyPoolIsFree(o, assetId, currency);
    } else {
      PooledShare(BasisOf(h.ledger.lots), BasisOf(after), PooledCost(o), units, Min(e.quantity.raw, units));
    }
  }

  lemma EmptyPoolIsFree(o: Account, assetId: string, currency: Option<string>)
    requires ValidAccount(Acb, o, assetId, currency) && UnitsLeft(o) == 0
    ensures PooledCost(o) == 0.0
  {
  }

  lemma SellTrails(how: Method, h: Account, o: Account, assetId: string, currency: Option<string>, e: Event)
    requires Comparable(how, h, o, assetId, currency) && e.Disposal? && !WrongScale(h.ledger.book, e.quantity)
    ensures var cur := if currency.Some? then currency.value else DEFAULT_CURRENCY;
      Trails(how, Sell(Hifo, h, cur, e).account, Sell(how, o, cur, e).account)
  {
    hide Consume, Sound, UnitsWhere, BasisOf, InStep;
    var cur := if currency.Some? then currency.value else DEFAULT_CURRENCY;
    SellKeepsValid(Hifo, h, assetId, currency, e);
    SellKeepsValid(how, o, assetId, currency, e);
    SellKeepsBook(Hifo, h, cur, e);
    SellKeepsBook(how, o, cur, e);
    if how.Acb? {
      SellTrailsPool(h, o, assetId, currency, e);
    } else {
      SaleDominates(how, h.ledger, o.ledger, e.quantity);
      SellIsConsume(Hifo, h, cur, e);
      SellIsConsume(how, o, cur, e);
    }
  }

  lemma SellIsConsume(how: Method, a: Account, currency: string, e: Event)
    ensures Sell(how, a, currency, e).account.ledger == Consume(Pruning, a.ledger, e.quantity, Select(how)).ledger
  {
  }

  // --------------------------------------------------------- two replays

  /** A replay under HIFO beside one of the same events under `how`. */
  ghost predicate Beside(how: Method, s: State, t: State) {
    && s.how == Hifo && t.how == how && ValidState(s) && ValidState(t)
    && PricedState(s) && PricedState(t) && FrameOf(s) == FrameOf(t)
    && (forall a :: a in s.accounts && a in t.accounts ==> Trails(how, s.accounts[a], t.accounts[a]))
  }

  lemma BesideHoldsLess(how: Method, s: State, t: State, a: string)
    requires Beside(how, s, t)
    ensures Left(s, a) <= Left(t, a)
  {
    hide ValidAccount, Accounts.Priced, Trails, BasisLeft;
    assert a in s.accounts <==> a in FrameOf(s).books;
    assert a in t.accounts <==> a in FrameOf(t).books;
    if a in s.accounts {
      assert AssetPriced(s, a) && AssetPriced(t, a);
      SameCurrency(s, t);
      TrailsHoldsLess(how, s.accounts[a], t.accounts[a], a, s.currency);
    }
  }

  lemma SameCurrency(s: State, t: State)
    requires FrameOf(s) == FrameOf(t)
    ensures s.currency == t.currency && s.lastAtMs == t.lastAtMs && s.assets == t.assets
      && s.accounts.Keys == t.accounts.Keys
  {
    assert s.accounts.Keys == FrameOf(s).books.Keys && t.accounts.Keys == FrameOf(t).books.Keys;
  }

  lemma TouchTrails(how: Method, s: State, t: State, e: Event, a: string)
    requires Beside(how, s, t)
    ensures a in Touch(s, e).accounts <==> a in Touch(t, e).accounts
    ensures a in Touch(s, e).accounts ==> Trails(how, Touch(s, e).accounts[a], Touch(t, e).accounts[a])
  {
    hide ValidAccount, Accounts.Priced, FrameOf, Trails, EmptyLedger, AssetPriced;
    SameCurrency(s, t);
    assert a in s.accounts && a in t.accounts ==> Trails(how, s.accounts[a], t.accounts[a]);
    NewAccountTrails(how, e.assetId, e.quantity.decimals);
    if a in s.accounts {
      RescaledTrails(how, s.accounts[a], t.accounts[a], e.quantity.decimals);
    }
  }

  lemma RescaledTrails(how: Method, h: Account, o: Account, scale: nat)
    requires Trails(how, h, o)
    ensures Trails(how, h.(scale := scale), o.(scale := scale))
  {
    hide UnitsHeld, BasisOf, HifoOptimal.Dominates;
  }

  lemma NewAccountTrails(how: Method, assetId: string, scale: nat)
    ensures Trails(how, Account(EmptyLedger(assetId), None, scale), Account(EmptyLedger(assetId), None, scale))
  {
  }

  lemma FixTrails(how: Method, s: State, t: State, priced: Option<Money>, a: string)
    requires FixCurrency(s, priced).Ok? && FixCurrency(t, priced).Ok? && s.currency == t.currency
    requires a in s.accounts && a in t.accounts && Trails(how, s.accounts[a], t.accounts[a])
    ensures a in FixCurrency(s, priced).value.accounts && a in FixCurrency(t, priced).value.accounts
    ensures Trails(how, FixCurrency(s, priced).value.accounts[a], FixCurrency(t, priced).value.accounts[a])
  {
    hide UnitsHeld, BasisOf, HifoOptimal.Dominates;
  }

  lemma AccountTrails(fx: Boundary, how: Method, s: State, t: State, e: Event, a: string)
    requires s.how == Hifo && t.how == how && ValidState(s) && ValidState(t) && PricedState(s) && PricedState(t)
    requires s.currency == t.currency && e.assetId in s.accounts && e.assetId in t.accounts
    requires PricedBy(e).Some? ==> s.currency == Some(PricedBy(e).value.currency)
    requires CostKnown(e, e.assetId) && !WrongScale(s.accounts[e.assetId].ledger.book, e.quantity)
    requires a in s.accounts && a in t.accounts && Trails(how, s.accounts[a], t.accounts[a])
    ensures var (s', t') := (StepAccount(fx, s, e).state, StepAccount(fx, t, e).state);
      a in s'.accounts && a in t'.accounts ==> Trails(how, s'.accounts[a], t'.accounts[a])
  {
    hide ValidAccount, Accounts.Priced, Trails, Open, Sell, BookDisposal, Faithful, Sound, WrongScale;
    if a == e.assetId {
      var (h, o) := (s.accounts[a], t.accounts[a]);
      assert AssetPriced(s, a) && AssetPriced(t, a);
      assert Comparable(how, h, o, a, s.currency);
      if e.Acquisition? {
        OpenTrails(how, h, o, a, s.currency.value, e);
      } else {
        SellTrails(how, h, o, a, s.currency, e);
      }
    }
  }

  lemma StepTrails(fx: Boundary, how: Method, s: State, t: State, e: Event, a: string)
    requires Beside(how, s, t) && CostKnown(e, e.assetId)
    requires ProcessOne(fx, s, e).error.None? && ProcessOne(fx, t, e).error.None?
    requires a in ProcessOne(fx, s, e).state.accounts && a in ProcessOne(fx, t, e).state.accounts
    ensures Trails(how, ProcessOne(fx, s, e).state.accounts[a], ProcessOne(fx, t, e).state.accounts[a])
  {
    hide ValidState, PricedState, Trails, StepAccount, Touch, FixCurrency, Faithful;
    var (s1, t1) := (Touch(s, e), Touch(t, e));
    TouchKeeps(s, e);
    TouchKeeps(t, e);
    SameCurrency(s, t);
    TouchKeepsRest(s, e);
    TouchKeepsRest(t, e);
    var (s2, t2) := (FixCurrency(s1, PricedBy(e)).value, FixCurrency(t1, PricedBy(e)).value);
    FixKeeps(s1, PricedBy(e));
    FixKeeps(t1, PricedBy(e));
    FixKeepsRest(s1, PricedBy(e));
    FixKeepsRest(t1, PricedBy(e));
    FixAlike(s1, t1, PricedBy(e));
    AccountStepKeepsValid(fx, s2, e);
    StepAccountKeys(fx, s2, e);
    StepAccountKeys(fx, t2, e);
    TouchTrails(how, s, t, e, a);
    FixTrails(how, s1, t1, PricedBy(e), a);
    AccountTrails(fx, how, s2, t2, e, a);
  }

  lemma TouchKeepsRest(s: State, e: Event)
    ensures Touch(s, e).how == s.how && Touch(s, e).currency == s.currency && Touch(s, e).lastAtMs == s.lastAtMs
  {
  }

  lemma FixAlike(s: State, t: State, priced: Option<Money>)
    requires FixCurrency(s, priced).Ok? && FixCurrency(t, priced).Ok? && s.currency == t.currency
    ensures FixCurrency(s, priced).value.currency == FixCurrency(t, priced).value.currency
  {
  }

  lemma StepAccountKeys(fx: Boundary, s: State, e: Event)
    requires e.assetId in s.accounts
    ensures StepAccount(fx, s, e).state.accounts.Keys == s.accounts.Keys
  {
    hide Open, Sell, BookDisposal, Faithful;
  }

  /** After every event the two are still beside each other. */
  lemma StepBeside(fx: Boundary, how: Method, s: State, t: State, e: Event)
    requires Beside(how, s, t) && CostKnown(e, e.assetId)
    ensures ProcessOne(fx, s, e).error == ProcessOne(fx, t, e).error
    ensures ProcessOne(fx, s, e).error.None? ==> Beside(how, ProcessOne(fx, s, e).state, ProcessOne(fx, t, e).state)
  {
    hide ProcessOne, ValidState, PricedState, FrameOf, Trails, RefusalOf, NextFrame;
    StepFrames(fx, s, e);
    StepFrames(fx, t, e);
    if ProcessOne(fx, s, e).error.None? {
      StepKeepsValid(fx, s, e);
      StepKeepsValid(fx, t, e);
      StepMovesTotal(fx, s, e);
      StepMovesTotal(fx, t, e);
      StepKeepsHow(fx, s, e);
      StepKeepsHow(fx, t, e);
      var (s', t') := (ProcessOne(fx, s, e).state, ProcessOne(fx, t, e).state);
      forall a | a in s'.accounts && a in t'.accounts
        ensures Trails(how, s'.accounts[a], t'.accounts[a])
      {
        StepTrails(fx, how, s, t, e, a);
      }
    }
  }

  lemma {:induction false} ProcessBeside(fx: Boundary, how: Method, s: State, t: State, events: seq<Event>)
    requires Beside(how, s, t) && CostsKnown(events) && Process(fx, s, events).error.None?
    ensures Process(fx, t, events).error.None?
    ensures Beside(how, Process(fx, s, events).state, Process(fx, t, events).state)
    decreases |events|
  {
    hide ProcessOne, Beside;
    if events != [] {
      StepBeside(fx, how, s, t, events[0]);
      ProcessBeside(fx, how, ProcessOne(fx, s, events[0]).state, ProcessOne(fx, t, events[0]).state, events[1..]);
    }
  }

  /** A replay is charged for what it got through, and only for that. */
  lemma {:induction false} ChargedForReplayed(fx: Boundary, s: State, events: seq<Event>)
    requires ValidState(s)
    ensures Replayed(fx, s, events) <= |events|
    ensures var through := events[..Replayed(fx, s, events)];
      && Process(fx, s, through).error.None? && Replayed(fx, s, through) == |through|
      && Charges(fx, s, through) == Charges(fx, s, events)
    decreases |events|
  {
    hide ProcessOne, ChargesOne, ValidState;
    if events != [] {
      var one, rest := ProcessOne(fx, s, events[0]), events[1..];
      StepKeepsValid(fx, s, events[0]);
      if one.error.None? {
        ChargedForReplayed(fx, one.state, rest);
        var n := Replayed(fx, one.state, rest);
        assert events[..n + 1][1..] == rest[..n];
      } else {
        RefusedIsFree(fx, s, events[0]);
        assert events[..0] == [];
      }
    }
  }

  lemma RefusedIsFree(fx: Boundary, s: State, e: Event)
    requires ProcessOne(fx, s, e).error.Some?
    ensures ChargesOne(s, e) == []
  {
    hide Sell, Open, Faithful, BookDisposal;
  }

  lemma NewBeside(how: Method)
    ensures Beside(how, NewState(Hifo), NewState(how))
  {
  }

  /** What HIFO has left of any asset's cost after a stream is no more than what any
      method has, the pooled average included. */
  lemma HifoLeavesLeast(fx: Boundary, how: Method, events: seq<Event>, a: string)
    requires CostsKnown(events) && Process(fx, NewState(Hifo), events).error.None?
    ensures Process(fx, NewState(how), events).error.None?
    ensures Left(Process(fx, NewState(Hifo), events).state, a) <= Left(Process(fx, NewState(how), events).state, a)
  {
    hide Process, Beside;
    NewBeside(how);
    ProcessBeside(fx, how, NewState(Hifo), NewState(how), events);
    BesideHoldsLess(how, Process(fx, NewState(Hifo), events).state, Process(fx, NewState(how), events).state, a);
  }

  lemma CostsKnownOn(events: seq<Event>, n: nat, a: string)
    requires CostsKnown(events) && n <= |events|
    ensures CostsKnown(events[..n]) && forall k | 0 <= k < n :: CostKnown(events[..n][k], a)
  {
  }

  /** On every stream whose acquisitions are priced, however far it gets, and so after
      each of its events: of no asset has HIFO charged less exact basis than FIFO, LIFO,
      HIFO or ACB has. */
  lemma HifoChargesMost(fx: Boundary, how: Method, events: seq<Event>, a: string)
    requires CostsKnown(events)
    ensures ChargedOn(Charges(fx, NewState(how), events), a) <= ChargedOn(Charges(fx, NewState(Hifo), events), a)
  {
    hide Process, Charges, Replayed, CostsKnown, Left;
    var (h, o) := (NewState(Hifo), NewState(how));
    ChargedForReplayed(fx, h, events);
    ChargedForReplayed(fx, o, events);
    Independence.RaisesAlike(fx, Hifo, how, events);
    var through := events[..Replayed(fx, h, events)];
    CostsKnownOn(events, |through|, a);
    ProcessConserves(fx, h, through, a);
    ProcessConserves(fx, o, through, a);
    HifoLeavesLeast(fx, how, through, a);
    NothingLeftYet(Hifo, a);
    NothingLeftYet(how, a);
  }

  lemma {:induction false} LeftSumAtMost(s: State, t: State, assets: seq<string>)
    requires forall a :: a in assets ==> Left(s, a) <= Left(t, a)
    ensures LeftSum(s, assets) <= LeftSum(t, assets)
  {
    if assets != [] {
      LeftSumAtMost(s, t, assets[..|assets| - 1]);
    }
  }

  /** So on a fully priced stream that no method rounds, none realises less gain. */
  lemma HifoRealizesLeast(fx: Boundary, how: Method, events: seq<Event>)
    requires FullyPriced(events)
    requires var r := Process(fx, NewState(Hifo), events); r.error.None? && Unrounded(r.state.disposals)
    requires Unrounded(Process(fx, NewState(how), events).state.disposals)
    ensures RealizedSum(Process(fx, NewState(Hifo), events).state.disposals)
         <= RealizedSum(Process(fx, NewState(how), events).state.disposals)
  {
    hide Process, Left, LeftSum, FrameOf, RealizedSum, Unrounded;
    var (s, t) := (Process(fx, NewState(Hifo), events).state, Process(fx, NewState(how), events).state);
    forall a
      ensures Left(s, a) <= Left(t, a)
    {
      HifoLeavesLeast(fx, how, events, a);
    }
    Independence.RaisesAlike(fx, Hifo, how, events);
    SameCurrency(s, t);
    LeftSumAtMost(s, t, s.assets);
    ProcessBalances(fx, NewState(Hifo), events);
    ProcessBalances(fx, NewState(how), events);
    NothingLeftYet(Hifo, "");
    NothingLeftYet(how, "");
  }

  lemma NothingLeftYet(how: Method, a: string)
    ensures Left(NewState(how), a) == 0.0
    ensures LeftSum(NewState(how), NewState(how).assets) == 0.0 && RealizedSum(NewState(how).disposals) == 0.0
  {
  }
}
