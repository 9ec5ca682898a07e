/** Exact basis and unit conservation in every reachable lot ledger. */
module Basis {
  import opened Common
  import opened Lots
  import opened SelectionSpec
  import Refinement

  /** The per-lot invariant: the un-disposed basis is the un-disposed share of
      the cost, exactly. */
  predicate Exact(l: Lot) {
    && 0 <= l.remaining.raw <= l.original.raw
    && l.remaining.decimals == l.original.decimals
    && (l.costTotal.Some? <==> l.costRemaining.Some?)
    && (l.costTotal.Some? ==>
          l.costRemaining.value * l.original.raw as real == l.costTotal.value.amount * l.remaining.raw as real)
  }

  ghost predicate AllExact(lots: seq<Lot>) {
    forall k | 0 <= k < |lots| :: Exact(lots[k])
  }

  lemma Distribute(a: real, x: real, y: real, o: real)
    requires o != 0.0
    ensures a * x / o - a * y / o == a * (x - y) / o
  {
    assert a * (x - y) == a * x - a * y;
  }

  lemma RemainingOf(l: Lot)
    requires Exact(l) && l.costTotal.Some?
    ensures l.costRemaining.value == l.costTotal.value.amount * l.remaining.raw as real / l.original.raw as real
  {
  }

  /** An exhausted lot holds exactly zero basis. */
  lemma ExhaustedHoldsNothing(l: Lot)
    requires Exact(l) && l.remaining.raw == 0 && l.costTotal.Some?
    ensures l.costRemaining.value == 0.0
  {
    RemainingOf(l);
  }

  /** Drawing units keeps the invariant and moves exactly their share. */
  lemma DrawKeepsExact(l: Lot, take: int)
    requires Exact(l) && 0 <= take <= l.remaining.raw
    ensures Exact(Drawn(l, take))
    ensures l.costTotal.Some? ==>
      Portion(l, take).Some? && Drawn(l, take).costRemaining.value + Portion(l, take).value == l.costRemaining.value
  {
    if l.costTotal.Some? {
      var cost, units := l.costTotal.value.amount, l.original.raw as real;
      RemainingOf(l);
      Distribute(cost, l.remaining.raw as real, take as real, units);
      assert (l.remaining.raw - take) as real == l.remaining.raw as real - take as real;
    }
  }

  // -------------------------------------------------------------- totals

  function BasisIn(l: Lot): real {
    if Live(l) && l.costRemaining.Some? then l.costRemaining.value else 0.0
  }

  function BasisOf(lots: seq<Lot>): real {
    if |lots| == 0 then 0.0 else BasisOf(lots[..|lots| - 1]) + BasisIn(lots[|lots| - 1])
  }

  function PortionsOf(pieces: seq<Piece>): real {
    if pieces == [] then 0.0
    else (if pieces[0].portion.Some? then pieces[0].portion.value else 0.0) + PortionsOf(pieces[1..])
  }

  /** A property of lots that drawing units does not change. */
  ghost predicate DrawFree(w: Lot -> bool) {
    forall l: Lot, take: int :: w(Drawn(l, take)) == w(l)
  }

  lemma {:induction false} UnitsUpdate(lots: seq<Lot>, i: nat, l: Lot, w: Lot -> bool)
    requires i < |lots|
    ensures UnitsWhere(lots[i := l], w) == UnitsWhere(lots, w) - Counted(lots[i], w) + Counted(l, w)
  {
    var n := |lots| - 1;
    if i < n {
      UnitsUpdate(lots[..n], i, l, w);
      assert lots[i := l][..n] == lots[..n][i := l];
    } else {
      assert lots[i := l][..n] == lots[..n];
    }
  }

  lemma {:induction false} BasisUpdate(lots: seq<Lot>, i: nat, l: Lot)
    requires i < |lots|
    ensures BasisOf(lots[i := l]) == BasisOf(lots) - BasisIn(lots[i]) + BasisIn(l)
  {
    var n := |lots| - 1;
    if i < n {
      BasisUpdate(lots[..n], i, l);
      assert lots[i := l][..n] == lots[..n][i := l];
    } else {
      assert lots[i := l][..n] == lots[..n];
    }
  }

  /** The budgets a validated plan is checked against are the units in hand. */
  ghost predicate Current(open: seq<Lot>, budgets: map<LotRef, int>) {
    forall r :: r in budgets ==> r.Held? && r.at < |open| && budgets[r] == open[r.at].remaining.raw
  }

  /** A plan that passes validation is drawn without breaking any lot, and what
      leaves the lots is exactly what the pieces carry. */
  lemma {:induction false} DrainConserves(open: seq<Lot>, budgets: map<LotRef, int>, plan: seq<Pick>,
      needed: Quantity, total: int)
    requires AllExact(open) && Current(open, budgets)
    requires CheckFull(budgets, plan, needed, total).Ok?
    ensures AllExact(Drain(open, plan))
    ensures BasisOf(Drain(open, plan)) + PortionsOf(Pieces(open, plan)) == BasisOf(open)
    decreases |plan|
  {
    hide BasisOf;
    if plan != [] {
      var p := plan[0];
      var l := open[p.lot.at];
      var l' := Drawn(l, p.take.raw);
      DrawKeepsExact(l, p.take.raw);
      var open' := open[p.lot.at := l'];
      BasisUpdate(open, p.lot.at, l');
      if l.costTotal.Some? && l'.remaining.raw == 0 {
        ExhaustedHoldsNothing(l');
      }
      DrainConserves(open', budgets[p.lot := budgets[p.lot] - p.take.raw], plan[1..], needed, total + p.take.raw);
      assert Pieces(open, plan)[1..] == Pieces(open', plan[1..]);
    }
  }

  lemma {:induction false} TakenIgnoresDraw(lots: seq<Lot>, i: nat, l: Lot, plan: seq<Pick>, w: Lot -> bool)
    requires i < |lots| && w(l) == w(lots[i])
    ensures TakenWhere(lots[i := l], plan, w) == TakenWhere(lots, plan, w)
    decreases |plan|
  {
    if plan != [] {
      TakenIgnoresDraw(lots, i, l, plan[1..], w);
    }
  }

  /** The budgets name only handed lots. */
  ghost predicate OverHeld(open: seq<Lot>, budgets: map<LotRef, int>) {
    forall r :: r in budgets ==> r.Held? && r.at < |open|
  }

  /** A validated plan's total is what it takes, and no class loses more. */
  lemma {:induction false} CheckedTotal(open: seq<Lot>, budgets: map<LotRef, int>, plan: seq<Pick>, needed: Quantity,
                                        total: int, w: Lot -> bool)
    requires OverHeld(open, budgets)
    requires CheckFull(budgets, plan, needed, total).Ok?
    ensures 0 <= TakenWhere(open, plan, w) <= TakenWhere(open, plan, Any)
    ensures CheckFull(budgets, plan, needed, total) == Ok(total + TakenWhere(open, plan, Any))
    decreases |plan|
  {
    if plan != [] {
      var p := plan[0];
      CheckedTotal(open, budgets[p.lot := budgets[p.lot] - p.take.raw], plan[1..], needed, total + p.take.raw, w);
    }
  }

  /** Units of any draw-free class of lots drop by exactly what is taken from
      that class. */
  lemma {:induction false} DrainTakes(open: seq<Lot>, budgets: map<LotRef, int>, plan: seq<Pick>, needed: Quantity,
                                      total: int, w: Lot -> bool)
    requires AllExact(open) && Current(open, budgets) && DrawFree(w)
    requires CheckFull(budgets, plan, needed, total).Ok?
    ensures UnitsWhere(Drain(open, plan), w) == UnitsWhere(open, w) - TakenWhere(open, plan, w)
    decreases |plan|
  {
    hide UnitsWhere;
    if plan != [] {
      var p := plan[0];
      var l := open[p.lot.at];
      var l' := Drawn(l, p.take.raw);
      DrawKeepsExact(l, p.take.raw);
      UnitsUpdate(open, p.lot.at, l', w);
      TakenIgnoresDraw(open, p.lot.at, l', plan[1..], w);
      DrainTakes(open[p.lot.at := l'], budgets[p.lot := budgets[p.lot] - p.take.raw], plan[1..], needed,
                 total + p.take.raw, w);
    }
  }

  // ------------------------------------------------------------- ledgers

  lemma {:induction false} OpenKeepsTotals(lots: seq<Lot>, w: Lot -> bool)
    ensures UnitsWhere(OpenLots(lots), w) == UnitsWhere(lots, w)
    ensures BasisOf(OpenLots(lots)) == BasisOf(lots)
  {
    if |lots| > 0 {
      var n := |lots| - 1;
      OpenKeepsTotals(lots[..n], w);
      if Live(lots[n]) {
        assert OpenLots(lots)[..|OpenLots(lots)| - 1] == OpenLots(lots[..n]);
      }
    }
  }

  lemma {:induction false} WriteBackTotals(lots: seq<Lot>, after: seq<Lot>, w: Lot -> bool)
    requires |after| == |OpenLots(lots)|
    ensures UnitsWhere(WriteBack(lots, after), w) == UnitsWhere(after, w)
    ensures BasisOf(WriteBack(lots, after)) == BasisOf(after)
  {
    if |lots| > 0 {
      var n := |lots| - 1;
      assert WriteBack(lots, after)[n] == if Live(lots[n]) then after[|after| - 1] else lots[n];
      if Live(lots[n]) {
        WriteBackTotals(lots[..n], after[..|after| - 1], w);
        assert WriteBack(lots, after)[..n] == WriteBack(lots[..n], after[..|after| - 1]);
      } else {
        WriteBackTotals(lots[..n], after, w);
        assert WriteBack(lots, after)[..n] == WriteBack(lots[..n], after);
      }
    }
  }

  /** A lot in the shape its ledger gives it. */
  predicate SoundLot(book: Book, l: Lot) {
    Exact(l) && l.assetId == book.assetId && Some(l.remaining.decimals) == book.decimals
  }

  /** What every reachable ledger satisfies. */
  ghost predicate Sound(l: Ledger) {
    forall lot :: lot in l.lots ==> SoundLot(l.book, lot)
  }

  lemma {:induction false} WriteBackSound(book: Book, lots: seq<Lot>, after: seq<Lot>)
    requires |after| == |OpenLots(lots)|
    requires forall lot :: lot in lots || lot in after ==> SoundLot(book, lot)
    ensures forall lot :: lot in WriteBack(lots, after) ==> SoundLot(book, lot)
  {
    if |lots| > 0 {
      var n := |lots| - 1;
      WriteBackSound(book, lots[..n], if Live(lots[n]) then after[..|after| - 1] else after);
    }
  }

  /** A selector may be any at all under the plain ledger; under the pruning one
      it must plan only over the lots it is handed. */
  ghost predicate Admissible(kind: Kind, selector: Selector) {
    kind.Full? || Refinement.PlansOverHanded(selector)
  }

  /** The open lots of a sound ledger, drawn by a validated plan. */
  lemma ExecutionConserves(l: Ledger, needed: Quantity, selector: Selector)
    requires Sound(l)
    requires Execute(Full, l.book, OpenLots(l.lots), needed, selector).Ok?
    ensures var open := OpenLots(l.lots);
      var x := Execute(Full, l.book, open, needed, selector).value;
      && (forall lot :: lot in x.after ==> SoundLot(l.book, lot))
      && 0 <= x.consumed.shortfall.raw <= needed.raw
      && UnitsHeld(x.after) == UnitsHeld(open) - (needed.raw - x.consumed.shortfall.raw)
      && BasisOf(x.after) + PortionsOf(x.consumed.pieces) == BasisOf(open)
  {
    var open := OpenLots(l.lots);
    var plan := selector(open, needed).value;
    Refinement.OpenLotsAreLive(l.lots);
    assert Current(open, Budgets(open));
    assert AllExact(open) by {
      assert forall k | 0 <= k < |open| :: open[k] in open;
    }
    DrainConserves(open, Budgets(open), plan, needed, 0);
    DrainTakes(open, Budgets(open), plan, needed, 0, Any);
    CheckedTotal(open, Budgets(open), plan, needed, 0, Any);
    Refinement.DrainKeepsOrigin(open, plan);
    forall lot | lot in Drain(open, plan)
      ensures SoundLot(l.book, lot)
    {
      var k :| 0 <= k < |open| && Drain(open, plan)[k] == lot;
      assert open[k] in open;
    }
    CheckedWithinNeed(Budgets(open), plan, needed, 0);
  }

  lemma {:induction false} CheckedWithinNeed(budgets: map<LotRef, int>, plan: seq<Pick>, needed: Quantity, total: int)
    requires CheckFull(budgets, plan, needed, total).Ok?
    ensures total <= CheckFull(budgets, plan, needed, total).value <= needed.raw
    decreases |plan|
  {
    if plan != [] {
      var p := plan[0];
      CheckedWithinNeed(budgets[p.lot := budgets[p.lot] - p.take.raw], plan[1..], needed, total + p.take.raw);
    }
  }

  lemma OpenKeepsSound(l: Ledger, e: Event)
    requires Sound(l) && e.Acquisition? && OpenLot(l, e).Ok?
    ensures Sound(OpenLot(l, e).value)
  {
    assert l.lots != [] ==> l.lots[0] in l.lots;
  }

  lemma OpenConserves(l: Ledger, e: Event)
    requires Sound(l) && e.Acquisition? && OpenLot(l, e).Ok?
    ensures var l' := OpenLot(l, e).value;
      && Sound(l')
      && UnitsHeld(l'.lots) == UnitsHeld(l.lots) + e.quantity.raw
      && BasisOf(l'.lots) == BasisOf(l.lots) + (if e.cost.Some? then e.cost.value.amount else 0.0)
  {
    hide Sound;
    var lot := NewLot(l.book, e);
    assert (l.lots + [lot])[..|l.lots|] == l.lots;
    OpenKeepsSound(l, e);
  }

  lemma ConsumeConserves(kind: Kind, l: Ledger, needed: Quantity, selector: Selector)
    requires Sound(l) && Admissible(kind, selector)
    ensures var c := Consume(kind, l, needed, selector);
      && Sound(c.ledger)
      && (c.outcome.Err? ==> UnitsHeld(c.ledger.lots) == UnitsHeld(l.lots) && BasisOf(c.ledger.lots) == BasisOf(l.lots))
      && (c.outcome.Ok? ==>
            && 0 <= c.outcome.value.shortfall.raw
            && UnitsHeld(c.ledger.lots) == UnitsHeld(l.lots) - (needed.raw - c.outcome.value.shortfall.raw)
            && BasisOf(c.ledger.lots) == BasisOf(l.lots) - PortionsOf(c.outcome.value.pieces))
  {
    OpenKeepsTotals(l.lots, Any);
    Refinement.OpenLotsAreLive(l.lots);
    if !WrongScale(l.book, needed) {
      if kind.Pruning? {
        Refinement.ExecuteAgrees(l, needed, selector);
      }
      var x := Execute(Full, l.book, OpenLots(l.lots), needed, selector);
      if x.Ok? {
        ExecutionConserves(l, needed, selector);
        WriteBackTotals(l.lots, x.value.after, Any);
        WriteBackSound(l.book, l.lots, x.value.after);
      }
    }
  }

  /** One call keeps the ledger sound and moves units and basis exactly. */
  lemma StepConserves(kind: Kind, l: Ledger, e: Event, selector: Selector)
    requires Sound(l) && Admissible(kind, selector)
    ensures var (l', o) := Step(kind, l, e, selector);
      && Sound(l')
      && UnitsHeld(l'.lots) == UnitsHeld(l.lots) + UnitsIn(o) - UnitsOut(e, o)
      && BasisOf(l'.lots) == BasisOf(l.lots) + CostIn(o) - CostOut(o)
  {
    if e.Disposal? {
      ConsumeConserves(kind, l, e.quantity, selector);
    } else if OpenLot(l, e).Ok? {
      OpenConserves(l, e);
    }
  }

  function UnitsIn(o: Outcome): int {
    if o.Opened? then o.lot.original.raw else 0
  }

  /** Units a disposal covered: what it needed less its shortfall. */
  function UnitsOut(e: Event, o: Outcome): int {
    if o.Disposed? then e.quantity.raw - o.consumed.shortfall.raw else 0
  }

  function CostIn(o: Outcome): real {
    if o.Opened? && o.lot.costTotal.Some? then o.lot.costTotal.value.amount else 0.0
  }

  function CostOut(o: Outcome): real {
    if o.Disposed? then PortionsOf(o.consumed.pieces) else 0.0
  }

  function TotalUnitsIn(outcomes: seq<Outcome>): int {
    if outcomes == [] then 0 else UnitsIn(outcomes[0]) + TotalUnitsIn(outcomes[1..])
  }

  function TotalUnitsOut(events: seq<Event>, outcomes: seq<Outcome>): int
    requires |events| == |outcomes|
  {
    if outcomes == [] then 0 else UnitsOut(events[0], outcomes[0]) + TotalUnitsOut(events[1..], outcomes[1..])
  }

  function TotalCostIn(outcomes: seq<Outcome>): real {
    if outcomes == [] then 0.0 else CostIn(outcomes[0]) + TotalCostIn(outcomes[1..])
  }

  function TotalCostOut(outcomes: seq<Outcome>): real {
    if outcomes == [] then 0.0 else CostOut(outcomes[0]) + TotalCostOut(outcomes[1..])
  }

  /** Over any stream: every lot stays exact, units held are units acquired less
      units disposed of (shortfalls aside), and remaining basis plus consumed
      basis is the cost acquired, with zero drift. */
  lemma {:induction false} RunConserves(kind: Kind, l: Ledger, events: seq<Event>, selector: Selector)
    requires Sound(l) && Admissible(kind, selector)
    ensures |Run(kind, l, events, selector).1| == |events|
    ensures var (l', outcomes) := Run(kind, l, events, selector);
      && Sound(l')
      && UnitsHeld(l'.lots) == UnitsHeld(l.lots) + TotalUnitsIn(outcomes) - TotalUnitsOut(events, outcomes)
      && BasisOf(l'.lots) == BasisOf(l.lots) + TotalCostIn(outcomes) - TotalCostOut(outcomes)
    decreases |events|
  {
    if events != [] {
      StepConserves(kind, l, events[0], selector);
      RunConserves(kind, Step(kind, l, events[0], selector).0, events[1..], selector);
    }
  }
}
