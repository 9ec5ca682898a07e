/** HIFO minimises realised gain over a whole stream (accounting/hifo.py):
    no sequence of valid plans that covers the same units ever consumes more
    basis. */
module HifoOptimal {
  import opened Common
  import opened Lots
  import opened Selection
  import opened SelectionSpec
  import opened Basis
  import Refinement

  predicate Priced(l: Lot) {
    l.costTotal.Some?
  }

  /** The lots whose unit cost is at least `c`. */
  function Above(c: real): Lot -> bool {
    (l: Lot) => UnitCost(l).Some? && UnitCost(l).value >= c
  }

  lemma AboveIsDrawFree(c: real)
    ensures DrawFree(Above(c))
  {
  }

  // ------------------------------------------------ units bound the basis

  /** `n` units at `k` each. */
  function Times(k: real, n: nat): real {
    if n == 0 then 0.0 else Times(k, n - 1) + k
  }

  lemma {:induction false} TimesIsProduct(k: real, n: nat)
    ensures Times(k, n) == k * n as real
  {
    if n > 0 {
      TimesIsProduct(k, n - 1);
      assert k * n as real == k * (n - 1) as real + k;
    }
  }

  lemma {:induction false} TimesAddsUnits(k: real, m: nat, n: nat)
    ensures Times(k, m + n) == Times(k, m) + Times(k, n)
  {
    if n > 0 {
      TimesAddsUnits(k, m, n - 1);
    }
  }

  lemma {:induction false} TimesAddsRates(j: real, k: real, n: nat)
    ensures Times(j + k, n) == Times(j, n) + Times(k, n)
  {
    if n > 0 {
      TimesAddsRates(j, k, n - 1);
    }
  }

  lemma {:induction false} TimesGrows(k: real, m: nat, n: nat)
    requires 0.0 <= k && m <= n
    ensures Times(k, m) <= Times(k, n)
    decreases n
  {
    if m < n {
      TimesGrows(k, m, n - 1);
    }
  }

  /** Basis of a live priced lot in excess of `t` per unit. */
  function Excess(l: Lot, t: real): real {
    if Live(l) && Priced(l) && UnitCost(l).value > t then Times(UnitCost(l).value - t, l.remaining.raw) else 0.0
  }

  function ExcessOf(lots: seq<Lot>, t: real): real {
    if |lots| == 0 then 0.0 else ExcessOf(lots[..|lots| - 1], t) + Excess(lots[|lots| - 1], t)
  }

  /** The number of live lots dearer than `t`. */
  function Dearer(lots: seq<Lot>, t: real): nat {
    if |lots| == 0 then 0
    else
      var l := lots[|lots| - 1];
      Dearer(lots[..|lots| - 1], t) + (if Live(l) && Priced(l) && UnitCost(l).value > t then 1 else 0)
  }

  /** The least unit cost above `t` of a live lot, or `top` when there is none
      below it. */
  function NextLevel(lots: seq<Lot>, t: real, top: real): real {
    if |lots| == 0 then top
    else
      var rest := NextLevel(lots[..|lots| - 1], t, top);
      var l := lots[|lots| - 1];
      if Live(l) && Priced(l) && t < UnitCost(l).value < rest then UnitCost(l).value else rest
  }

  /** No live lot costs strictly between `t` and `t2`. */
  ghost predicate Gap(lots: seq<Lot>, t: real, t2: real) {
    forall l :: l in lots && Live(l) && Priced(l) ==> UnitCost(l).value <= t || t2 <= UnitCost(l).value
  }

  lemma {:induction false} NextLevelIsGap(lots: seq<Lot>, t: real, top: real)
    requires t < top
    ensures t < NextLevel(lots, t, top) <= top && Gap(lots, t, NextLevel(lots, t, top))
    ensures NextLevel(lots, t, top) < top ==> Dearer(lots, NextLevel(lots, t, top)) < Dearer(lots, t)
  {
    if |lots| > 0 {
      var n := |lots| - 1;
      NextLevelIsGap(lots[..n], t, top);
      DearerDescends(lots[..n], t, NextLevel(lots, t, top));
    }
  }

  lemma {:induction false} DearerDescends(lots: seq<Lot>, t: real, t2: real)
    requires t <= t2
    ensures Dearer(lots, t2) <= Dearer(lots, t)
  {
    if |lots| > 0 {
      DearerDescends(lots[..|lots| - 1], t, t2);
    }
  }

  lemma LotAcrossGap(l: Lot, t: real, t2: real)
    requires t < t2 && (Live(l) && Priced(l) ==> UnitCost(l).value <= t || t2 <= UnitCost(l).value)
    ensures Excess(l, t) == Excess(l, t2) + Times(t2 - t, Counted(l, Above(t2)))
  {
    if Live(l) && Priced(l) {
      TimesAddsRates(UnitCost(l).value - t2, t2 - t, l.remaining.raw);
    }
  }

  /** Across a gap, the excess drops by the gap times the units above it. */
  lemma {:induction false} ExcessAcrossGap(lots: seq<Lot>, t: real, t2: real)
    requires t < t2 && Gap(lots, t, t2)
    ensures ExcessOf(lots, t) == ExcessOf(lots, t2) + Times(t2 - t, UnitsWhere(lots, Above(t2)))
  {
    if |lots| > 0 {
      var n := |lots| - 1;
      ExcessAcrossGap(lots[..n], t, t2);
      assert lots[n] in lots;
      LotAcrossGap(lots[n], t, t2);
      TimesAddsUnits(t2 - t, UnitsWhere(lots[..n], Above(t2)), Counted(lots[n], Above(t2)));
    }
  }

  lemma {:induction false} NoExcess(lots: seq<Lot>, t: real)
    requires Dearer(lots, t) == 0
    ensures ExcessOf(lots, t) == 0.0
  {
    if |lots| > 0 {
      NoExcess(lots[..|lots| - 1], t);
    }
  }

  /** Holding no more units above any unit cost means no more basis above any. */
  lemma {:induction false} FewerUnitsLessExcess(a: seq<Lot>, b: seq<Lot>, t: real, top: real)
    requires forall c: real :: UnitsWhere(a, Above(c)) <= UnitsWhere(b, Above(c))
    requires t < top && Dearer(a, top) == 0 && Dearer(b, top) == 0
    ensures ExcessOf(a, t) <= ExcessOf(b, t)
    decreases Dearer(a, t) + Dearer(b, t)
  {
    NextLevelIsGap(a, t, top);
    NextLevelIsGap(b, t, top);
    var ta, tb := NextLevel(a, t, top), NextLevel(b, t, top);
    var t2 := if ta < tb then ta else tb;
    DearerDescends(a, t, t2);
    DearerDescends(b, t, t2);
    ExcessAcrossGap(a, t, t2);
    ExcessAcrossGap(b, t, t2);
    TimesGrows(t2 - t, UnitsWhere(a, Above(t2)), UnitsWhere(b, Above(t2)));
    if t2 < top {
      FewerUnitsLessExcess(a, b, t2, top);
    } else {
      NoExcess(a, t2);
      NoExcess(b, t2);
    }
  }

  lemma LotAsExcess(l: Lot, floor: real)
    requires Exact(l) && Priced(l) && floor < UnitCost(l).value
    ensures BasisIn(l) == Excess(l, floor) + Times(floor, Counted(l, Any))
  {
    if Live(l) {
      UnitShare(l);
      TimesIsProduct(UnitCost(l).value, l.remaining.raw);
      TimesAddsRates(UnitCost(l).value - floor, floor, l.remaining.raw);
    }
  }

  /** Below every unit cost, the excess is the basis less the floor. */
  lemma {:induction false} BasisAsExcess(lots: seq<Lot>, floor: real)
    requires forall l :: l in lots ==> Exact(l) && Priced(l) && floor < UnitCost(l).value
    ensures BasisOf(lots) == ExcessOf(lots, floor) + Times(floor, UnitsHeld(lots))
  {
    if |lots| > 0 {
      var n := |lots| - 1;
      BasisAsExcess(lots[..n], floor);
      assert lots[n] in lots;
      LotAsExcess(lots[n], floor);
      TimesAddsUnits(floor, UnitsHeld(lots[..n]), Counted(lots[n], Any));
    }
  }

  lemma UnitShare(l: Lot)
    requires Exact(l) && Priced(l)
    ensures l.costRemaining.value == UnitCost(l).value * l.remaining.raw as real
  {
    RemainingOf(l);
    Commute(l.costTotal.value.amount, l.remaining.raw as real, l.original.raw as real);
  }

  lemma Commute(a: real, r: real, o: real)
    requires o != 0.0
    ensures a * r / o == (a / o) * r
  {
    assert (a / o) * o == a;
    assert ((a / o) * r) * o == a * r;
  }

  function Lowest(lots: seq<Lot>): real {
    if |lots| == 0 then 0.0
    else
      var rest := Lowest(lots[..|lots| - 1]);
      var c := UnitCost(lots[|lots| - 1]);
      if c.Some? && c.value - 1.0 < rest then c.value - 1.0 else rest
  }

  lemma {:induction false} LowestIsBelow(lots: seq<Lot>)
    ensures forall l :: l in lots && Priced(l) ==> Lowest(lots) < UnitCost(l).value
  {
    if |lots| > 0 {
      LowestIsBelow(lots[..|lots| - 1]);
    }
  }

  function Highest(lots: seq<Lot>): real {
    if |lots| == 0 then 0.0
    else
      var rest := Highest(lots[..|lots| - 1]);
      var c := UnitCost(lots[|lots| - 1]);
      if c.Some? && c.value > rest then c.value else rest
  }

  lemma {:induction false} NoneDearerThanHighest(lots: seq<Lot>, t: real)
    requires Highest(lots) <= t
    ensures Dearer(lots, t) == 0
  {
    if |lots| > 0 {
      NoneDearerThanHighest(lots[..|lots| - 1], t);
    }
  }

  /** `h` holds as many units as `o`, and no more of them at or above any unit
      cost. */
  ghost predicate Dominates(h: seq<Lot>, o: seq<Lot>) {
    && UnitsHeld(h) == UnitsHeld(o)
    && (forall c: real :: UnitsWhere(h, Above(c)) <= UnitsWhere(o, Above(c)))
  }

  ghost predicate AllPricedExact(lots: seq<Lot>) {
    forall l :: l in lots ==> Exact(l) && Priced(l)
  }

  lemma DominatingHoldsLessBasis(h: seq<Lot>, o: seq<Lot>)
    requires Dominates(h, o) && AllPricedExact(h) && AllPricedExact(o)
    ensures BasisOf(h) <= BasisOf(o)
  {
    LowestIsBelow(h);
    LowestIsBelow(o);
    var floor := if Lowest(h) < Lowest(o) then Lowest(h) else Lowest(o);
    BasisAsExcess(h, floor);
    BasisAsExcess(o, floor);
    var high := if Highest(h) > Highest(o) then Highest(h) else Highest(o);
    var top := if high > floor then high else floor + 1.0;
    NoneDearerThanHighest(h, top);
    NoneDearerThanHighest(o, top);
    FewerUnitsLessExcess(h, o, floor, top);
  }

  // --------------------------------------------------- one disposal

  /** Dearest-first drains every class of dear lots before touching the rest. */
  lemma DearestFirstDrainsAbove(lots: seq<Lot>, c: real)
    requires forall l :: l in lots ==> Priced(l)
    ensures DrainedFirst(lots, OrderOf(Hifo, lots), Above(c))
  {
    OrderIsSorted(Hifo, lots);
  }

  /** HIFO's disposal takes as much as it can from every class of dear lots. */
  lemma HifoTakesDearest(lots: seq<Lot>, needed: Quantity, c: real)
    requires (forall l :: l in lots ==> Priced(l)) && AtScale(lots, needed.decimals) && needed.raw > 0
    ensures Select(Hifo)(lots, needed).Ok?
    ensures TakenWhere(lots, Select(Hifo)(lots, needed).value, Above(c))
         == Min(needed.raw, UnitsWhere(lots, Above(c)))
  {
    var order := OrderOf(Hifo, lots);
    DearestFirstDrainsAbove(lots, c);
    WalkTakesRun(lots, order, needed);
    WalkTakesFirst(lots, order, needed, Above(c));
    OrderCoversUnits(Hifo, lots, Above(c));
  }

  /** The open lots of a sound ledger, as the disposal lemmas want them. */
  lemma SoundOpenLots(l: Ledger, needed: Quantity)
    requires Sound(l) && !WrongScale(l.book, needed)
    ensures AllExact(OpenLots(l.lots)) && AtScale(OpenLots(l.lots), needed.decimals)
    ensures forall lot :: lot in OpenLots(l.lots) ==> lot in l.lots
    ensures Current(OpenLots(l.lots), Budgets(OpenLots(l.lots)))
  {
    var open := OpenLots(l.lots);
    Refinement.OpenLotsAreLive(l.lots);
    forall k | 0 <= k < |open|
      ensures Exact(open[k]) && open[k].remaining.decimals == needed.decimals
    {
      assert open[k] in open;
    }
  }

  /** What HIFO's disposal of the handed lots leaves at or above `c`. */
  lemma HifoDrainLeaves(open: seq<Lot>, needed: Quantity, c: real)
    requires AllExact(open) && AtScale(open, needed.decimals) && Current(open, Budgets(open)) && needed.raw > 0
    requires forall lot :: lot in open ==> Priced(lot)
    ensures Select(Hifo)(open, needed).Ok?
    ensures UnitsWhere(Drain(open, Select(Hifo)(open, needed).value), Above(c))
         == UnitsWhere(open, Above(c)) - Min(needed.raw, UnitsWhere(open, Above(c)))
  {
    hide Select, CheckFull, Drain, Budgets, AllExact, UnitsWhere;
    PlanPassesFull(Hifo, open, needed);
    HifoTakesDearest(open, needed, c);
    AboveIsDrawFree(c);
    DrainTakes(open, Budgets(open), Select(Hifo)(open, needed).value, needed, 0, Above(c));
  }

  lemma CurrentIsOverHeld(open: seq<Lot>, budgets: map<LotRef, int>)
    requires Current(open, budgets)
    ensures OverHeld(open, budgets)
  {
  }

  /** What any validated plan leaves at or above `c`. */
  lemma AnyDrainLeaves(open: seq<Lot>, plan: seq<Pick>, needed: Quantity, c: real)
    requires AllExact(open) && Current(open, Budgets(open)) && CheckFull(Budgets(open), plan, needed, 0).Ok?
    ensures UnitsWhere(Drain(open, plan), Above(c))
         >= UnitsWhere(open, Above(c)) - CheckFull(Budgets(open), plan, needed, 0).value
  {
    hide CheckFull, Drain, Budgets, AllExact, UnitsWhere, Current, TakenWhere;
    CurrentIsOverHeld(open, Budgets(open));
    AboveIsDrawFree(c);
    DrainTakes(open, Budgets(open), plan, needed, 0, Above(c));
    CheckedTotal(open, Budgets(open), plan, needed, 0, Above(c));
  }

  /** What HIFO's disposal leaves at or above `c`. */
  lemma HifoLeaves(l: Ledger, needed: Quantity, c: real)
    requires Sound(l) && !WrongScale(l.book, needed) && needed.raw > 0
    requires forall lot :: lot in l.lots ==> Priced(lot)
    ensures Consume(Full, l, needed, Select(Hifo)).outcome.Ok?
    ensures UnitsWhere(Consume(Full, l, needed, Select(Hifo)).ledger.lots, Above(c))
         == UnitsWhere(l.lots, Above(c)) - Min(needed.raw, UnitsWhere(l.lots, Above(c)))
  {
    hide Select, Drain, UnitsWhere, Pieces;
    var open := OpenLots(l.lots);
    SoundOpenLots(l, needed);
    PlanPassesFull(Hifo, open, needed);
    HifoDrainLeaves(open, needed, c);
    OpenKeepsTotals(l.lots, Above(c));
    WriteBackTotals(l.lots, Drain(open, Select(Hifo)(open, needed).value), Above(c));
  }

  /** What any valid disposal leaves at or above `c`. */
  lemma AnyLeaves(l: Ledger, needed: Quantity, selector: Selector, c: real)
    requires Sound(l) && !WrongScale(l.book, needed)
    requires Consume(Full, l, needed, selector).outcome.Ok?
    ensures UnitsWhere(Consume(Full, l, needed, selector).ledger.lots, Above(c))
         >= UnitsWhere(l.lots, Above(c)) - (needed.raw - Consume(Full, l, needed, selector).outcome.value.shortfall.raw)
  {
    hide Drain, UnitsWhere, Pieces;
    var open := OpenLots(l.lots);
    SoundOpenLots(l, needed);
    var plan := selector(open, needed).value;
    AnyDrainLeaves(open, plan, needed, c);
    OpenKeepsTotals(l.lots, Above(c));
    WriteBackTotals(l.lots, Drain(open, plan), Above(c));
  }

  // ------------------------------------------------------- whole streams

  /** A costing decision taken in advance: this plan, whatever is handed over. */
  function Fixed(plan: seq<Pick>): Selector {
    (lots: seq<Lot>, needed: Quantity) => Ok(plan)
  }

  /** A stream in which every disposal executes a plan of the caller's choice. */
  function RunPlans(l: Ledger, events: seq<Event>, plans: seq<seq<Pick>>): (Ledger, seq<Outcome>)
    requires |plans| == |events|
    decreases |events|
  {
    if events == [] then (l, [])
    else
      var (l', first) := Step(Full, l, events[0], Fixed(plans[0]));
      var (l'', rest) := RunPlans(l', events[1..], plans[1..]);
      (l'', [first] + rest)
  }

  /** The call succeeded, and a disposal covered all the units it could. */
  predicate Covered(l: Ledger, e: Event, o: Outcome) {
    && !o.Failed?
    && (o.Disposed? ==> o.consumed.shortfall.raw == e.quantity.raw - Min(e.quantity.raw, UnitsHeld(l.lots)))
  }

  /** Every plan of the run is valid and covers `min(needed, held)`. */
  predicate ValidPlans(l: Ledger, events: seq<Event>, plans: seq<seq<Pick>>)
    requires |plans| == |events|
    decreases |events|
  {
    events == [] ||
    (var (l', o) := Step(Full, l, events[0], Fixed(plans[0]));
     Covered(l, events[0], o) && ValidPlans(l', events[1..], plans[1..]))
  }

  predicate FullyPriced(events: seq<Event>) {
    forall k | 0 <= k < |events| :: events[k].Acquisition? ==> events[k].cost.Some?
  }

  /** The ledgers the two runs are at after the same events. */
  ghost predicate Ahead(h: Ledger, o: Ledger) {
    && Sound(h) && Sound(o) && h.book == o.book
    && (forall lot :: lot in h.lots || lot in o.lots ==> Priced(lot))
    && Dominates(h.lots, o.lots)
  }

  lemma {:induction false} WriteBackPriced(lots: seq<Lot>, after: seq<Lot>)
    requires |after| == |OpenLots(lots)|
    requires forall lot :: lot in lots || lot in after ==> Priced(lot)
    ensures forall lot :: lot in WriteBack(lots, after) ==> Priced(lot)
  {
    if |lots| > 0 {
      var n := |lots| - 1;
      WriteBackPriced(lots[..n], if Live(lots[n]) then after[..|after| - 1] else after);
    }
  }

  lemma ConsumeKeepsPriced(l: Ledger, needed: Quantity, selector: Selector)
    requires forall lot :: lot in l.lots ==> Priced(lot)
    ensures forall lot :: lot in Consume(Full, l, needed, selector).ledger.lots ==> Priced(lot)
  {
    var open := OpenLots(l.lots);
    if Consume(Full, l, needed, selector).outcome.Ok? {
      Refinement.OpenLotsAreLive(l.lots);
      var plan := selector(open, needed).value;
      Refinement.DrainKeepsOrigin(open, plan);
      forall lot | lot in Drain(open, plan)
        ensures Priced(lot)
      {
        var k :| 0 <= k < |open| && Drain(open, plan)[k] == lot;
        assert open[k] in open;
      }
      WriteBackPriced(l.lots, Drain(open, plan));
    }
  }

  lemma AcquireStaysAhead(h: Ledger, o: Ledger, e: Event, s: Selector, t: Selector)
    requires Ahead(h, o) && e.Acquisition? && e.cost.Some? && OpenLot(o, e).Ok?
    ensures Ahead(Step(Full, h, e, s).0, Step(Full, o, e, t).0)
  {
    StepConserves(Full, h, e, s);
    StepConserves(Full, o, e, t);
    var lot := NewLot(h.book, e);
    assert (h.lots + [lot])[..|h.lots|] == h.lots;
    assert (o.lots + [lot])[..|o.lots|] == o.lots;
  }

  lemma DisposeStaysAhead(h: Ledger, o: Ledger, e: Event, plan: seq<Pick>)
    requires Ahead(h, o) && e.Disposal? && Covered(o, e, Step(Full, o, e, Fixed(plan)).1)
    ensures !Step(Full, h, e, Select(Hifo)).1.Failed?
    ensures Ahead(Step(Full, h, e, Select(Hifo)).0, Step(Full, o, e, Fixed(plan)).0)
  {
    StepConserves(Full, h, e, Select(Hifo));
    StepConserves(Full, o, e, Fixed(plan));
    HifoLeaves(h, e.quantity, 0.0);
    SelectionCovers(h, e);
    forall c: real
      ensures UnitsWhere(Step(Full, h, e, Select(Hifo)).0.lots, Above(c))
           <= UnitsWhere(Step(Full, o, e, Fixed(plan)).0.lots, Above(c))
    {
      HifoLeaves(h, e.quantity, c);
      AnyLeaves(o, e.quantity, Fixed(plan), c);
    }
    ConsumeKeepsPriced(h, e.quantity, Select(Hifo));
    ConsumeKeepsPriced(o, e.quantity, Fixed(plan));
  }

  lemma SelectionCovers(l: Ledger, e: Event)
    requires Sound(l) && e.Disposal? && !WrongScale(l.book, e.quantity)
    ensures Covered(l, e, Step(Full, l, e, Select(Hifo)).1)
  {
    var open := OpenLots(l.lots);
    SoundOpenLots(l, e.quantity);
    OpenKeepsTotals(l.lots, Any);
    ConsumeNeverRaises(Hifo, Full, l, e.quantity);
  }

  /** HIFO stays ahead of any sequence of valid plans, event by event. */
  lemma {:induction false} HifoStaysAhead(h: Ledger, o: Ledger, events: seq<Event>, plans: seq<seq<Pick>>)
    requires Ahead(h, o) && FullyPriced(events)
    requires |plans| == |events| && ValidPlans(o, events, plans)
    ensures Ahead(Run(Full, h, events, Select(Hifo)).0, RunPlans(o, events, plans).0)
    decreases |events|
  {
    if events != [] {
      if events[0].Acquisition? {
        AcquireStaysAhead(h, o, events[0], Select(Hifo), Fixed(plans[0]));
      } else {
        DisposeStaysAhead(h, o, events[0], plans[0]);
      }
      HifoStaysAhead(Step(Full, h, events[0], Select(Hifo)).0, Step(Full, o, events[0], Fixed(plans[0])).0,
                     events[1..], plans[1..]);
    }
  }

  lemma {:induction false} RunPlansConserves(l: Ledger, events: seq<Event>, plans: seq<seq<Pick>>)
    requires Sound(l) && |plans| == |events|
    ensures |RunPlans(l, events, plans).1| == |events|
    ensures var (l', outcomes) := RunPlans(l, events, plans);
      Sound(l') && BasisOf(l'.lots) == BasisOf(l.lots) + TotalCostIn(outcomes) - TotalCostOut(outcomes)
    decreases |events|
  {
    if events != [] {
      StepConserves(Full, l, events[0], Fixed(plans[0]));
      RunPlansConserves(Step(Full, l, events[0], Fixed(plans[0])).0, events[1..], plans[1..]);
    }
  }

  /** Both runs acquire the same cost, as both ledgers keep the same book. */
  lemma {:induction false} SameCostAcquired(h: Ledger, o: Ledger, events: seq<Event>, plans: seq<seq<Pick>>)
    requires h.book == o.book && |plans| == |events|
    ensures TotalCostIn(Run(Full, h, events, Select(Hifo)).1) == TotalCostIn(RunPlans(o, events, plans).1)
    decreases |events|
  {
    if events != [] {
      SameCostAcquired(Step(Full, h, events[0], Select(Hifo)).0, Step(Full, o, events[0], Fixed(plans[0])).0,
                       events[1..], plans[1..]);
    }
  }

  /** On an all-priced stream HIFO has consumed, after the stream and so after
      each of its prefixes, at least the basis that any sequence of valid plans
      covering the same units has: with the same proceeds, the least gain. */
  lemma HifoMinimisesRealisedGain(assetId: string, events: seq<Event>, plans: seq<seq<Pick>>)
    requires FullyPriced(events)
    requires |plans| == |events| && ValidPlans(EmptyLedger(assetId), events, plans)
    ensures TotalCostOut(RunPlans(EmptyLedger(assetId), events, plans).1)
         <= TotalCostOut(Run(Full, EmptyLedger(assetId), events, Select(Hifo)).1)
  {
    var l := EmptyLedger(assetId);
    HifoStaysAhead(l, l, events, plans);
    RunConserves(Full, l, events, Select(Hifo));
    RunPlansConserves(l, events, plans);
    SameCostAcquired(l, l, events, plans);
    DominatingHoldsLessBasis(Run(Full, l, events, Select(Hifo)).0.lots, RunPlans(l, events, plans).0.lots);
  }
}
