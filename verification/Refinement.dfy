/** The pruning ledger of the replay engine refines the plain one. */
module Refinement {
  import opened Common
  import opened Lots

  /** The plan names only lots it was handed. */
  ghost predicate PlansHeld(open: seq<Lot>, plan: seq<Pick>) {
    forall k | 0 <= k < |plan| :: plan[k].lot.Held? && plan[k].lot.at < |open|
  }

  /** The selector plans only over the lots it is handed. */
  ghost predicate PlansOverHanded(selector: Selector) {
    forall open: seq<Lot>, needed: Quantity ::
      selector(open, needed).Ok? ==> PlansHeld(open, selector(open, needed).value)
  }

  /** Every open lot is of the ledger's asset. */
  ghost predicate OneAsset(l: Ledger) {
    forall lot :: lot in OpenLots(l.lots) ==> lot.assetId == l.book.assetId
  }

  /** Same open lots, same counters, same scale and currency; the history of
      spent lots may differ. */
  ghost predicate Refines(full: Ledger, pruned: Ledger) {
    && full.book == pruned.book
    && OpenLots(full.lots) == OpenLots(pruned.lots)
    && OneAsset(full)
  }

  lemma {:induction false} OpenLotsAreLive(lots: seq<Lot>)
    ensures forall l :: l in OpenLots(lots) ==> l in lots && Live(l)
  {
    if |lots| > 0 {
      OpenLotsAreLive(lots[..|lots| - 1]);
    }
  }

  lemma {:induction false} OpenLotsOfOpen(lots: seq<Lot>)
    requires forall l :: l in lots ==> Live(l)
    ensures OpenLots(lots) == lots
  {
    if |lots| > 0 {
      OpenLotsOfOpen(lots[..|lots| - 1]);
    }
  }

  /** Writing the drained lots back leaves the same lots open as keeping only
      the drained lots. */
  lemma {:induction false} WriteBackOpens(lots: seq<Lot>, after: seq<Lot>)
    requires |after| == |OpenLots(lots)|
    ensures OpenLots(WriteBack(lots, after)) == OpenLots(after)
  {
    if |lots| > 0 {
      var last := lots[|lots| - 1];
      if Live(last) {
        WriteBackOpens(lots[..|lots| - 1], after[..|after| - 1]);
        assert WriteBack(lots, after)[..|lots| - 1] == WriteBack(lots[..|lots| - 1], after[..|after| - 1]);
      } else {
        WriteBackOpens(lots[..|lots| - 1], after);
        assert WriteBack(lots, after)[..|lots| - 1] == WriteBack(lots[..|lots| - 1], after);
      }
    }
  }

  /** The facts of a lot that no disposal changes. */
  predicate SameOrigin(a: Lot, b: Lot) {
    && a.lotId == b.lotId && a.openedAtMs == b.openedAtMs && a.assetId == b.assetId
    && a.original == b.original && a.costTotal == b.costTotal && a.sourceTxId == b.sourceTxId
    && a.remaining.decimals == b.remaining.decimals
  }

  lemma {:induction false} DrainKeepsOrigin(open: seq<Lot>, plan: seq<Pick>)
    ensures forall k | 0 <= k < |open| :: SameOrigin(Drain(open, plan)[k], open[k])
    decreases |plan|
  {
    if plan != [] {
      var p := plan[0];
      if p.lot.Held? && p.lot.at < |open| {
        DrainKeepsOrigin(open[p.lot.at := Drawn(open[p.lot.at], p.take.raw)], plan[1..]);
      } else {
        DrainKeepsOrigin(open, plan[1..]);
      }
    }
  }

  /** The eager budgets of the one check and the lazy ones of the other agree
      on every lot that was handed out. */
  ghost predicate SameBudgets(open: seq<Lot>, eager: map<LotRef, int>, lazy: map<LotRef, int>) {
    forall k: nat | k < |open| ::
      && Held(k) in eager
      && eager[Held(k)] == if Held(k) in lazy then lazy[Held(k)] else open[k].remaining.raw
  }

  lemma {:induction false} ChecksAgree(assetId: string, open: seq<Lot>, eager: map<LotRef, int>,
                                       lazy: map<LotRef, int>, plan: seq<Pick>, needed: Quantity, total: int)
    requires forall k | 0 <= k < |open| :: open[k].assetId == assetId && Live(open[k])
    requires PlansHeld(open, plan)
    requires SameBudgets(open, eager, lazy)
    ensures CheckFull(eager, plan, needed, total) == CheckPruning(assetId, open, lazy, plan, needed, total)
    decreases |plan|
  {
    if plan != [] {
      var p := plan[0];
      assert Held(p.lot.at) == p.lot;
      if p.take.decimals == needed.decimals && 0 < p.take.raw <= eager[p.lot] {
        ChecksAgree(assetId, open, eager[p.lot := eager[p.lot] - p.take.raw],
                    lazy[p.lot := eager[p.lot] - p.take.raw], plan[1..], needed, total + p.take.raw);
      }
    }
  }

  lemma ExecuteAgrees(l: Ledger, needed: Quantity, selector: Selector)
    requires OneAsset(l) && PlansOverHanded(selector)
    ensures Execute(Full, l.book, OpenLots(l.lots), needed, selector)
         == Execute(Pruning, l.book, OpenLots(l.lots), needed, selector)
  {
    var open := OpenLots(l.lots);
    OpenLotsAreLive(l.lots);
    if selector(open, needed).Ok? {
      assert SameBudgets(open, Budgets(open), map[]);
      ChecksAgree(l.book.assetId, open, Budgets(open), map[], selector(open, needed).value, needed, 0);
    }
  }

  lemma ConsumeRefines(full: Ledger, pruned: Ledger, needed: Quantity, selector: Selector)
    requires Refines(full, pruned) && PlansOverHanded(selector)
    ensures Consume(Full, full, needed, selector).outcome == Consume(Pruning, pruned, needed, selector).outcome
    ensures Refines(Consume(Full, full, needed, selector).ledger, Consume(Pruning, pruned, needed, selector).ledger)
  {
    ExecuteAgrees(full, needed, selector);
    var open := OpenLots(full.lots);
    var x := Execute(Full, full.book, open, needed, selector);
    OpenLotsAreLive(full.lots);
    OpenLotsOfOpen(open);
    if x.Ok? {
      WriteBackOpens(full.lots, x.value.after);
      DrainKeepsOrigin(open, selector(open, needed).value);
      OpenLotsAreLive(x.value.after);
    }
  }

  lemma OpenLotsAppend(lots: seq<Lot>, lot: Lot)
    ensures OpenLots(lots + [lot]) == if Live(lot) then OpenLots(lots) + [lot] else OpenLots(lots)
  {
    assert (lots + [lot])[..|lots|] == lots;
  }

  lemma OpenLotKeepsAsset(l: Ledger, e: Event)
    requires OneAsset(l) && e.Acquisition? && OpenLot(l, e).Ok?
    ensures OneAsset(OpenLot(l, e).value)
    ensures OpenLots(OpenLot(l, e).value.lots) == OpenLots(l.lots) + [NewLot(l.book, e)]
  {
    OpenLotsAppend(l.lots, NewLot(l.book, e));
  }

  lemma OpenLotRefines(full: Ledger, pruned: Ledger, e: Event, selector: Selector)
    requires Refines(full, pruned) && e.Acquisition?
    ensures Step(Full, full, e, selector).1 == Step(Pruning, pruned, e, selector).1
    ensures Refines(Step(Full, full, e, selector).0, Step(Pruning, pruned, e, selector).0)
  {
    if OpenLot(full, e).Ok? {
      OpenLotKeepsAsset(full, e);
      OpenLotKeepsAsset(pruned, e);
    }
  }

  /** Over any stream, continued past every refused call, both ledgers answer
      every call identically: lot ids, consumed pieces, shortfalls, errors. */
  lemma {:induction false} ReplayLedgerRefinesLotLedger(full: Ledger, pruned: Ledger, events: seq<Event>,
      selector: Selector)
    requires Refines(full, pruned) && PlansOverHanded(selector)
    ensures Run(Full, full, events, selector).1 == Run(Pruning, pruned, events, selector).1
    ensures Refines(Run(Full, full, events, selector).0, Run(Pruning, pruned, events, selector).0)
    decreases |events|
  {
    if events != [] {
      if events[0].Acquisition? {
        OpenLotRefines(full, pruned, events[0], selector);
      } else {
        ConsumeRefines(full, pruned, events[0].quantity, selector);
      }
      ReplayLedgerRefinesLotLedger(Step(Full, full, events[0], selector).0,
                                   Step(Pruning, pruned, events[0], selector).0, events[1..], selector);
    }
  }

  // ------------------------------------------------ plans over other lots

  ghost predicate OnlyHanded(open: seq<Lot>, budgets: map<LotRef, int>) {
    forall r :: r in budgets ==> r.Held? && r.at < |open|
  }

  /** On any plan at all, the plain ledger accepts exactly what the pruning one accepts
      and that names only lots it handed out; and then with the same total. */
  lemma {:induction false} FullAcceptsIff(assetId: string, open: seq<Lot>, eager: map<LotRef, int>,
                                          lazy: map<LotRef, int>, plan: seq<Pick>, needed: Quantity, total: int)
    requires forall k | 0 <= k < |open| :: open[k].assetId == assetId && Live(open[k])
    requires SameBudgets(open, eager, lazy) && OnlyHanded(open, eager)
    ensures CheckFull(eager, plan, needed, total).Ok?
      <==> CheckPruning(assetId, open, lazy, plan, needed, total).Ok? && PlansHeld(open, plan)
    ensures CheckFull(eager, plan, needed, total).Ok? ==>
      CheckFull(eager, plan, needed, total) == CheckPruning(assetId, open, lazy, plan, needed, total)
    decreases |plan|
  {
    if plan != [] {
      var p, rest := plan[0], plan[1..];
      if p.lot.Held? && p.lot.at < |open| {
        assert Held(p.lot.at) == p.lot;
        assert PlansHeld(open, plan) <==> PlansHeld(open, rest) by {
          assert forall k | 0 <= k < |rest| :: rest[k] == plan[k + 1];
        }
        if p.take.decimals == needed.decimals && 0 < p.take.raw <= eager[p.lot] {
          FullAcceptsIff(assetId, open, eager[p.lot := eager[p.lot] - p.take.raw],
                         lazy[p.lot := eager[p.lot] - p.take.raw], rest, needed, total + p.take.raw);
        }
      }
    }
  }

  /** So the two validations part on acceptance exactly on the plans the pruning ledger
      accepts over a lot it did not hand out. */
  lemma AcceptanceDivergesIff(assetId: string, open: seq<Lot>, plan: seq<Pick>, needed: Quantity)
    requires forall k | 0 <= k < |open| :: open[k].assetId == assetId && Live(open[k])
    ensures Check(Full, assetId, open, plan, needed).Ok?
      <==> Check(Pruning, assetId, open, plan, needed).Ok? && PlansHeld(open, plan)
  {
    assert SameBudgets(open, Budgets(open), map[]);
    FullAcceptsIff(assetId, open, Budgets(open), map[], plan, needed, 0);
  }

  /** One pick of an object the ledger does not hold, whatever is needed: always refused
      as invalid by the plain ledger, and answered otherwise by the pruning one exactly
      when the object is a live lot of its asset and the take is at another scale or
      within both the lot and the need. */
  lemma ForeignLotDiverges(assetId: string, open: seq<Lot>, lot: Lot, take: Quantity, needed: Quantity)
    ensures var plan := [Pick(Foreign(lot), take)];
      && Check(Full, assetId, open, plan, needed) == Err(ValidationError)
      && (Check(Pruning, assetId, open, plan, needed).Ok? <==>
            && lot.assetId == assetId && take.decimals == needed.decimals
            && 0 < take.raw <= Min(lot.remaining.raw, needed.raw))
      && (Check(Pruning, assetId, open, plan, needed) != Check(Full, assetId, open, plan, needed) <==>
            && lot.assetId == assetId && Live(lot)
            && (take.decimals != needed.decimals || 0 < take.raw <= Min(lot.remaining.raw, needed.raw)))
  {
    var plan := [Pick(Foreign(lot), take)];
    assert plan[1..] == [];
    assert CheckPruning(assetId, open, map[Foreign(lot) := lot.remaining.raw - take.raw], [], needed, take.raw)
        == if take.raw > needed.raw then Err(ValidationError) else Ok(take.raw);
  }

  /** One pick of a spent lot is refused by both, and for another reason exactly when the
      take is at another scale. */
  lemma SpentLotDiverges(assetId: string, open: seq<Lot>, lotId: LotId, take: Quantity, needed: Quantity)
    ensures var plan := [Pick(Spent(lotId), take)];
      && Check(Pruning, assetId, open, plan, needed) == Err(ValidationError)
      && Check(Full, assetId, open, plan, needed)
         == Err(if take.decimals != needed.decimals then DecimalsMismatchError else ValidationError)
  {
    var plan := [Pick(Spent(lotId), take)];
    assert Spent(lotId) !in Budgets(open);
    assert plan[0].lot == Spent(lotId);
  }

  /** A plan of one unit of a lot of two that nobody handed out, for a need of two. */
  lemma ForeignLotAccepted()
    ensures var lot := Lot(LotId("t", "eth", 0), 0, "eth", Quantity(2, 18), Quantity(2, 18), None, None, "t");
      var plan := [Pick(Foreign(lot), Quantity(1, 18))];
      && Check(Full, "eth", [], plan, Quantity(2, 18)) == Err(ValidationError)
      && Check(Pruning, "eth", [], plan, Quantity(2, 18)) == Ok(1)
  {
    var lot := Lot(LotId("t", "eth", 0), 0, "eth", Quantity(2, 18), Quantity(2, 18), None, None, "t");
    ForeignLotDiverges("eth", [], lot, Quantity(1, 18), Quantity(2, 18));
    var plan := [Pick(Foreign(lot), Quantity(1, 18))];
    assert plan[1..] == [];
    assert CheckPruning("eth", [], map[Foreign(lot) := 1], [], Quantity(2, 18), 1) == Ok(1);
  }
}
