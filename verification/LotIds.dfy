/** What an opened lot carries, and why no two are named alike (accounting/lots.py). */
module LotIds {
  import opened Common
  import opened Lots

  /** An accepted acquisition opens one lot at its own time, for its own units and cost, all of
      both still there. */
  lemma OpenedLotIs(l: Ledger, e: Event)
    requires e.Acquisition? && OpenLot(l, e).Ok?
    ensures var lots := OpenLot(l, e).value.lots;
      && |lots| == |l.lots| + 1 && lots[..|l.lots|] == l.lots
      && var lot := lots[|l.lots|];
      && lot.openedAtMs == e.atMs && lot.assetId == e.assetId && lot.sourceTxId == e.sourceTxId
      && lot.original == lot.remaining == e.quantity
      && lot.costTotal == e.cost && (lot.costRemaining.Some? <==> e.cost.Some?)
      && (e.cost.Some? ==> lot.costRemaining.value == e.cost.value.amount)
      && lot.lotId.sourceTxId == e.sourceTxId && lot.lotId.assetId == e.assetId
  {
  }

  lemma StepKeepsAsset(kind: Kind, l: Ledger, e: Event, selector: Selector)
    ensures Step(kind, l, e, selector).0.book.assetId == l.book.assetId
  {
  }

  /** The counters only grow, and an opened lot gets its transaction's. */
  lemma StepCounts(kind: Kind, l: Ledger, e: Event, selector: Selector, tx: string)
    ensures var (l', outcome) := Step(kind, l, e, selector);
      && NextSeq(l'.book, tx)
         == NextSeq(l.book, tx) + (if outcome.Opened? && outcome.lot.lotId.sourceTxId == tx then 1 else 0)
      && (outcome.Opened? ==>
            && outcome.lot.lotId.ordinal == NextSeq(l.book, outcome.lot.lotId.sourceTxId)
            && outcome.lot.lotId.assetId == l.book.assetId)
  {
  }

  lemma {:induction false} LaterIds(kind: Kind, l: Ledger, events: seq<Event>, selector: Selector, k: nat)
    requires k < |Run(kind, l, events, selector).1| && Run(kind, l, events, selector).1[k].Opened?
    ensures var id := Run(kind, l, events, selector).1[k].lot.lotId;
      id.assetId == l.book.assetId && id.ordinal >= NextSeq(l.book, id.sourceTxId)
    decreases |events|
  {
    hide Step, NextSeq;
    var (l', first) := Step(kind, l, events[0], selector);
    StepKeepsAsset(kind, l, events[0], selector);
    var id := Run(kind, l, events, selector).1[k].lot.lotId;
    StepCounts(kind, l, events[0], selector, id.sourceTxId);
    if k > 0 {
      LaterIds(kind, l', events[1..], selector, k - 1);
    }
  }

  /** Over any stream, past every refused call and every lot dropped when it was spent, no id is
      given out twice. */
  lemma {:induction false} IdsAreDistinct(kind: Kind, l: Ledger, events: seq<Event>, selector: Selector, j: nat, k: nat)
    requires j < k < |Run(kind, l, events, selector).1|
    requires Run(kind, l, events, selector).1[j].Opened? && Run(kind, l, events, selector).1[k].Opened?
    ensures Run(kind, l, events, selector).1[j].lot.lotId != Run(kind, l, events, selector).1[k].lot.lotId
    decreases |events|
  {
    hide Step, NextSeq;
    var (l', first) := Step(kind, l, events[0], selector);
    var outcomes := Run(kind, l, events, selector).1;
    if j == 0 {
      StepCounts(kind, l, events[0], selector, outcomes[0].lot.lotId.sourceTxId);
      LaterIds(kind, l', events[1..], selector, k - 1);
    } else {
      IdsAreDistinct(kind, l', events[1..], selector, j - 1, k - 1);
    }
  }

  // ----------------------------------------------------- one scale, one currency

  /** An acquisition is refused exactly for another asset, another scale than the ledger's, or
      a cost in another currency than the ledger's costs, and for the first of these. */
  lemma OpenRefusedIff(l: Ledger, e: Event)
    requires e.Acquisition?
    ensures OpenLot(l, e).Err? <==>
      || e.assetId != l.book.assetId
      || (l.book.decimals.Some? && l.book.decimals.value != e.quantity.decimals)
      || (e.cost.Some? && l.book.currency.Some? && l.book.currency.value != e.cost.value.currency)
    ensures OpenLot(l, e) == Err(ValidationError) <==> e.assetId != l.book.assetId
    ensures OpenLot(l, e) == Err(DecimalsMismatchError) <==>
      e.assetId == l.book.assetId && l.book.decimals.Some? && l.book.decimals.value != e.quantity.decimals
    ensures OpenLot(l, e).Err? ==>
      OpenLot(l, e).error in {ValidationError, DecimalsMismatchError, CurrencyMismatchError}
  {
  }

  /** A ledger's scale and currency are settled once, by the first lot that has one. */
  lemma StepSettles(kind: Kind, l: Ledger, e: Event, selector: Selector)
    ensures var (l', outcome) := Step(kind, l, e, selector);
      && (l.book.decimals.Some? ==> l'.book.decimals == l.book.decimals)
      && (l.book.currency.Some? ==> l'.book.currency == l.book.currency)
      && (outcome.Opened? ==>
            && l'.book.decimals == Some(outcome.lot.original.decimals)
            && (outcome.lot.costTotal.Some? ==> l'.book.currency == Some(outcome.lot.costTotal.value.currency)))
  {
  }

  lemma {:induction false} LaterAlike(kind: Kind, l: Ledger, events: seq<Event>, selector: Selector, k: nat)
    requires k < |Run(kind, l, events, selector).1| && Run(kind, l, events, selector).1[k].Opened?
    ensures var lot := Run(kind, l, events, selector).1[k].lot;
      && (l.book.decimals.Some? ==> lot.original.decimals == l.book.decimals.value)
      && (l.book.currency.Some? && lot.costTotal.Some? ==> lot.costTotal.value.currency == l.book.currency.value)
    decreases |events|
  {
    hide Step;
    StepSettles(kind, l, events[0], selector);
    if k > 0 {
      LaterAlike(kind, Step(kind, l, events[0], selector).0, events[1..], selector, k - 1);
    }
  }

  /** Over any stream, all lots a ledger ever opens are of one scale, and all their costs in one
      currency. */
  lemma {:induction false} LotsAreAlike(kind: Kind, l: Ledger, events: seq<Event>, selector: Selector, j: nat, k: nat)
    requires j < k < |Run(kind, l, events, selector).1|
    requires Run(kind, l, events, selector).1[j].Opened? && Run(kind, l, events, selector).1[k].Opened?
    ensures var (a, b) := (Run(kind, l, events, selector).1[j].lot, Run(kind, l, events, selector).1[k].lot);
      && a.original.decimals == b.original.decimals
      && (a.costTotal.Some? && b.costTotal.Some? ==> a.costTotal.value.currency == b.costTotal.value.currency)
    decreases |events|
  {
    hide Step;
    var l' := Step(kind, l, events[0], selector).0;
    if j == 0 {
      StepSettles(kind, l, events[0], selector);
      LaterAlike(kind, l', events[1..], selector, k - 1);
    } else {
      LotsAreAlike(kind, l', events[1..], selector, j - 1, k - 1);
    }
  }
}
