/** The mutable lot ledger: lot objects decremented in place
    (accounting/lots.py, and the `_plan` override in accounting/pnl.py). */
module LotLedgers {
  import opened Common
  import opened Lots

  /** One acquisition's surviving units and basis. */
  class MutableLot {
    const origin: Lot
    var remaining: Quantity
    var costRemaining: Option<real>

    constructor (l: Lot)
      ensures View() == l
    {
      origin := l;
      remaining := l.remaining;
      costRemaining := l.costRemaining;
    }

    function View(): Lot
      reads this
    {
      origin.(remaining := remaining, costRemaining := costRemaining)
    }

    /** `quantity_remaining -= take; cost_remaining -= portion`. */
    method Draw(take: Quantity) returns (portion: Option<real>)
      modifies this
      ensures View() == Drawn(old(View()), take.raw)
      ensures portion == Portion(old(View()), take.raw)
    {
      portion := Portion(View(), take.raw);
      if portion.Some? {
        costRemaining := Some(costRemaining.value - portion.value);
      }
      remaining := remaining.(raw := remaining.raw - take.raw);
    }
  }

  function Views(lots: seq<MutableLot>): (views: seq<Lot>)
    reads lots
    ensures |views| == |lots|
    ensures forall k | 0 <= k < |lots| :: views[k] == lots[k].View()
  {
    if |lots| == 0 then [] else Views(lots[..|lots| - 1]) + [lots[|lots| - 1].View()]
  }

  /** The positions of the live lots. */
  function LiveAt(lots: seq<Lot>): (idx: seq<nat>)
    ensures forall k | 0 <= k < |idx| :: idx[k] < |lots|
  {
    if |lots| == 0 then []
    else
      var n := |lots| - 1;
      if Live(lots[n]) then LiveAt(lots[..n]) + [n] else LiveAt(lots[..n])
  }

  lemma {:induction false} LiveAtIsOpen(lots: seq<Lot>)
    ensures |LiveAt(lots)| == |OpenLots(lots)|
    ensures forall k | 0 <= k < |LiveAt(lots)| :: OpenLots(lots)[k] == lots[LiveAt(lots)[k]]
    ensures forall a, b | 0 <= a < b < |LiveAt(lots)| :: LiveAt(lots)[a] < LiveAt(lots)[b]
  {
    if |lots| > 0 {
      LiveAtIsOpen(lots[..|lots| - 1]);
    }
  }

  lemma LiveAtStep(lots: seq<Lot>)
    requires lots != []
    ensures var n := |lots| - 1;
      && LiveAt(lots) == LiveAt(lots[..n]) + (if Live(lots[n]) then [n] else [])
      && |OpenLots(lots)| == |OpenLots(lots[..n])| + (if Live(lots[n]) then 1 else 0)
  {
  }

  lemma WriteBackStep(before: seq<Lot>, after: seq<Lot>)
    requires before != [] && |after| == |OpenLots(before)|
    ensures var n := |before| - 1;
      if Live(before[n]) then
        after != [] && |after| - 1 == |OpenLots(before[..n])|
        && WriteBack(before, after) == WriteBack(before[..n], after[..|after| - 1]) + [after[|after| - 1]]
      else |after| == |OpenLots(before[..n])| && WriteBack(before, after) == WriteBack(before[..n], after) + [before[n]]
  {
  }

  /** Drawing the open lots in place is writing the drained lots back. */
  lemma {:induction false} InPlaceIsWriteBack(before: seq<Lot>, after: seq<Lot>, now: seq<Lot>)
    requires |after| == |OpenLots(before)| == |LiveAt(before)| && |now| == |before|
    requires forall k | 0 <= k < |after| :: now[LiveAt(before)[k]] == after[k]
    requires forall i | 0 <= i < |before| && !Live(before[i]) :: now[i] == before[i]
    ensures now == WriteBack(before, after)
  {
    hide LiveAt, OpenLots, WriteBack, Live;
    if |before| > 0 {
      var n := |before| - 1;
      var init, idx := before[..n], LiveAt(before[..n]);
      LiveAtStep(before);
      WriteBackStep(before, after);
      var rest := if Live(before[n]) then after[..|after| - 1] else after;
      forall k | 0 <= k < |idx|
        ensures now[..n][idx[k]] == rest[k]
      {
        assert LiveAt(before)[k] == idx[k];
      }
      InPlaceIsWriteBack(init, rest, now[..n]);
      if Live(before[n]) {
        assert LiveAt(before)[|idx|] == n;
      }
      assert now == now[..n] + [now[n]];
    }
  }

  /** A list of lots that held `before` until only its open ones were drawn. */
  lemma OnlyOpenDrawn(before: seq<Lot>, lots: seq<MutableLot>, open: seq<MutableLot>)
    requires |before| == |lots| && |open| == |LiveAt(before)|
    requires forall k | 0 <= k < |open| :: open[k] == lots[LiveAt(before)[k]]
    requires forall i | 0 <= i < |lots| && !Live(before[i]) :: lots[i].View() == before[i]
    ensures |open| == |OpenLots(before)|
    ensures Views(lots) == WriteBack(before, Views(open))
  {
    LiveAtIsOpen(before);
    InPlaceIsWriteBack(before, Views(open), Views(lots));
  }

  lemma LiveByUnits(lot: MutableLot)
    ensures Live(lot.View()) <==> lot.remaining.raw > 0
  {
  }

  lemma {:induction false} LiveAtIsLive(lots: seq<Lot>)
    ensures forall k | 0 <= k < |LiveAt(lots)| :: Live(lots[LiveAt(lots)[k]])
  {
    if |lots| > 0 {
      LiveAtIsLive(lots[..|lots| - 1]);
    }
  }

  /** The lots at the live positions are the open lots, once each. */
  lemma HandedIsOpen(lots: seq<MutableLot>, open: seq<MutableLot>)
    requires forall a, b | 0 <= a < b < |lots| :: lots[a] != lots[b]
    requires |open| == |LiveAt(Views(lots))| && forall k | 0 <= k < |open| :: open[k] == lots[LiveAt(Views(lots))[k]]
    ensures Views(open) == OpenLots(Views(lots))
    ensures forall a, b | 0 <= a < b < |open| :: open[a] != open[b]
    ensures forall lot :: lot in open ==> lot in lots && Live(lot.View())
  {
    hide Live, OpenLots, LiveAt;
    var views := Views(lots);
    LiveAtIsOpen(views);
    LiveAtIsLive(views);
    assert Views(open) == OpenLots(views);
    forall a, b | 0 <= a < b < |open|
      ensures open[a] != open[b]
    {
      assert LiveAt(views)[a] < LiveAt(views)[b];
    }
    forall k | 0 <= k < |open|
      ensures open[k] in lots && Live(open[k].View())
    {
      assert views[LiveAt(views)[k]] == open[k].View();
    }
  }

  /** The handed lots after one pick, and the piece it yields. */
  function LotsAfter(open: seq<Lot>, p: Pick): seq<Lot> {
    if p.lot.Held? && p.lot.at < |open| then open[p.lot.at := Drawn(open[p.lot.at], p.take.raw)] else open
  }

  function PieceOf(open: seq<Lot>, p: Pick): seq<Piece> {
    match Deref(open, p.lot)
    case None => []
    case Some(l) => [Piece(l.lotId, p.take, Portion(l, p.take.raw))]
  }

  lemma PickByPick(open: seq<Lot>, plan: seq<Pick>)
    requires plan != []
    ensures Drain(open, plan) == Drain(LotsAfter(open, plan[0]), plan[1..])
    ensures Pieces(open, plan) == PieceOf(open, plan[0]) + Pieces(LotsAfter(open, plan[0]), plan[1..])
  {
    hide Drawn, Portion;
  }

  lemma NoPicks(open: seq<Lot>)
    ensures Drain(open, []) == open && Pieces(open, []) == []
  {
  }

  /** The open lots of ONE asset, in acquisition order.  The pruning kind is
      `_ReplayLedger`, which inherits everything but `_plan`. */
  class LotLedger {
    const kind: Kind
    var book: Book
    var lots: seq<MutableLot>

    constructor (kind: Kind, assetId: string)
      ensures Valid() && Model() == EmptyLedger(assetId) && this.kind == kind
      ensures lots == [] && book == EmptyLedger(assetId).book
    {
      this.kind := kind;
      book := Book(assetId, map[], None, None);
      lots := [];
    }

    /** No lot object is held twice. */
    ghost predicate Valid()
      reads this
    {
      forall a, b | 0 <= a < b < |lots| :: lots[a] != lots[b]
    }

    function Model(): Ledger
      reads this, lots
    {
      Ledger(book, Views(lots))
    }

    /** `open_lot`. */
    method Open(e: Event) returns (r: Result<MutableLot>)
      requires Valid() && e.Acquisition?
      modifies this
      ensures Valid()
      ensures match r
        case Ok(lot) =>
          && OpenLot(old(Model()), e) == Ok(Model())
          && fresh(lot) && lot.View() == NewLot(old(book), e) && lots == old(lots) + [lot]
        case Err(error) =>
          OpenLot(old(Model()), e) == Err(error) && Model() == old(Model()) && lots == old(lots)
    {
      var refusal := Refusal(book, e);
      if refusal.Some? {
        return Err(refusal.value);
      }
      var lot := new MutableLot(NewLot(book, e));
      ghost var before := lots;
      book := Booked(book, e);
      lots := lots + [lot];
      assert lots[..|before|] == before;
      return Ok(lot);
    }

    /** `open_lots`, with the positions they stand at. */
    method Handed() returns (open: seq<MutableLot>)
      requires Valid()
      ensures |open| == |LiveAt(Views(lots))|
      ensures forall k | 0 <= k < |open| :: open[k] == lots[LiveAt(Views(lots))[k]]
      ensures Views(open) == OpenLots(Views(lots))
      ensures forall a, b | 0 <= a < b < |open| :: open[a] != open[b]
      ensures forall lot :: lot in open ==> lot in lots
      ensures forall i | 0 <= i < |lots| && lots[i] in open :: Live(lots[i].View())
    {
      hide OpenLots;
      hide Live, Views;
      open := [];
      var i := 0;
      while i < |lots|
        invariant 0 <= i <= |lots|
        invariant |open| == |LiveAt(Views(lots)[..i])|
        invariant forall k | 0 <= k < |open| :: open[k] == lots[LiveAt(Views(lots)[..i])[k]]
      {
        assert Views(lots)[..i + 1][..i] == Views(lots)[..i];
        LiveByUnits(lots[i]);
        if lots[i].remaining.raw > 0 {
          open := open + [lots[i]];
        }
        i := i + 1;
      }
      assert Views(lots)[..|lots|] == Views(lots);
      HandedIsOpen(lots, open);
    }

    /** The validation half of either `_plan`, before anything is drawn. */
    method Validate(open: seq<Lot>, plan: seq<Pick>, needed: Quantity) returns (r: Result<int>)
      ensures r == Check(kind, book.assetId, open, plan, needed)
    {
      var budgets := if kind.Full? then Budgets(open) else map[];
      var total := 0;
      var k := 0;
      while k < |plan|
        invariant 0 <= k <= |plan|
        invariant Check(kind, book.assetId, open, plan, needed) ==
          if kind.Full? then CheckFull(budgets, plan[k..], needed, total)
          else CheckPruning(book.assetId, open, budgets, plan[k..], needed, total)
      {
        var p := plan[k];
        assert plan[k..][1..] == plan[k + 1..];
        var lot := Deref(open, p.lot);
        if kind.Full? && BudgetOf(budgets, p.lot).None? {
          return Err(ValidationError);
        }
        if kind.Pruning? && (lot.None? || lot.value.assetId != book.assetId || !Live(lot.value)) {
          return Err(ValidationError);
        }
        if p.take.decimals != needed.decimals {
          return Err(DecimalsMismatchError);
        }
        var known := BudgetOf(budgets, p.lot);
        var budget := if known.Some? then known.value else lot.value.remaining.raw;
        if !(0 < p.take.raw <= budget) {
          return Err(ValidationError);
        }
        budgets := budgets[p.lot := budget - p.take.raw];
        total := total + p.take.raw;
        k := k + 1;
      }
      if total > needed.raw {
        return Err(ValidationError);
      }
      return Ok(total);
    }

    /** One validated pick. */
    method Draw(open: seq<MutableLot>, p: Pick) returns (drawn: seq<Piece>)
      requires forall a, b | 0 <= a < b < |open| :: open[a] != open[b]
      modifies open
      ensures Views(open) == LotsAfter(old(Views(open)), p) && drawn == PieceOf(old(Views(open)), p)
    {
      drawn := [];
      if p.lot.Foreign? {
        drawn := [Piece(p.lot.lot.lotId, p.take, Portion(p.lot.lot, p.take.raw))];
      } else if p.lot.Held? && p.lot.at < |open| {
        var portion := open[p.lot.at].Draw(p.take);
        drawn := [Piece(open[p.lot.at].origin.lotId, p.take, portion)];
      }
    }

    /** The drawing half of `consume`, one validated pick after another. */
    method Execute(open: seq<MutableLot>, plan: seq<Pick>) returns (pieces: seq<Piece>)
      requires forall a, b | 0 <= a < b < |open| :: open[a] != open[b]
      modifies open
      ensures Views(open) == Drain(old(Views(open)), plan)
      ensures pieces == Pieces(old(Views(open)), plan)
    {
      hide Drain, Pieces, LotsAfter, PieceOf;
      pieces := [];
      var k := 0;
      assert plan[0..] == plan;
      while k < |plan|
        invariant 0 <= k <= |plan|
        invariant Drain(old(Views(open)), plan) == Drain(Views(open), plan[k..])
        invariant Pieces(old(Views(open)), plan) == pieces + Pieces(Views(open), plan[k..])
      {
        assert plan[k..][1..] == plan[k + 1..];
        PickByPick(Views(open), plan[k..]);
        var drawn := Draw(open, plan[k]);
        pieces := pieces + drawn;
        k := k + 1;
      }
      assert plan[k..] == [];
      NoPicks(Views(open));
    }

    /** What a disposal of the handed lots comes to, whichever `_plan` runs. */
    method PlanAndExecute(open: seq<MutableLot>, needed: Quantity, selector: Selector) returns (r: Result<Consumed>)
      requires forall a, b | 0 <= a < b < |open| :: open[a] != open[b]
      modifies open
      ensures r.Ok? ==>
        Lots.Execute(kind, book, old(Views(open)), needed, selector) == Ok(Execution(Views(open), r.value))
      ensures r.Err? ==>
        Lots.Execute(kind, book, old(Views(open)), needed, selector) == Err(r.error) && Views(open) == old(Views(open))
    {
      hide Drain, Pieces, Check, Views;
      var plan := selector(Views(open), needed);
      if plan.Err? {
        return Err(plan.error);
      }
      var total := Validate(Views(open), plan.value, needed);
      if total.Err? {
        return Err(total.error);
      }
      var pieces := Execute(open, plan.value);
      return Ok(Consumed(pieces, Quantity(needed.raw - total.value, needed.decimals)));
    }

    /** `_ReplayLedger`: keep only the lots that were open. */
    method ConsumePruning(needed: Quantity, selector: Selector) returns (r: Result<Consumed>)
      requires Valid() && kind.Pruning?
      modifies this`lots, lots
      ensures Valid() && forall lot :: lot in lots ==> lot in old(lots)
      ensures r.Ok? ==>
        Lots.Execute(kind, book, OpenLots(old(Views(lots))), needed, selector) == Ok(Execution(Views(lots), r.value))
      ensures r.Err? ==>
        && Lots.Execute(kind, book, OpenLots(old(Views(lots))), needed, selector) == Err(r.error)
        && Views(lots) == OpenLots(old(Views(lots)))
    {
      hide Lots.Execute, OpenLots, Views, LiveAt;
      var open := Handed();
      r := PlanAndExecute(open, needed, selector);
      lots := open;
    }

    /** `LotLedger`: keep every lot ever opened. */
    method ConsumeFull(needed: Quantity, selector: Selector) returns (r: Result<Consumed>)
      requires Valid() && kind.Full?
      modifies lots
      ensures r.Ok? ==> exists after ::
        && Lots.Execute(kind, book, OpenLots(old(Views(lots))), needed, selector) == Ok(Execution(after, r.value))
        && Views(lots) == WriteBack(old(Views(lots)), after)
      ensures r.Err? ==>
        && Lots.Execute(kind, book, OpenLots(old(Views(lots))), needed, selector) == Err(r.error)
        && Views(lots) == old(Views(lots))
    {
      hide Lots.Execute, OpenLots, Views, WriteBack;
      ghost var before := Views(lots);
      var open := Handed();
      r := PlanAndExecute(open, needed, selector);
      if r.Ok? {
        OnlyOpenDrawn(before, lots, open);
      } else {
        assert Views(lots) == before;
      }
    }

    /** `consume`. */
    method Consume(needed: Quantity, selector: Selector) returns (r: Result<Consumed>)
      requires Valid()
      modifies this`lots, lots
      ensures Valid() && forall lot :: lot in lots ==> lot in old(lots)
      ensures Consumption(Model(), r) == Lots.Consume(kind, old(Model()), needed, selector)
    {
      hide Lots.Execute, OpenLots, Views, WriteBack;
      if WrongScale(book, needed) {
        return Err(DecimalsMismatchError);
      }
      if kind.Pruning? {
        r := ConsumePruning(needed, selector);
      } else {
        r := ConsumeFull(needed, selector);
      }
    }
  }
}
