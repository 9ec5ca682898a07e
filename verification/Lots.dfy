/** Lots, taxable events and the lot ledger of one asset, as values
    (accounting/lots.py).  Money amounts and fractions are exact rationals. */
module Lots {
  import opened Common

  /** `raw * 10**-decimals`. */
  datatype Quantity = Quantity(raw: int, decimals: nat)

  datatype Money = Money(amount: real, currency: string)

  /** The sha256 digest of the triple, as an injective constructor. */
  datatype LotId = LotId(sourceTxId: string, assetId: string, ordinal: nat)

  datatype EventData =
    | Acquisition(atMs: int, assetId: string, quantity: Quantity, cost: Option<Money>, sourceTxId: string)
    | Disposal(atMs: int, assetId: string, quantity: Quantity, proceeds: Option<Money>, sourceTxId: string)

  /** Both event classes reject `quantity.raw <= 0` at construction. */
  type Event = e: EventData | e.quantity.raw > 0
    witness Acquisition(0, "", Quantity(1, 0), None, "")

  datatype LotData = Lot(
    lotId: LotId, openedAtMs: int, assetId: string,
    original: Quantity, remaining: Quantity,
    costTotal: Option<Money>, costRemaining: Option<real>, sourceTxId: string)

  /** Every lot is opened from an event, so it never has zero original units. */
  type Lot = l: LotData | l.original.raw > 0
    witness Lot(LotId("", "", 0), 0, "", Quantity(1, 0), Quantity(1, 0), None, None, "")

  predicate Live(l: Lot) {
    l.remaining.raw > 0
  }

  /** The lots with units remaining, in open order. */
  function OpenLots(lots: seq<Lot>): seq<Lot> {
    if |lots| == 0 then []
    else if Live(lots[|lots| - 1]) then OpenLots(lots[..|lots| - 1]) + [lots[|lots| - 1]]
    else OpenLots(lots[..|lots| - 1])
  }

  /** What a ledger keeps besides its lots: the asset, the acquisition
      counters, and the scale and cost currency fixed so far. */
  datatype Book = Book(
    assetId: string, seqs: map<(string, string), nat>, decimals: Option<nat>, currency: Option<string>)

  datatype Ledger = Ledger(book: Book, lots: seq<Lot>)

  function EmptyLedger(assetId: string): Ledger {
    Ledger(Book(assetId, map[], None, None), [])
  }

  /** The ordinal the next acquisition of `sourceTxId` will get. */
  function NextSeq(b: Book, sourceTxId: string): nat {
    var key := (sourceTxId, b.assetId);
    if key in b.seqs then b.seqs[key] else 0
  }

  function NewLot(b: Book, e: Event): Lot
    requires e.Acquisition?
  {
    Lot(LotId(e.sourceTxId, e.assetId, NextSeq(b, e.sourceTxId)), e.atMs, e.assetId,
        e.quantity, e.quantity, e.cost,
        if e.cost.Some? then Some(e.cost.value.amount) else None, e.sourceTxId)
  }

  /** Why `open_lot` refuses an event, if it does. */
  function Refusal(b: Book, e: Event): Option<Error>
    requires e.Acquisition?
  {
    if e.assetId != b.assetId then Some(ValidationError)
    else if b.decimals.Some? && b.decimals.value != e.quantity.decimals then Some(DecimalsMismatchError)
    else if e.cost.Some? && b.currency.Some? && b.currency.value != e.cost.value.currency then
      Some(CurrencyMismatchError)
    else None
  }

  function Booked(b: Book, e: Event): Book
    requires e.Acquisition?
  {
    b.(seqs := b.seqs[(e.sourceTxId, e.assetId) := NextSeq(b, e.sourceTxId) + 1],
       decimals := Some(e.quantity.decimals),
       currency := if e.cost.Some? then Some(e.cost.value.currency) else b.currency)
  }

  /** `LotLedger.open_lot`: a refused event changes nothing. */
  function OpenLot(l: Ledger, e: Event): Result<Ledger>
    requires e.Acquisition?
  {
    if Refusal(l.book, e).Some? then Err(Refusal(l.book, e).value)
    else Ok(Ledger(Booked(l.book, e), l.lots + [NewLot(l.book, e)]))
  }

  // ---------------------------------------------------------------- plans

  /** Which lot object a plan names: one of the lots handed to the selector, by
      position, one this ledger opened that has no units left, or an object this ledger
      does not hold. */
  datatype LotRef = Held(at: nat) | Spent(lotId: LotId) | Foreign(lot: Lot)

  datatype Pick = Pick(lot: LotRef, take: Quantity)

  /** A costing method: the handed lots and the need, to a plan or an error. */
  type Selector = (seq<Lot>, Quantity) -> Result<seq<Pick>>

  /** One executed piece: the lot, the units taken, the basis that went along. */
  datatype Piece = Piece(lotId: LotId, take: Quantity, portion: Option<real>)

  /** `Full` keeps every lot ever opened (`LotLedger`); `Pruning` drops spent
      lots at each plan (`_ReplayLedger`). */
  datatype Kind = Full | Pruning

  /** The units of the lots handed out.  The source budgets its spent lots too, at
      nothing, which `BudgetOf` adds. */
  function Budgets(open: seq<Lot>): map<LotRef, int> {
    map r | r in set i: nat | i < |open| :: Held(i) :: open[r.at].remaining.raw
  }

  function BudgetOf(budgets: map<LotRef, int>, r: LotRef): Option<int> {
    if r in budgets then Some(budgets[r]) else if r.Spent? then Some(0) else None
  }

  /** The validation loop of `LotLedger._plan`, over a budget for every lot the
      ledger holds; the plan's total when it passes. */
  function CheckFull(budgets: map<LotRef, int>, plan: seq<Pick>, needed: Quantity, total: int): Result<int> {
    if plan == [] then
      if total > needed.raw then Err(ValidationError) else Ok(total)
    else
      var p := plan[0];
      var budget := BudgetOf(budgets, p.lot);
      if budget.None? then Err(ValidationError)
      else if p.take.decimals != needed.decimals then Err(DecimalsMismatchError)
      else if !(0 < p.take.raw <= budget.value) then Err(ValidationError)
      else CheckFull(budgets[p.lot := budget.value - p.take.raw], plan[1..], needed, total + p.take.raw)
  }

  /** The lot object a reference denotes, if there is one. */
  function Deref(open: seq<Lot>, r: LotRef): Option<Lot> {
    match r
    case Held(at) => if at < |open| then Some(open[at]) else None
    case Spent(_) => None
    case Foreign(lot) => Some(lot)
  }

  /** The validation loop of `_ReplayLedger._plan`: membership by asset and
      remaining units, budgets filled on first use. */
  function CheckPruning(assetId: string, open: seq<Lot>, budgets: map<LotRef, int>,
                        plan: seq<Pick>, needed: Quantity, total: int): Result<int>
    decreases |plan|
  {
    if plan == [] then
      if total > needed.raw then Err(ValidationError) else Ok(total)
    else
      var p := plan[0];
      var lot := Deref(open, p.lot);
      if lot.None? || lot.value.assetId != assetId || !Live(lot.value) then Err(ValidationError)
      else if p.take.decimals != needed.decimals then Err(DecimalsMismatchError)
      else
        var budget := if p.lot in budgets then budgets[p.lot] else lot.value.remaining.raw;
        if !(0 < p.take.raw <= budget) then Err(ValidationError)
        else CheckPruning(assetId, open, budgets[p.lot := budget - p.take.raw], plan[1..], needed,
                          total + p.take.raw)
  }

  function Check(kind: Kind, assetId: string, open: seq<Lot>, plan: seq<Pick>, needed: Quantity): Result<int> {
    match kind
    case Full => CheckFull(Budgets(open), plan, needed, 0)
    case Pruning => CheckPruning(assetId, open, map[], plan, needed, 0)
  }

  /** The pro-rata share of a cost, as an exact rational. */
  function Share(cost: real, take: int, units: int): real
    requires units != 0
  {
    cost * take as real / units as real
  }

  /** The exact basis of `take` units of `l`; `None` when it is unpriced. */
  function Portion(l: Lot, take: int): Option<real> {
    if l.costTotal.Some? && l.costRemaining.Some? then
      Some(Share(l.costTotal.value.amount, take, l.original.raw))
    else None
  }

  /** A lot after `take` units left it. */
  function Drawn(l: Lot, take: int): Lot {
    var portion := Portion(l, take);
    l.(remaining := l.remaining.(raw := l.remaining.raw - take),
       costRemaining := if portion.Some? then Some(l.costRemaining.value - portion.value) else l.costRemaining)
  }

  /** The handed lots after a plan has been executed on them. */
  function Drain(open: seq<Lot>, plan: seq<Pick>): (after: seq<Lot>)
    ensures |after| == |open|
    decreases |plan|
  {
    if plan == [] then open
    else
      var p := plan[0];
      if p.lot.Held? && p.lot.at < |open| then
        Drain(open[p.lot.at := Drawn(open[p.lot.at], p.take.raw)], plan[1..])
      else Drain(open, plan[1..])
  }

  /** The pieces executing a plan yields, in plan order. */
  function Pieces(open: seq<Lot>, plan: seq<Pick>): seq<Piece>
    decreases |plan|
  {
    if plan == [] then []
    else
      var p := plan[0];
      match Deref(open, p.lot)
      case None => Pieces(open, plan[1..])
      case Some(l) =>
        [Piece(l.lotId, p.take, Portion(l, p.take.raw))] +
        Pieces(if p.lot.Held? then open[p.lot.at := Drawn(l, p.take.raw)] else open, plan[1..])
  }

  /** `lots` with its open lots replaced, in order, by `open`. */
  function WriteBack(lots: seq<Lot>, open: seq<Lot>): (after: seq<Lot>)
    requires |open| == |OpenLots(lots)|
    ensures |after| == |lots|
  {
    if |lots| == 0 then []
    else
      var last := lots[|lots| - 1];
      if Live(last) then
        WriteBack(lots[..|lots| - 1], open[..|open| - 1]) + [open[|open| - 1]]
      else WriteBack(lots[..|lots| - 1], open) + [last]
  }

  datatype Consumed = Consumed(pieces: seq<Piece>, shortfall: Quantity)

  /** The handed lots after an executed disposal, and what it returns. */
  datatype Execution = Execution(after: seq<Lot>, consumed: Consumed)

  /** A disposal against the lots handed to the selector: nothing is drawn until
      the whole plan has been validated, and an uncovered need is a shortfall,
      not an error. */
  function Execute(kind: Kind, book: Book, open: seq<Lot>, needed: Quantity, selector: Selector): (r: Result<Execution>)
    ensures r.Ok? ==> |r.value.after| == |open|
  {
    match selector(open, needed)
    case Err(e) => Err(e)
    case Ok(plan) =>
      match Check(kind, book.assetId, open, plan, needed)
      case Err(e) => Err(e)
      case Ok(total) =>
        Ok(Execution(Drain(open, plan),
                     Consumed(Pieces(open, plan), Quantity(needed.raw - total, needed.decimals))))
  }

  datatype Consumption = Consumption(ledger: Ledger, outcome: Result<Consumed>)

  predicate WrongScale(book: Book, needed: Quantity) {
    book.decimals.Some? && book.decimals.value != needed.decimals
  }

  /** `consume` under either `_plan`.  The pruning one drops its spent lots
      before it plans, so also when the plan is then refused. */
  function Consume(kind: Kind, l: Ledger, needed: Quantity, selector: Selector): Consumption {
    if WrongScale(l.book, needed) then Consumption(l, Err(DecimalsMismatchError))
    else
      match Execute(kind, l.book, OpenLots(l.lots), needed, selector)
      case Err(e) => Consumption(if kind.Pruning? then l.(lots := OpenLots(l.lots)) else l, Err(e))
      case Ok(x) =>
        Consumption(l.(lots := if kind.Pruning? then x.after else WriteBack(l.lots, x.after)), Ok(x.consumed))
  }

  // ------------------------------------------------- one asset's stream

  /** What the caller of one ledger call gets back. */
  datatype Outcome = Opened(lot: Lot) | Disposed(consumed: Consumed) | Failed(error: Error)

  /** One event against one ledger. */
  function Step(kind: Kind, l: Ledger, e: Event, selector: Selector): (Ledger, Outcome) {
    if e.Acquisition? then
      match OpenLot(l, e)
      case Err(error) => (l, Failed(error))
      case Ok(l') => (l', Opened(NewLot(l.book, e)))
    else
      var c := Consume(kind, l, e.quantity, selector);
      (c.ledger, match c.outcome case Err(error) => Failed(error) case Ok(consumed) => Disposed(consumed))
  }

  /** A whole stream, continuing past refused calls. */
  function Run(kind: Kind, l: Ledger, events: seq<Event>, selector: Selector): (Ledger, seq<Outcome>)
    decreases |events|
  {
    if events == [] then (l, [])
    else
      var (l', first) := Step(kind, l, events[0], selector);
      var (l'', rest) := Run(kind, l', events[1..], selector);
      (l'', [first] + rest)
  }
}
