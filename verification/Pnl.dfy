/** The replay engine's state and steps, as values (accounting/pnl.py). */
module Pnl {
  import opened Common
  import opened Lots
  import opened Selection
  import opened Pools
  import opened Rounding

  const DEFAULT_CURRENCY := "USD"

  datatype Flag = MissingBasis | MissingCost | RoundedBasis | MissingProceeds

  datatype DisposalRecord = DisposalRecord(
    atMs: int, assetId: string, quantity: Quantity, proceeds: Option<Money>,
    costBasis: Option<Money>, realized: Option<Money>, missingBasis: bool, flags: seq<Flag>)

  /** Everything replayed about one asset: its pruning ledger, its pool under
      ACB, and the scale it last traded at. */
  datatype Account = Account(ledger: Ledger, pool: Option<Pool>, scale: nat)

  /** `assets` is the order in which the accounts were first seen. */
  datatype State = State(
    how: Method, currency: Option<string>, lastAtMs: int, disposals: seq<DisposalRecord>,
    assets: seq<string>, accounts: map<string, Account>)

  function NewState(how: Method): State {
    State(how, None, 0, [], [], map[])
  }

  function CurrencyOf(s: State): string {
    if s.currency.Some? then s.currency.value else DEFAULT_CURRENCY
  }

  /** The account is opened on first sight and its scale follows every event. */
  function Touch(s: State, e: Event): State {
    if e.assetId in s.accounts then
      s.(accounts := s.accounts[e.assetId := s.accounts[e.assetId].(scale := e.quantity.decimals)])
    else
      s.(assets := s.assets + [e.assetId],
         accounts := s.accounts[e.assetId := Account(EmptyLedger(e.assetId), None, e.quantity.decimals)])
  }

  function Retagged(a: Account, currency: string): Account {
    if a.pool.Some? then a.(pool := Some(a.pool.value.(currency := currency))) else a
  }

  /** `_fix_currency`. */
  function FixCurrency(s: State, priced: Option<Money>): Result<State> {
    if priced.None? then Ok(s)
    else if s.currency.None? then
      var currency := priced.value.currency;
      Ok(s.(currency := Some(currency),
            accounts := map a | a in s.accounts :: Retagged(s.accounts[a], currency)))
    else if priced.value.currency != s.currency.value then Err(CurrencyMismatchError)
    else Ok(s)
  }

  /** `_pool`. */
  function PoolOf(a: Account, currency: string): Pool {
    if a.pool.Some? then a.pool.value else FreshPool(currency)
  }

  datatype Change<T> = Change(account: Account, outcome: Result<T>)

  /** `open_lot`, then the pool under ACB. */
  function Open(how: Method, a: Account, currency: string, e: Event): Change<()>
    requires e.Acquisition?
  {
    match OpenLot(a.ledger, e)
    case Err(error) => Change(a, Err(error))
    case Ok(ledger) =>
      var a1 := a.(ledger := ledger);
      if !how.Acb? then Change(a1, Ok(()))
      else
        var pool := PoolOf(a, currency);
        match PoolAcquire(pool, e.quantity, e.cost)
        case Err(error) => Change(a1.(pool := Some(pool)), Err(error))
        case Ok(pool') => Change(a1.(pool := Some(pool')), Ok(()))
  }

  /** The sum of the portions; `None` as soon as one lot was unpriced. */
  function SumPortions(pieces: seq<Piece>): Option<real> {
    if pieces == [] then Some(0.0)
    else if pieces[0].portion.None? then None
    else
      var rest := SumPortions(pieces[1..]);
      if rest.None? then None else Some(pieces[0].portion.value + rest.value)
  }

  datatype Sold = Sold(basis: Option<real>, shortfall: Quantity)

  /** The consuming half of `_dispose`: basis from the pool's average under ACB,
      from the pieces otherwise. */
  function Sell(how: Method, a: Account, currency: string, e: Event): Change<Sold> {
    var c := Consume(Pruning, a.ledger, e.quantity, Select(how));
    var a1 := a.(ledger := c.ledger);
    match c.outcome
    case Err(error) => Change(a1, Err(error))
    case Ok(consumed) =>
      if !how.Acb? then Change(a1, Ok(Sold(SumPortions(consumed.pieces), consumed.shortfall)))
      else
        var pool := PoolOf(a, currency);
        match PoolDispose(pool, Quantity(Min(e.quantity.raw, pool.raw), e.quantity.decimals))
        case Err(error) => Change(a1.(pool := Some(pool)), Err(error))
        case Ok(slice) => Change(a1.(pool := Some(slice.pool)), Ok(Sold(slice.basis, consumed.shortfall)))
  }

  /** The booking half of `_dispose`. */
  function BookDisposal(fx: Boundary, currency: string, e: Event, sold: Sold): DisposalRecord
    requires e.Disposal?
  {
    var missing := sold.shortfall.raw > 0;
    var cost := if sold.basis.None? then None else Some(Money(fx(sold.basis.value).amount, currency));
    var rounded := sold.basis.Some? && !fx(sold.basis.value).exact;
    DisposalRecord(
      e.atMs, e.assetId, e.quantity, e.proceeds, cost,
      if e.proceeds.Some? && cost.Some? then
        Some(Money(e.proceeds.value.amount - cost.value.amount, currency))
      else None,
      missing,
      (if missing then [MissingBasis] else [])
      + (if sold.basis.None? then [MissingCost] else if rounded then [RoundedBasis] else [])
      + (if e.proceeds.None? then [MissingProceeds] else []))
  }

  /** A step's state, and the exception that ended it if there was one. */
  datatype Stepped = Stepped(state: State, error: Option<Error>)

  /** One turn of the loop in `process`. */
  function ProcessOne(fx: Boundary, s: State, e: Event): Stepped {
    if e.atMs < s.lastAtMs then Stepped(s, Some(ValidationError))
    else
      var s1 := Touch(s, e);
      match FixCurrency(s1, if e.Acquisition? then e.cost else e.proceeds)
      case Err(error) => Stepped(s1, Some(error))
      case Ok(s2) => StepAccount(fx, s2, e)
  }

  function StepAccount(fx: Boundary, s: State, e: Event): Stepped
    requires e.assetId in s.accounts
  {
    var a := s.accounts[e.assetId];
    if e.Acquisition? then
      var c := Open(s.how, a, CurrencyOf(s), e);
      var s' := s.(accounts := s.accounts[e.assetId := c.account]);
      if c.outcome.Err? then Stepped(s', Some(c.outcome.error))
      else Stepped(s'.(lastAtMs := e.atMs), None)
    else
      var c := Sell(s.how, a, CurrencyOf(s), e);
      var s' := s.(accounts := s.accounts[e.assetId := c.account]);
      if c.outcome.Err? then Stepped(s', Some(c.outcome.error))
      else
        Stepped(s'.(disposals := s.disposals + [BookDisposal(fx, CurrencyOf(s), e, c.outcome.value)],
                    lastAtMs := e.atMs),
                None)
  }

  /** `process`: stops at the first event that raises. */
  function Process(fx: Boundary, s: State, events: seq<Event>): Stepped
    decreases |events|
  {
    if events == [] then Stepped(s, None)
    else
      var one := ProcessOne(fx, s, events[0]);
      if one.error.Some? then one else Process(fx, one.state, events[1..])
  }
}
