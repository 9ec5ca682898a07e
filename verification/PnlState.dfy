/** The replay accumulator advanced in place (accounting/pnl.py PnLState,
    process) and the loops that read it (accounting/report.py report). */
module PnlStates {
  import opened Common
  import opened Lots
  import opened LotLedgers
  import opened Selection
  import opened Pools
  import opened Pnl
  import opened Rounding
  import opened Accounts
  import opened Report

  /** The objects of some ledgers, their lots, and some pools. */
  ghost function Objects(ledgers: map<string, LotLedger>, pools: map<string, AcbPool>): set<object>
    reads ledgers.Values
  {
    (set a | a in ledgers :: ledgers[a] as object)
    + (set a | a in pools :: pools[a] as object)
    + (set a, l | a in ledgers && l in ledgers[a].lots :: l as object)
  }

  /** No two assets share a ledger, a lot or a pool. */
  ghost predicate Apart(ledgers: map<string, LotLedger>, pools: map<string, AcbPool>)
    reads ledgers.Values
  {
    && (forall a | a in ledgers :: ledgers[a].kind.Pruning? && ledgers[a].Valid())
    && (forall a, b | a in ledgers && b in ledgers && a != b ::
          && ledgers[a] != ledgers[b]
          && (forall l | l in ledgers[a].lots :: l !in ledgers[b].lots))
    && (forall a, b | a in pools && b in pools && a != b :: pools[a] != pools[b])
  }

  /** The ledgers and pools are the mutable objects themselves; `assets` is the order in
      which the dictionary of ledgers was filled. */
  class PnLState {
    const how: Method
    var currency: Option<string>
    var lastAtMs: int
    var disposals: seq<DisposalRecord>
    var assets: seq<string>
    var ledgers: map<string, LotLedger>
    var pools: map<string, AcbPool>
    var scales: map<string, nat>

    constructor (how: Method)
      ensures Valid() && View() == NewState(how) && Footprint() == {this}
    {
      this.how := how;
      currency, lastAtMs, disposals, assets := None, 0, [], [];
      ledgers, pools, scales := map[], map[], map[];
    }

    /** Every object the state owns. */
    ghost function Footprint(): set<object>
      reads this, ledgers.Values
    {
      {this} + Objects(ledgers, pools)
    }

    predicate Keyed()
      reads this
    {
      ledgers.Keys == scales.Keys && pools.Keys <= ledgers.Keys
    }

    ghost predicate Valid()
      reads this, ledgers.Values
    {
      Keyed() && Apart(ledgers, pools)
    }

    function PoolOfAsset(a: string): Option<Pool>
      reads this, if a in pools then {pools[a]} else {}
    {
      if a in pools then Some(pools[a].View()) else None
    }

    /** One asset's account as a value. */
    function AccountOf(a: string): Account
      requires a in ledgers && a in scales
      reads this, ledgers[a], ledgers[a].lots, if a in pools then {pools[a]} else {}
    {
      Account(ledgers[a].Model(), PoolOfAsset(a), scales[a])
    }

    lemma OwnsAccount(a: string)
      requires a in ledgers
      ensures this in Footprint() && ledgers[a] in Footprint() && (a in pools ==> pools[a] in Footprint())
      ensures forall l | l in ledgers[a].lots :: l in Footprint()
    {
    }

    ghost function View(): State
      requires Keyed()
      reads this, ledgers.Values, Footprint()
    {
      State(how, currency, lastAtMs, disposals, assets,
            map a | a in ledgers :: (OwnsAccount(a); AccountOf(a)))
    }

    /** The objects of an asset are the same ones, and none of them moved. */
    twostate predicate Kept(a: string)
      requires a in old(ledgers)
      reads this, (if a in ledgers then {ledgers[a]} else {}), (if a in ledgers then ledgers[a].lots else []),
        (if a in pools then {pools[a]} else {})
    {
      && a in ledgers && ledgers[a] == old(ledgers[a]) && unchanged(ledgers[a]) && unchanged(ledgers[a].lots)
      && (a in pools <==> a in old(pools))
      && (a in pools ==> pools[a] == old(pools[a]) && unchanged(pools[a]))
    }

    twostate lemma KeptIsValid(new a: string)
      requires old(Valid()) && a in old(ledgers) && Kept(a)
      ensures a in ledgers && ledgers[a] == old(ledgers[a]) && ledgers[a].kind.Pruning? && ledgers[a].Valid()
      ensures ledgers[a].lots == old(ledgers[a].lots)
    {
    }

    /** It shares no lot with a ledger that only opened new ones. */
    twostate lemma KeptApart(new a: string, new b: string)
      requires old(Valid()) && a in old(ledgers) && b in old(ledgers) && a != b && Kept(a) && b in ledgers
      requires forall l | l in ledgers[b].lots :: fresh(l) || l in old(ledgers[b].lots)
      ensures forall l | l in ledgers[a].lots :: l !in ledgers[b].lots
      ensures forall l | l in ledgers[b].lots :: l !in ledgers[a].lots
    {
      hide LotLedger.Valid;
    }

    /** So its account reads the same, but for its scale. */
    twostate lemma AccountKept(a: string)
      requires a in old(ledgers) && a in old(scales) && a in scales && Kept(a)
      ensures AccountOf(a) == old(AccountOf(a)).(scale := scales[a])
    {
    }

    /** The state has this value. */
    ghost predicate Holds(s: State)
      requires Keyed()
      reads this, ledgers.Values, Footprint()
    {
      && how == s.how && currency == s.currency && lastAtMs == s.lastAtMs && disposals == s.disposals
         && assets == s.assets
      && ledgers.Keys == s.accounts.Keys
      && (forall a | a in ledgers :: (OwnsAccount(a); AccountOf(a)) == s.accounts[a])
    }

    lemma HoldsIsView(s: State)
      requires Keyed() && Holds(s)
      ensures View() == s
    {
      assert View().accounts == s.accounts;
    }

    /** The asset's ledger is there, a new one if there was none. */
    twostate predicate Opened(e: Event)
      reads this, ledgers.Values
    {
      && ledgers.Keys == old(ledgers.Keys) + {e.assetId} && scales == old(scales)[e.assetId := e.quantity.decimals]
      && pools == old(pools)
      && (e.assetId !in old(ledgers) ==>
            && var l := ledgers[e.assetId];
            && fresh(l) && l.Valid() && l.kind.Pruning? && l.lots == [] && l.book == EmptyLedger(e.assetId).book)
    }

    twostate lemma OpenedEach(e: Event)
      requires old(Valid()) && Opened(e) && forall a | a in old(ledgers) :: Kept(a)
      ensures forall a | a in ledgers :: ledgers[a].kind.Pruning? && ledgers[a].Valid()
      ensures forall a | a in old(ledgers) :: ledgers[a] == old(ledgers[a]) && ledgers[a].lots == old(ledgers[a].lots)
    {
      hide LotLedger.Valid, Kept;
      forall a | a in old(ledgers)
        ensures ledgers[a] == old(ledgers[a]) && ledgers[a].kind.Pruning? && ledgers[a].Valid()
        ensures ledgers[a].lots == old(ledgers[a].lots)
      {
        KeptIsValid(a);
      }
    }

    twostate lemma OpenedPairs(e: Event)
      requires old(Valid()) && Opened(e) && forall a | a in old(ledgers) :: Kept(a)
      ensures forall a, b | a in ledgers && b in ledgers && a != b ::
        ledgers[a] != ledgers[b] && forall l | l in ledgers[a].lots :: l !in ledgers[b].lots
    {
      hide LotLedger.Valid, Kept;
      OpenedEach(e);
      forall a, b | a in ledgers && b in ledgers && a != b
        ensures ledgers[a] != ledgers[b] && forall l | l in ledgers[a].lots :: l !in ledgers[b].lots
      {
        if a in old(ledgers) && b in old(ledgers) {
          KeptApart(a, b);
        }
      }
    }

    twostate lemma OpenedIsValid(e: Event)
      requires old(Valid()) && Opened(e) && forall a | a in old(ledgers) :: Kept(a)
      ensures Valid()
    {
      hide LotLedger.Valid, Kept;
      OpenedEach(e);
      OpenedPairs(e);
    }

    twostate lemma OpenedIsFresh(e: Event)
      requires Opened(e) && forall a | a in old(ledgers) :: Kept(a)
      ensures forall o | o in Footprint() :: o in old(Footprint()) || fresh(o)
    {
      hide LotLedger.Valid;
    }

    twostate lemma OpenedHolds(e: Event)
      requires old(Keyed())
      requires Opened(e) && forall a | a in old(ledgers) :: Kept(a)
      requires currency == old(currency) && lastAtMs == old(lastAtMs) && disposals == old(disposals)
      requires assets == old(assets) + (if e.assetId in old(ledgers) then [] else [e.assetId])
      ensures Holds(Pnl.Touch(old(View()), e))
    {
      hide LotLedger.Model, AcbPool.View, Kept, LotLedger.Valid;
      var s := Pnl.Touch(old(View()), e);
      forall a | a in ledgers
        ensures AccountOf(a) == s.accounts[a]
      {
        if a in old(ledgers) {
          AccountKept(a);
        } else {
          NewLedgerIsEmpty(a);
        }
      }
    }

    lemma NewLedgerIsEmpty(a: string)
      requires a in ledgers && a in scales && ledgers[a].lots == [] && ledgers[a].book == EmptyLedger(a).book
        && a !in pools
      ensures AccountOf(a) == Account(EmptyLedger(a), None, scales[a])
    {
    }

    /** `ledgers.get`, or a fresh ledger under the asset's name. */
    method FindLedger(id: string)
      modifies this`ledgers, this`assets
      ensures id in ledgers && ledgers == old(ledgers)[id := ledgers[id]]
      ensures id in old(ledgers) ==> ledgers[id] == old(ledgers[id]) && assets == old(assets)
      ensures id !in old(ledgers) ==>
        && var l := ledgers[id];
        && fresh(l) && l.Valid() && l.kind.Pruning? && l.lots == [] && l.book == EmptyLedger(id).book
        && assets == old(assets) + [id]
    {
      if id !in ledgers {
        var ledger := new LotLedger(Pruning, id);
        ledgers := ledgers[id := ledger];
        assets := assets + [id];
      }
    }

    /** The first lines of the loop body: find or open the ledger, note the scale. */
    method Touch(e: Event)
      requires Valid()
      modifies this`ledgers, this`assets, this`scales
      ensures Valid() && forall o | o in Footprint() :: o in old(Footprint()) || fresh(o)
      ensures e.assetId in ledgers && Holds(Pnl.Touch(old(View()), e))
    {
      hide LotLedger.Model, AcbPool.View, Holds, View, Apart, Objects, LotLedger.Valid, EmptyLedger;
      FindLedger(e.assetId);
      scales := scales[e.assetId := e.quantity.decimals];
      OpenedIsValid(e);
      OpenedIsFresh(e);
      OpenedHolds(e);
    }

    /** Every pool's currency, and nothing else. */
    method RetagPools(currency: string)
      requires Apart(ledgers, pools)
      modifies pools.Values
      ensures forall a | a in pools :: pools[a].View() == old(pools[a].View()).(currency := currency)
    {
      var todo := pools.Keys;
      while todo != {}
        invariant todo <= pools.Keys
        invariant forall a | a in pools ::
          pools[a].View() == if a in todo then old(pools[a].View()) else old(pools[a].View()).(currency := currency)
        decreases todo
      {
        var a :| a in todo;
        pools[a].currency := currency;
        todo := todo - {a};
      }
    }

    twostate lemma RetaggedHolds(priced: Option<Money>)
      requires old(Keyed()) && priced.Some? && old(currency.None?) && currency == Some(priced.value.currency)
      requires ledgers == old(ledgers) && scales == old(scales) && pools == old(pools)
      requires lastAtMs == old(lastAtMs) && disposals == old(disposals) && assets == old(assets)
      requires forall a | a in ledgers :: ledgers[a].Model() == old(ledgers[a].Model())
      requires forall a | a in pools :: pools[a].View() == old(pools[a].View()).(currency := priced.value.currency)
      ensures Pnl.FixCurrency(old(View()), priced).Ok? && Holds(Pnl.FixCurrency(old(View()), priced).value)
    {
      hide LotLedger.Model, AcbPool.View;
    }

    /** While no object moves the accounts stay as they were. */
    twostate lemma AccountsStay()
      requires old(Keyed()) && ledgers == old(ledgers) && scales == old(scales) && pools == old(pools)
      requires forall a | a in ledgers :: Kept(a)
      ensures Holds(State(how, currency, lastAtMs, disposals, assets, old(View()).accounts))
    {
      hide LotLedger.Model, AcbPool.View, Kept;
      forall a | a in ledgers
        ensures AccountOf(a) == old(AccountOf(a))
      {
        AccountKept(a);
      }
    }

    /** `_fix_currency`. */
    method FixCurrency(priced: Option<Money>) returns (error: Option<Error>)
      requires Valid()
      modifies this`currency, pools.Values
      ensures Valid() && Footprint() == old(Footprint())
      ensures match Pnl.FixCurrency(old(View()), priced)
        case Ok(s) => error == None && Holds(s)
        case Err(x) => error == Some(x) && Holds(old(View()))
    {
      hide LotLedger.Model, AcbPool.View, Holds, Apart, Objects;
      if priced.None? {
        AccountsStay();
        return None;
      }
      if currency.None? {
        currency := Some(priced.value.currency);
        RetagPools(priced.value.currency);
        RetaggedHolds(priced);
        return None;
      }
      AccountsStay();
      return if priced.value.currency != currency.value then Some(CurrencyMismatchError) else None;
    }

    // ------------------------------------------------------ one asset moves

    /** Everything but one asset's own objects is as it was; the lots it has now are its
        old ones or new. */
    twostate predicate OnlyMoves(id: string)
      reads *
    {
      && id in ledgers && ledgers == old(ledgers) && scales == old(scales) && ledgers[id].Valid()
      && PoolsMoved(id)
      && (forall l | l in ledgers[id].lots :: fresh(l) || l in old(ledgers[id].lots))
      && (forall a | a in ledgers && a != id :: Kept(a))
      && currency == old(currency) && lastAtMs == old(lastAtMs) && disposals == old(disposals) && assets == old(assets)
    }

    twostate lemma MovedIsValid(id: string)
      requires old(Valid()) && OnlyMoves(id)
      ensures Valid()
    {
      hide LotLedger.Valid, Kept;
      forall a | a in ledgers && a != id
        ensures ledgers[a] == old(ledgers[a]) && ledgers[a].kind.Pruning? && ledgers[a].Valid()
        ensures ledgers[a].lots == old(ledgers[a].lots)
      {
        KeptIsValid(a);
      }
      forall a, b | a in ledgers && b in ledgers && a != b
        ensures forall l | l in ledgers[a].lots :: l !in ledgers[b].lots
      {
        if a != id {
          KeptApart(a, b);
        } else {
          KeptApart(b, a);
        }
      }
    }

    twostate lemma MovedIsFresh(id: string)
      requires OnlyMoves(id)
      ensures forall o | o in Footprint() :: o in old(Footprint()) || fresh(o)
    {
      hide LotLedger.Valid;
    }

    twostate lemma MovedHolds(id: string, new account: Account)
      requires old(Valid()) && OnlyMoves(id) && Keyed() && AccountOf(id) == account
      ensures Holds(Replaced(old(View()), id, account))
    {
      hide LotLedger.Model, AcbPool.View, Kept, LotLedger.Valid, Apart, Objects;
      forall a | a in ledgers && a != id
        ensures AccountOf(a) == old(AccountOf(a))
      {
        AccountKept(a);
      }
    }

    function Currency(): string
      reads this
    {
      if currency.Some? then currency.value else DEFAULT_CURRENCY
    }

    /** `_pool`: the asset's pool, opened in the stream's currency on demand. */
    method PoolFor(id: string) returns (pool: AcbPool)
      modifies this`pools
      ensures pools == old(pools)[id := pool]
      ensures if id in old(pools) then pool == old(pools)[id] else fresh(pool)
      ensures pool.View() == (if id in old(pools) then old(pools[id].View()) else FreshPool(Currency()))
    {
      if id !in pools {
        pool := new AcbPool(Currency());
        pools := pools[id := pool];
      } else {
        pool := pools[id];
        assert pools == pools[id := pool];
      }
    }

    /** The ledger's part of an acquisition. */
    method OpenLedger(id: string, e: Event) returns (r: Result<MutableLot>)
      requires Valid() && e.Acquisition? && id in ledgers
      modifies ledgers[id]
      ensures OnlyMoves(id)
      ensures ledgers[id].Valid() && forall l | l in ledgers[id].lots :: fresh(l) || l in old(ledgers[id].lots)
      ensures match r
        case Ok(_) => Lots.OpenLot(old(ledgers[id].Model()), e) == Ok(ledgers[id].Model())
        case Err(x) =>
          && Lots.OpenLot(old(ledgers[id].Model()), e) == Err(x)
          && ledgers[id].Model() == old(ledgers[id].Model())
    {
      hide LotLedger.Model, AcbPool.View, View, Lots.OpenLot;
      r := ledgers[id].Open(e);
    }

    /** The pool's part of an acquisition. */
    method JoinPool(id: string, e: Event) returns (error: Option<Error>)
      requires e.Acquisition?
      modifies this`pools, if id in pools then {pools[id]} else {}
      ensures id in pools && pools == old(pools)[id := pools[id]]
      ensures if id in old(pools) then pools[id] == old(pools[id]) else fresh(pools[id])
      ensures var pool := if id in old(pools) then old(pools[id].View()) else FreshPool(Currency());
        match PoolAcquire(pool, e.quantity, e.cost)
        case Ok(joined) => error == None && pools[id].View() == joined
        case Err(x) => error == Some(x) && pools[id].View() == pool
    {
      hide AcbPool.View, PoolAcquire;
      var pool := PoolFor(id);
      var joined := pool.Acquire(e.quantity, e.cost);
      error := ErrorOf(joined);
    }

    /** No pool was opened or replaced but perhaps one asset's, by a new one. */
    twostate predicate PoolsMoved(id: string)
      reads this
    {
      && (forall a | a in pools && a != id :: a in old(pools) && pools[a] == old(pools[a]))
      && (forall a | a in old(pools) && a != id :: a in pools)
      && (id in pools ==> (id in old(pools) && pools[id] == old(pools[id])) || fresh(pools[id]))
    }

    /** Moving on to one's own pool moves no other asset. */
    twostate lemma PoolOnlyMoves(id: string)
      requires old(Keyed()) && id in old(ledgers) && ledgers == old(ledgers) && scales == old(scales)
      requires PoolsMoved(id)
      requires ledgers[id].Valid() && forall l | l in ledgers[id].lots :: fresh(l) || l in old(ledgers[id].lots)
      requires forall a | a in ledgers && a != id :: unchanged(ledgers[a]) && unchanged(ledgers[a].lots)
      requires forall a | a in pools && a != id :: unchanged(pools[a])
      requires currency == old(currency) && lastAtMs == old(lastAtMs) && disposals == old(disposals)
        && assets == old(assets)
      ensures OnlyMoves(id)
    {
      hide LotLedger.Valid, Kept;
      forall a | a in ledgers && a != id
        ensures Kept(a)
      {
        PoolElsewhere(id, a);
      }
    }

    twostate lemma PoolElsewhere(id: string, new a: string)
      requires a in old(ledgers) && a != id && ledgers == old(ledgers) && unchanged(ledgers[a])
        && unchanged(ledgers[a].lots)
      requires PoolsMoved(id) && (a in pools ==> unchanged(pools[a]))
      ensures Kept(a)
    {
    }

    lemma AssetsDiffer(id: string)
      requires Valid() && id in ledgers
      ensures forall a | a in pools && a != id && id in pools :: pools[a] != pools[id]
      ensures forall a | a in ledgers && a != id :: ledgers[a] != ledgers[id]
      ensures forall a, i | a in ledgers && a != id && 0 <= i < |ledgers[a].lots| ::
        ledgers[a].lots[i] !in ledgers[id].lots
    {
    }

    /** `Open` and `Sell`, case by case. */
    lemma OpenCases(a: Account, currency: string, e: Event)
      requires e.Acquisition?
      ensures var c := Open(how, a, currency, e);
        match OpenLot(a.ledger, e)
        case Err(x) => c == Change(a, Err(x))
        case Ok(l) =>
          if !how.Acb? then c == Change(Account(l, a.pool, a.scale), Ok(()))
          else
            match PoolAcquire(PoolOf(a, currency), e.quantity, e.cost)
            case Err(x) => c == Change(Account(l, Some(PoolOf(a, currency)), a.scale), Err(x))
            case Ok(pool) => c == Change(Account(l, Some(pool), a.scale), Ok(()))
    {
    }

    lemma SellRefused(a: Account, currency: string, e: Event, ledger: Ledger, x: Error)
      requires Lots.Consume(Pruning, a.ledger, e.quantity, Select(how)) == Consumption(ledger, Err(x))
      ensures Sell(how, a, currency, e) == Change(Account(ledger, a.pool, a.scale), Err(x))
    {
      hide Lots.Consume, Select, PoolDispose, SumPortions;
    }

    /** A disposal's charge and the pool it leaves, once its lots are consumed. */
    function Charged(pool: Option<Pool>, currency: string, e: Event, consumed: Consumed): (Option<Pool>, Result<Sold>) {
      if !how.Acb? then (pool, Ok(Sold(SumPortions(consumed.pieces), consumed.shortfall)))
      else
        var p := if pool.Some? then pool.value else FreshPool(currency);
        match PoolDispose(p, Quantity(Min(e.quantity.raw, p.raw), e.quantity.decimals))
        case Err(x) => (Some(p), Err(x))
        case Ok(slice) => (Some(slice.pool), Ok(Sold(slice.basis, consumed.shortfall)))
    }

    lemma SellCharges(a: Account, currency: string, e: Event, ledger: Ledger, consumed: Consumed)
      requires Lots.Consume(Pruning, a.ledger, e.quantity, Select(how)) == Consumption(ledger, Ok(consumed))
      ensures var (pool, r) := Charged(a.pool, currency, e, consumed);
        Sell(how, a, currency, e) == Change(Account(ledger, pool, a.scale), r)
    {
      hide Lots.Consume, Select, PoolDispose, SumPortions;
    }

    /** An acquisition's half of the loop body. */
    method Acquire(e: Event) returns (error: Option<Error>)
      requires Valid() && e.Acquisition? && e.assetId in ledgers
      modifies Footprint()
      ensures OnlyMoves(e.assetId) && Keyed() && e.assetId in ledgers && Currency() == old(Currency())
      ensures var c := Open(how, old(AccountOf(e.assetId)), Currency(), e);
        error == ErrorOf(c.outcome) && AccountOf(e.assetId) == c.account
    {
      hide LotLedger.Model, AcbPool.View, View, PoolAcquire, Lots.OpenLot, Objects, Holds, Apart, OnlyMoves,
        LotLedger.Valid, Open;
      var id := e.assetId;
      OpenCases(AccountOf(id), Currency(), e);
      OwnsAccount(id);
      AssetsDiffer(id);
      var r := OpenLedger(id, e);
      if r.Err? {
        return Some(r.error);
      }
      error := None;
      if how.Acb? {
        error := JoinPool(id, e);
        PoolOnlyMoves(id);
      }
    }

    /** The ledger's part of a disposal. */
    method SellFrom(id: string, e: Event) returns (r: Result<Consumed>)
      requires Valid() && id in ledgers
      modifies ledgers[id], ledgers[id].lots
      ensures OnlyMoves(id)
      ensures ledgers[id].Valid() && forall l | l in ledgers[id].lots :: l in old(ledgers[id].lots)
      ensures Consumption(ledgers[id].Model(), r)
           == Lots.Consume(Pruning, old(ledgers[id].Model()), e.quantity, Select(how))
    {
      hide LotLedger.Model, AcbPool.View, View, Lots.Consume, Select, Objects, Apart, LotLedger.Valid;
      AssetsDiffer(id);
      LedgerValid(id);
      r := ledgers[id].Consume(e.quantity, Select(how));
    }

    lemma LedgerValid(id: string)
      requires Valid() && id in ledgers
      ensures ledgers[id].Valid() && ledgers[id].kind.Pruning?
    {
    }

    /** The pool's part of a disposal, capped at what the pool holds. */
    method DrawPool(id: string, e: Event) returns (r: Result<Option<real>>)
      modifies this`pools, if id in pools then {pools[id]} else {}
      ensures id in pools && pools == old(pools)[id := pools[id]]
      ensures if id in old(pools) then pools[id] == old(pools[id]) else fresh(pools[id])
      ensures var pool := if id in old(pools) then old(pools[id].View()) else FreshPool(Currency());
        match PoolDispose(pool, Quantity(Min(e.quantity.raw, pool.raw), e.quantity.decimals))
        case Ok(slice) => r == Ok(slice.basis) && pools[id].View() == slice.pool
        case Err(x) => r == Err(x) && pools[id].View() == pool
    {
      hide PoolDispose;
      var pool := PoolFor(id);
      r := pool.Dispose(Quantity(Min(e.quantity.raw, pool.raw), e.quantity.decimals));
    }

    /** What the consumed pieces cost: the pool's average under ACB, their portions otherwise. */
    method Charge(id: string, e: Event, consumed: Consumed) returns (r: Result<Sold>)
      modifies this`pools, if id in pools then {pools[id]} else {}
      ensures PoolsMoved(id)
      ensures (PoolOfAsset(id), r) == Charged(old(PoolOfAsset(id)), Currency(), e, consumed)
    {
      hide PoolDispose, SumPortions;
      if !how.Acb? {
        var basis := BasisLoop(consumed.pieces);
        return Ok(Sold(basis, consumed.shortfall));
      }
      var drawn := DrawPool(id, e);
      r := if drawn.Err? then Err(drawn.error) else Ok(Sold(drawn.value, consumed.shortfall));
    }

    /** `_dispose`, up to the booking. */
    method Dispose(e: Event) returns (r: Result<Sold>)
      requires Valid() && e.Disposal? && e.assetId in ledgers
      modifies Footprint()
      ensures OnlyMoves(e.assetId) && Keyed() && e.assetId in ledgers && Currency() == old(Currency())
      ensures var c := Sell(how, old(AccountOf(e.assetId)), Currency(), e);
        r == c.outcome && AccountOf(e.assetId) == c.account
    {
      hide LotLedger.Model, AcbPool.View, View, Charged, Lots.Consume, Objects, Holds, Apart, OnlyMoves,
        LotLedger.Valid, Sell, PoolOfAsset, Select;
      var id := e.assetId;
      ghost var a := AccountOf(id);
      OwnsAccount(id);
      AssetsDiffer(id);
      var consumed := SellFrom(id, e);
      if consumed.Err? {
        SellRefused(a, Currency(), e, ledgers[id].Model(), consumed.error);
        return Err(consumed.error);
      }
      SellCharges(a, Currency(), e, ledgers[id].Model(), consumed.value);
      r := Charge(id, e, consumed.value);
      PoolOnlyMoves(id);
    }

    /** The exact sum of the portions, abandoned at the first unpriced piece. */
    static method BasisLoop(pieces: seq<Piece>) returns (basis: Option<real>)
      ensures basis == SumPortions(pieces)
    {
      var total := 0.0;
      var k := 0;
      assert pieces[0..] == pieces;
      while k < |pieces|
        invariant 0 <= k <= |pieces|
        invariant SumPortions(pieces) ==
          if SumPortions(pieces[k..]).None? then None else Some(total + SumPortions(pieces[k..]).value)
      {
        assert pieces[k..][1..] == pieces[k + 1..];
        if pieces[k].portion.None? {
          return None;
        }
        total := total + pieces[k].portion.value;
        k := k + 1;
      }
      return Some(total);
    }

    lemma ViewShows(id: string)
      requires Keyed() && id in ledgers
      ensures id in View().accounts && View().accounts[id] == AccountOf(id)
      ensures View().how == how && CurrencyOf(View()) == Currency() && View().disposals == disposals
      ensures View().accounts.Keys == ledgers.Keys
    {
    }

    /** The last lines of the loop body. */
    method Settle(booked: seq<DisposalRecord>, atMs: int)
      requires Valid()
      modifies this`disposals, this`lastAtMs
      ensures Valid() && Footprint() == old(Footprint())
      ensures View() == old(View()).(disposals := old(View()).disposals + booked, lastAtMs := atMs)
    {
      hide LotLedger.Model, AcbPool.View, Holds, Apart, Objects;
      disposals := disposals + booked;
      lastAtMs := atMs;
      AccountsStay();
      HoldsIsView(State(how, currency, lastAtMs, disposals, assets, old(View()).accounts));
    }

    function Replaced(s: State, id: string, account: Account): State {
      s.(accounts := s.accounts[id := account])
    }

    /** After one asset moved, the state is the old one with its account replaced. */
    twostate lemma Moved(id: string, new account: Account)
      requires old(Valid()) && OnlyMoves(id) && Keyed() && AccountOf(id) == account
      ensures Valid() && forall o | o in Footprint() :: o in old(Footprint()) || fresh(o)
      ensures View() == Replaced(old(View()), id, account)
    {
      hide LotLedger.Model, AcbPool.View, Holds, View, Apart, Objects, OnlyMoves;
      MovedIsValid(id);
      MovedIsFresh(id);
      MovedHolds(id, account);
      HoldsIsView(Replaced(old(View()), id, account));
    }

    /** One asset's half of the turn, once its account is open and the currency settled. */
    method Turn(fx: Boundary, e: Event) returns (error: Option<Error>)
      requires Valid() && e.assetId in ledgers
      modifies Footprint()
      ensures Valid() && forall o | o in Footprint() :: o in old(Footprint()) || fresh(o)
      ensures e.assetId in old(View()).accounts && Stepped(View(), error) == StepAccount(fx, old(View()), e)
    {
      hide LotLedger.Model, AcbPool.View, Holds, View, Apart, Objects, OnlyMoves, Open, Sell, BookDisposal, Faithful;
      ViewShows(e.assetId);
      if e.Acquisition? {
        error := Acquire(e);
        Moved(e.assetId, AccountOf(e.assetId));
        if error.None? {
          Settle([], e.atMs);
          assert old(View()).disposals + [] == old(View()).disposals;
        }
      } else {
        var sold := Dispose(e);
        Moved(e.assetId, AccountOf(e.assetId));
        error := ErrorOf(sold);
        if sold.Ok? {
          Settle([BookDisposal(fx, Currency(), e, sold.value)], e.atMs);
        }
      }
    }

    /** One turn of the loop in `process`. */
    method One(fx: Boundary, e: Event) returns (error: Option<Error>)
      requires Valid()
      modifies Footprint()
      ensures Valid() && forall o | o in Footprint() :: o in old(Footprint()) || fresh(o)
      ensures Stepped(View(), error) == ProcessOne(fx, old(View()), e)
    {
      hide LotLedger.Model, AcbPool.View, Holds, View, Apart, Objects, StepAccount, Pnl.Touch, Pnl.FixCurrency,
        Faithful;
      ghost var s := View();
      ClockShows();
      OwnsPools();
      if e.atMs < lastAtMs {
        return Some(ValidationError);
      }
      Touch(e);
      HoldsIsView(Pnl.Touch(s, e));
      error := FixCurrency(if e.Acquisition? then e.cost else e.proceeds);
      if error.Some? {
        HoldsIsView(Pnl.Touch(s, e));
        return;
      }
      HoldsIsView(Pnl.FixCurrency(Pnl.Touch(s, e), if e.Acquisition? then e.cost else e.proceeds).value);
      error := Turn(fx, e);
    }

    lemma OwnsPools()
      ensures forall pool | pool in pools.Values :: pool in Footprint()
    {
    }

    lemma ClockShows()
      requires Keyed()
      ensures View().lastAtMs == lastAtMs
    {
    }

    /** `process`. */
    method Process(fx: Boundary, events: seq<Event>) returns (error: Option<Error>)
      requires Valid()
      modifies Footprint()
      ensures Valid() && forall o | o in Footprint() :: o in old(Footprint()) || fresh(o)
      ensures Stepped(View(), error) == Pnl.Process(fx, old(View()), events)
    {
      hide LotLedger.Model, AcbPool.View, View, Apart, Objects, ProcessOne, Faithful;
      error := None;
      var k := 0;
      assert events[0..] == events;
      while k < |events|
        invariant 0 <= k <= |events| && error.None?
        invariant Valid() && forall o | o in Footprint() :: o in old(Footprint()) || fresh(o)
        invariant Pnl.Process(fx, old(View()), events) == Pnl.Process(fx, View(), events[k..])
      {
        assert events[k..][1..] == events[k + 1..];
        error := One(fx, events[k]);
        if error.Some? {
          return;
        }
        k := k + 1;
      }
    }

    /** `process` on an existing state: a state replays one method for good. */
    method Resume(fx: Boundary, events: seq<Event>, costing: Method) returns (error: Option<Error>)
      requires Valid()
      modifies Footprint()
      ensures Valid() && forall o | o in Footprint() :: o in old(Footprint()) || fresh(o)
      ensures costing != how ==> error == Some(ValidationError) && View() == old(View())
      ensures costing == how ==> Stepped(View(), error) == Pnl.Process(fx, old(View()), events)
    {
      if costing != how {
        return Some(ValidationError);
      }
      error := Process(fx, events);
    }

    /** The sums over the booked disposals at the head of `report`. */
    method SumDisposals() returns (realized: real, missing: nat, byAsset: map<string, real>)
      ensures realized == RealizedSum(disposals) && missing == MissingCount(disposals)
      ensures forall a: string :: RealizedOf(disposals, a) == if a in byAsset then byAsset[a] else 0.0
    {
      realized, missing, byAsset := 0.0, 0, map[];
      for i := 0 to |disposals|
        invariant realized == RealizedSum(disposals[..i]) && missing == MissingCount(disposals[..i])
        invariant forall a: string :: RealizedOf(disposals[..i], a) == if a in byAsset then byAsset[a] else 0.0
      {
        assert disposals[..i + 1][..i] == disposals[..i];
        var record := disposals[i];
        if record.realized.None? {
          missing := missing + 1;
        } else {
          var amount := record.realized.value.amount;
          realized := realized + amount;
          var running := if record.assetId in byAsset then byAsset[record.assetId] else 0.0;
          byAsset := byAsset[record.assetId := running + amount];
        }
      }
      assert disposals[..|disposals|] == disposals;
    }

    /** The totals over the accounts: unknown together, as soon as one is. */
    method SumAccounts(marks: Marks, ghost s: State) returns (total: Option<real>, basis: Option<real>)
      requires Reads(s)
      ensures total == TotalGap(s, assets, marks)
      ensures basis == if total.None? then None else Some(TotalCosted(s, assets))
    {
      hide MarkValue, BasisLeft, UnitsLeft, AccountOf;
      total, basis := Some(0.0), Some(0.0);
      for i := 0 to |assets|
        invariant total == TotalGap(s, assets[..i], marks)
        invariant basis == if total.None? then None else Some(TotalCosted(s, assets[..i]))
      {
        assert assets[..i + 1][..i] == assets[..i];
        var a := AccountOf(assets[i]);
        var gap := Gap(how, a, MarkOf(marks, assets[i]));
        if gap.None? {
          total, basis := None, None;
        } else if total.Some? {
          total := Some(total.value + gap.value);
        }
        if basis.Some? {
          var held := HeldBasis(how, a);
          basis := Some(basis.value + (if UnitsLeft(a) == 0 || held.None? then 0.0 else held.value));
        }
      }
      assert assets[..|assets|] == assets;
    }

    /** One asset's slice and open-lot rows. */
    method SliceOne(fx: Boundary, id: string, marks: Marks, byAsset: map<string, real>, ghost s: State)
      returns (slice: AssetPnL, own: seq<TaxLot>)
      requires Reads(s) && id in assets && RealizedOf(disposals, id) == if id in byAsset then byAsset[id] else 0.0
      ensures slice == AssetSlice(fx, s, id, marks) && own == Rows(fx, s, id, marks)
    {
      hide AccountOf, Faithful, Gap, UnitsLeft;
      var a := AccountOf(id);
      var gap := Gap(how, a, MarkOf(marks, id));
      own := TaxLots(fx, OpenLots(a.ledger.lots), MarkOf(marks, id), Currency());
      slice := AssetPnL(
        Money(if id in byAsset then byAsset[id] else 0.0, Currency()), Cross(fx, gap, Currency()),
        Quantity(UnitsLeft(a), a.scale), Inexact(fx, gap) || AnyRounded(own));
    }

    /** The per-asset slices and the open-lot rows. */
    method SliceAccounts(fx: Boundary, marks: Marks, byAsset: map<string, real>, ghost s: State)
      returns (perAsset: map<string, AssetPnL>, rows: seq<TaxLot>)
      requires Reads(s)
      requires forall a: string :: RealizedOf(disposals, a) == if a in byAsset then byAsset[a] else 0.0
      ensures perAsset == PerAsset(fx, s, assets, marks)
      ensures rows == AllRows(fx, s, assets, marks)
    {
      hide AssetSlice, Rows, AccountOf, Faithful;
      perAsset, rows := map[], [];
      for i := 0 to |assets|
        invariant perAsset == PerAsset(fx, s, assets[..i], marks)
        invariant rows == AllRows(fx, s, assets[..i], marks)
      {
        assert assets[..i + 1][..i] == assets[..i];
        var slice, own := SliceOne(fx, assets[i], marks, byAsset, s);
        perAsset := perAsset[assets[i] := slice];
        rows := rows + own;
      }
      assert assets[..|assets|] == assets;
    }

    /** `report`: nothing is modified, so reports may be taken at any point of a
        replay without changing what follows. */
    method Report(fx: Boundary, asOfMs: int, marks: Marks) returns (r: Result<PnLReport>)
      requires Keyed() && forall a :: a in assets ==> a in ledgers
      ensures forall a :: a in View().assets ==> a in View().accounts
      ensures r == ReportOf(fx, View(), asOfMs, marks)
    {
      hide View, Faithful, TotalGap, TotalCosted, PerAsset, AllRows, AccountOf, Holds, Objects;
      ghost var s := View();
      ViewReads();
      if ForeignMark(marks, Currency()) {
        return Err(CurrencyMismatchError);
      }
      var realized, missing, byAsset := SumDisposals();
      var total, basis := SumAccounts(marks, s);
      var perAsset, rows := SliceAccounts(fx, marks, byAsset, s);
      AccountsStay();
      HoldsIsView(s);
      return Ok(PnLReport(
        asOfMs, how, Money(realized, Currency()), missing, Cross(fx, total, Currency()), perAsset, rows,
        Inexact(fx, total) || AnyAssetRounded(perAsset),
        Cross(fx, basis, Currency())));
    }

    /** What a report reads of the state is this value. */
    ghost predicate Reads(s: State)
      reads this, ledgers.Values, Footprint()
    {
      && Keyed() && (forall a :: a in assets ==> a in ledgers && a in s.accounts)
      && s.how == how && s.currency == currency && s.disposals == disposals && s.assets == assets
      && (forall a | a in assets :: (OwnsAccount(a); AccountOf(a)) == s.accounts[a])
    }

    lemma ViewReads()
      requires Keyed() && forall a :: a in assets ==> a in ledgers
      ensures Reads(View()) && View() == State(how, currency, lastAtMs, disposals, assets, View().accounts)
    {
    }
  }

  function ErrorOf<T>(r: Result<T>): Option<Error> {
    if r.Err? then Some(r.error) else None
  }
}
