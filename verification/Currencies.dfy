/** The currencies of a replayed stream and of what it books (accounting/pnl.py). */
module Currencies {
  import opened Common
  import opened Lots
  import opened Selection
  import opened Pnl
  import opened Rounding
  import opened Replay
  import Decimals

  /** Proceeds and gain are in the stream's currency; a basis is too, unless it was booked
      before anything was priced, in dollars, and then it has no gain beside it. */
  ghost predicate RecordIn(r: DisposalRecord, currency: Option<string>) {
    && (r.proceeds.Some? ==> currency == Some(r.proceeds.value.currency))
    && (r.realized.Some? ==> currency == Some(r.realized.value.currency))
    && (r.costBasis.Some? ==>
          currency == Some(r.costBasis.value.currency) || (r.costBasis.value.currency == "USD" && r.proceeds.None?))
  }

  ghost predicate InCurrency(s: State) {
    forall r | r in s.disposals :: RecordIn(r, s.currency)
  }

  lemma BookedIn(fx: Boundary, currency: Option<string>, e: Event, sold: Sold)
    requires e.Disposal? && (e.proceeds.Some? ==> currency == Some(e.proceeds.value.currency))
    ensures RecordIn(BookDisposal(fx, if currency.Some? then currency.value else "USD", e, sold), currency)
  {
    hide Faithful;
  }

  lemma AccountStepInCurrency(fx: Boundary, s: State, e: Event)
    requires InCurrency(s) && e.assetId in s.accounts
    requires PricedBy(e).Some? ==> s.currency == Some(PricedBy(e).value.currency)
    ensures InCurrency(StepAccount(fx, s, e).state) && StepAccount(fx, s, e).state.currency == s.currency
  {
    hide Open, Sell, BookDisposal, RecordIn;
    if e.Disposal? {
      var c := Sell(s.how, s.accounts[e.assetId], CurrencyOf(s), e);
      if c.outcome.Ok? {
        BookedIn(fx, s.currency, e, c.outcome.value);
      }
    }
  }

  /** Binding the currency leaves every record where it was. */
  lemma FixInCurrency(s: State, priced: Option<Money>)
    requires InCurrency(s) && FixCurrency(s, priced).Ok?
    ensures var t := FixCurrency(s, priced).value;
      && InCurrency(t) && (s.currency.Some? ==> t.currency == s.currency)
      && t.currency == if priced.Some? then Some(priced.value.currency) else s.currency
  {
  }

  lemma StepInCurrency(fx: Boundary, s: State, e: Event)
    requires InCurrency(s)
    ensures var r := ProcessOne(fx, s, e);
      && InCurrency(r.state) && (s.currency.Some? ==> r.state.currency == s.currency)
      && (r.error.None? ==>
            r.state.currency == if PricedBy(e).Some? then Some(PricedBy(e).value.currency) else s.currency)
  {
    hide StepAccount, FixCurrency, RecordIn;
    if e.atMs >= s.lastAtMs {
      var t := Touch(s, e);
      if FixCurrency(t, PricedBy(e)).Ok? {
        FixInCurrency(t, PricedBy(e));
        Fixed(s, e);
        AccountStepInCurrency(fx, FixCurrency(t, PricedBy(e)).value, e);
      }
    }
  }

  lemma Fixed(s: State, e: Event)
    requires FixCurrency(Touch(s, e), PricedBy(e)).Ok?
    ensures e.assetId in FixCurrency(Touch(s, e), PricedBy(e)).value.accounts
  {
  }

  /** In every state a replay reaches, raised or not, what it booked is in its currency. */
  lemma {:induction false} BookedInCurrency(fx: Boundary, s: State, events: seq<Event>)
    requires InCurrency(s)
    ensures InCurrency(Process(fx, s, events).state)
    ensures s.currency.Some? ==> Process(fx, s, events).state.currency == s.currency
    decreases |events|
  {
    hide ProcessOne, InCurrency;
    if events != [] {
      StepInCurrency(fx, s, events[0]);
      if ProcessOne(fx, s, events[0]).error.None? {
        BookedInCurrency(fx, ProcessOne(fx, s, events[0]).state, events[1..]);
      }
    }
  }

  /** Every basis among the records from the `n`-th on is in this currency. */
  ghost predicate BasesIn(records: seq<DisposalRecord>, n: nat, currency: string) {
    forall k | n <= k < |records| :: records[k].costBasis.Some? ==> records[k].costBasis.value.currency == currency
  }

  lemma StepBooksIn(fx: Boundary, s: State, e: Event)
    requires s.currency.Some?
    ensures BasesIn(ProcessOne(fx, s, e).state.disposals, |s.disposals|, s.currency.value)
  {
    hide Open, Sell, Faithful;
  }

  /** Once the currency is bound, every basis booked is in it too. */
  lemma {:induction false} BooksInBoundCurrency(fx: Boundary, s: State, events: seq<Event>)
    requires s.currency.Some? && InCurrency(s)
    ensures BasesIn(Process(fx, s, events).state.disposals, |s.disposals|, s.currency.value)
    decreases |events|
  {
    hide ProcessOne, InCurrency;
    if events != [] {
      var next := ProcessOne(fx, s, events[0]);
      StepInCurrency(fx, s, events[0]);
      StepBooksIn(fx, s, events[0]);
      if next.error.None? {
        BooksInBoundCurrency(fx, next.state, events[1..]);
        RecordsGrow(fx, next.state, events[1..]);
        var final := Process(fx, s, events).state.disposals;
        assert forall k | 0 <= k < |next.state.disposals| :: final[k] == next.state.disposals[k];
      }
    }
  }

  /** A stream that raised nothing has one currency: that of all its prices, or none yet. */
  lemma {:induction false} OneCurrency(fx: Boundary, s: State, events: seq<Event>)
    requires InCurrency(s) && Process(fx, s, events).error.None?
    ensures var currency := Process(fx, s, events).state.currency;
      && (forall e | e in events :: PricedBy(e).Some? ==> currency == Some(PricedBy(e).value.currency))
      && ((forall e | e in events :: PricedBy(e).None?) ==> currency == s.currency)
    decreases |events|
  {
    hide ProcessOne, InCurrency, PricedBy;
    if events != [] {
      var next := ProcessOne(fx, s, events[0]).state;
      assert events == [events[0]] + events[1..];
      StepInCurrency(fx, s, events[0]);
      OneCurrency(fx, next, events[1..]);
      BookedInCurrency(fx, next, events[1..]);
    }
  }

  /** Units of nothing held, first disposed of without a price and then for ten euros. */
  function SoldTwice(): seq<Event> {
    [Disposal(1, "eth", Quantity(1, 0), None, "a"),
     Disposal(2, "eth", Quantity(1, 0), Some(Money(10.0, "EUR")), "b")]
  }

  /** A basis booked before anything was priced stays in dollars though the stream is in euros. */
  lemma BasisStaysInDollars(fx: Boundary)
    ensures var r := Process(fx, NewState(Fifo), SoldTwice());
      && r.error.None? && r.state.currency == Some("EUR") && |r.state.disposals| == 2
      && r.state.disposals[0].costBasis == Some(Money(0.0, "USD"))
      && r.state.disposals[1].costBasis == Some(Money(0.0, "EUR"))
  {
    hide ProcessOne, Faithful;
    var (first, second) := (SoldTwice()[0], SoldTwice()[1]);
    NothingCharged(fx, NewState(Fifo), first);
    var s := ProcessOne(fx, NewState(Fifo), first).state;
    NothingCharged(fx, s, second);
    assert SoldTwice()[1..] == [second] && SoldTwice()[1..][1..] == [];
  }

  /** Disposing of an asset with no lots costs nothing. */
  lemma NothingCharged(fx: Boundary, s: State, e: Event)
    requires e.Disposal? && s.how == Fifo && e.atMs >= s.lastAtMs
    requires s.currency.None? || e.proceeds.None? || e.proceeds.value.currency == s.currency.value
    requires e.assetId !in s.accounts || s.accounts[e.assetId].ledger == EmptyLedger(e.assetId)
    ensures var r := ProcessOne(fx, s, e);
      && r.error.None? && |r.state.disposals| == |s.disposals| + 1 && r.state.disposals[..|s.disposals|] == s.disposals
      && r.state.how == Fifo && r.state.lastAtMs == e.atMs
      && r.state.currency == (if e.proceeds.Some? then Some(e.proceeds.value.currency) else s.currency)
      && r.state.disposals[|s.disposals|].costBasis
         == Some(Money(0.0, if r.state.currency.Some? then r.state.currency.value else "USD"))
      && e.assetId in r.state.accounts && r.state.accounts[e.assetId].ledger == EmptyLedger(e.assetId)
  {
    hide Faithful, Sell, EmptyLedger;
    ZeroCrosses(fx);
    var a := FixCurrency(Touch(s, e), e.proceeds).value.accounts[e.assetId];
    assert a.ledger == EmptyLedger(e.assetId);
    NothingSold(a, CurrencyOf(FixCurrency(Touch(s, e), e.proceeds).value), e);
  }

  lemma NothingSold(a: Account, currency: string, e: Event)
    requires e.Disposal? && a.ledger == EmptyLedger(e.assetId)
    ensures Sell(Fifo, a, currency, e) == Change(a, Ok(Sold(Some(0.0), e.quantity)))
  {
    EmptyLedgerPlans(e.quantity);
  }

  lemma ZeroCrosses(fx: Boundary)
    ensures fx(0.0) == Crossed(0.0, true)
  {
    assert Decimals.Value(Decimals.ZERO) == 0.0;
    assert Terminates(0.0);
    assert CrossesTo(0.0, fx(0.0));
  }

  lemma EmptyLedgerPlans(needed: Quantity)
    ensures Select(Fifo)([], needed) == Ok([])
  {
  }
}
