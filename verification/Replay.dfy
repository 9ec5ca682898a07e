/** Invariants of the replay engine over whole streams (accounting/pnl.py). */
module Replay {
  import opened Common
  import opened Lots
  import opened Selection
  import opened Pnl
  import opened Rounding
  import opened Basis
  import opened Accounts

  /** Each asset is seen once, and each account is valid in the stream's currency. */
  ghost predicate ValidState(s: State) {
    && (forall a :: a in s.assets <==> a in s.accounts)
    && (forall i, j | 0 <= i < j < |s.assets| :: s.assets[i] != s.assets[j])
    && (forall a :: a in s.accounts ==> ValidAccount(s.how, s.accounts[a], a, s.currency))
  }

  ghost predicate AssetPriced(s: State, assetId: string) {
    assetId in s.accounts ==> Accounts.Priced(s.how, s.accounts[assetId])
  }

  ghost predicate PricedState(s: State) {
    forall a :: a in s.accounts ==> AssetPriced(s, a)
  }

  /** Units of an asset still held. */
  function Units(s: State, assetId: string): nat {
    if assetId in s.accounts then UnitsLeft(s.accounts[assetId]) else 0
  }

  function Left(s: State, assetId: string): real {
    if assetId in s.accounts && BasisLeft(s.how, s.accounts[assetId]).Some? then
      BasisLeft(s.how, s.accounts[assetId]).value
    else 0.0
  }

  // ------------------------------------------------------- touch and fix

  lemma TouchKeepsValid(s: State, e: Event)
    requires ValidState(s)
    ensures ValidState(Touch(s, e)) && e.assetId in Touch(s, e).accounts
  {
    var t := Touch(s, e);
    forall a | a in t.accounts
      ensures ValidAccount(t.how, t.accounts[a], a, t.currency)
    {
      if a != e.assetId {
        assert t.accounts[a] == s.accounts[a];
      }
    }
  }

  /** Seeing an asset changes no total. */
  lemma TouchKeepsAccount(s: State, e: Event, a: string)
    requires ValidState(s)
    ensures Units(Touch(s, e), a) == Units(s, a) && Left(Touch(s, e), a) == Left(s, a)
    ensures AssetPriced(s, a) ==> AssetPriced(Touch(s, e), a)
  {
  }

  lemma TouchKeeps(s: State, e: Event)
    requires ValidState(s)
    ensures ValidState(Touch(s, e)) && e.assetId in Touch(s, e).accounts
    ensures PricedState(s) ==> PricedState(Touch(s, e))
    ensures forall a :: Units(Touch(s, e), a) == Units(s, a) && Left(Touch(s, e), a) == Left(s, a)
  {
    TouchKeepsValid(s, e);
    forall a
      ensures Units(Touch(s, e), a) == Units(s, a) && Left(Touch(s, e), a) == Left(s, a)
      ensures AssetPriced(s, a) ==> AssetPriced(Touch(s, e), a)
    {
      TouchKeepsAccount(s, e, a);
    }
  }

  function PricedBy(e: Event): Option<Money> {
    if e.Acquisition? then e.cost else e.proceeds
  }

  lemma FixKeepsAccount(s: State, priced: Option<Money>, a: string)
    requires ValidState(s) && FixCurrency(s, priced).Ok? && a in s.accounts
    ensures var t := FixCurrency(s, priced).value;
      && a in t.accounts && ValidAccount(t.how, t.accounts[a], a, t.currency)
      && (Accounts.Priced(s.how, s.accounts[a]) ==> Accounts.Priced(t.how, t.accounts[a]))
      && UnitsLeft(t.accounts[a]) == UnitsLeft(s.accounts[a]) && Left(t, a) == Left(s, a)
  {
    assert ValidAccount(s.how, s.accounts[a], a, s.currency);
  }

  lemma FixKeepsRest(s: State, priced: Option<Money>)
    requires FixCurrency(s, priced).Ok?
    ensures var t := FixCurrency(s, priced).value;
      && t.accounts.Keys == s.accounts.Keys && t.assets == s.assets && t.disposals == s.disposals && t.how == s.how
      && (priced.Some? ==> t.currency == Some(priced.value.currency))
  {
  }

  lemma FixKeeps(s: State, priced: Option<Money>)
    requires ValidState(s) && FixCurrency(s, priced).Ok?
    ensures var t := FixCurrency(s, priced).value;
      && ValidState(t) && t.accounts.Keys == s.accounts.Keys
      && (PricedState(s) ==> PricedState(t))
      && (forall a :: Units(t, a) == Units(s, a) && Left(t, a) == Left(s, a))
      && (priced.Some? ==> t.currency == Some(priced.value.currency))
  {
    hide FixCurrency, ValidAccount, UnitsLeft, BasisLeft, Accounts.Priced;
    var t := FixCurrency(s, priced).value;
    FixKeepsRest(s, priced);
    forall a | a in s.accounts
      ensures ValidAccount(t.how, t.accounts[a], a, t.currency)
      ensures Accounts.Priced(s.how, s.accounts[a]) ==> Accounts.Priced(t.how, t.accounts[a])
      ensures UnitsLeft(t.accounts[a]) == UnitsLeft(s.accounts[a]) && Left(t, a) == Left(s, a)
    {
      FixKeepsAccount(s, priced, a);
    }
  }

  // ----------------------------------------------------------- one event

  /** After any event, raised or not, pools are in step with their lots and
      every ledger is sound. */
  lemma StepKeepsValid(fx: Boundary, s: State, e: Event)
    requires ValidState(s)
    ensures ValidState(ProcessOne(fx, s, e).state)
  {
    hide ValidState, StepAccount, FixCurrency, Touch;
    if e.atMs >= s.lastAtMs {
      TouchKeeps(s, e);
      var fixed := FixCurrency(Touch(s, e), PricedBy(e));
      if fixed.Ok? {
        FixKeeps(Touch(s, e), PricedBy(e));
        AccountStepKeepsValid(fx, fixed.value, e);
      }
    }
  }

  lemma AccountStepKeepsValid(fx: Boundary, s: State, e: Event)
    requires ValidState(s) && e.assetId in s.accounts
    requires PricedBy(e).Some? ==> s.currency == Some(PricedBy(e).value.currency)
    ensures ValidState(StepAccount(fx, s, e).state)
    ensures StepAccount(fx, s, e).error.None? <==> !WrongScale(s.accounts[e.assetId].ledger.book, e.quantity)
  {
    hide Open, Sell, BookDisposal, ValidAccount;
    var t := StepAccount(fx, s, e).state;
    if e.Acquisition? {
      OpenKeepsValid(s.how, s.accounts[e.assetId], e.assetId, s.currency, e);
    } else {
      SellKeepsValid(s.how, s.accounts[e.assetId], e.assetId, s.currency, e);
    }
    forall a | a in t.accounts
      ensures ValidAccount(t.how, t.accounts[a], a, t.currency)
    {
      if a != e.assetId {
        assert t.accounts[a] == s.accounts[a];
      }
    }
  }

  /** Units held after an event, whatever the method: a disposal takes what there
      is, up to its need. */
  function UnitsNext(units: nat, e: Event, assetId: string): nat {
    if e.assetId != assetId then units
    else if e.Acquisition? then units + e.quantity.raw
    else units - Min(e.quantity.raw, units)
  }

  lemma AccountStepUnits(fx: Boundary, s: State, e: Event, assetId: string)
    requires ValidState(s) && e.assetId in s.accounts && StepAccount(fx, s, e).error.None?
    requires PricedBy(e).Some? ==> s.currency == Some(PricedBy(e).value.currency)
    ensures Units(StepAccount(fx, s, e).state, assetId) == UnitsNext(Units(s, assetId), e, assetId)
  {
    hide Open, Sell, BookDisposal, ValidAccount;
    if e.Acquisition? {
      OpenKeepsValid(s.how, s.accounts[e.assetId], e.assetId, s.currency, e);
    } else {
      SellKeepsValid(s.how, s.accounts[e.assetId], e.assetId, s.currency, e);
    }
  }


  lemma OneAccount(s: State, assetId: string)
    requires ValidState(s) && assetId in s.accounts
    ensures ValidAccount(s.how, s.accounts[assetId], assetId, s.currency)
    ensures assetId in s.assets && forall i, j | 0 <= i < j < |s.assets| :: s.assets[i] != s.assets[j]
  {
  }

  lemma AccountStepKeepsUnits(fx: Boundary, s: State, e: Event, assetId: string)
    requires ValidState(s) && e.assetId in s.accounts && StepAccount(fx, s, e).error.Some?
    requires PricedBy(e).Some? ==> s.currency == Some(PricedBy(e).value.currency)
    ensures Units(StepAccount(fx, s, e).state, assetId) == Units(s, assetId)
  {
    AccountStepKeepsValid(fx, s, e);
  }

  /** Units held after an event, whatever the method and the prices. */
  lemma StepUnits(fx: Boundary, s: State, e: Event, assetId: string)
    requires ValidState(s)
    ensures Units(ProcessOne(fx, s, e).state, assetId) ==
      if ProcessOne(fx, s, e).error.Some? then Units(s, assetId) else UnitsNext(Units(s, assetId), e, assetId)
  {
    hide ValidState, StepAccount, FixCurrency, Touch, Units;
    if e.atMs >= s.lastAtMs {
      TouchKeeps(s, e);
      var fixed := FixCurrency(Touch(s, e), PricedBy(e));
      if fixed.Ok? {
        FixKeeps(Touch(s, e), PricedBy(e));
        if StepAccount(fx, fixed.value, e).error.None? {
          AccountStepUnits(fx, fixed.value, e, assetId);
        } else {
          AccountStepKeepsUnits(fx, fixed.value, e, assetId);
        }
      }
    }
  }

  // --------------------------------------------------------- whole streams

  /** Every state reachable from a fresh one, past any number of events and even
      after one that raised, has its pools in step and its ledgers sound. */
  lemma {:induction false} ProcessKeepsValid(fx: Boundary, s: State, events: seq<Event>)
    requires ValidState(s)
    ensures ValidState(Process(fx, s, events).state)
    decreases |events|
  {
    if events != [] {
      StepKeepsValid(fx, s, events[0]);
      ProcessKeepsValid(fx, ProcessOne(fx, s, events[0]).state, events[1..]);
    }
  }


  /** Units of an asset after a stream, under any method. */
  function UnitsAfter(units: nat, events: seq<Event>, assetId: string): nat
    decreases |events|
  {
    if events == [] then units else UnitsAfter(UnitsNext(units, events[0], assetId), events[1..], assetId)
  }

  /** Disposals are only ever appended. */
  lemma {:induction false} RecordsGrow(fx: Boundary, s: State, events: seq<Event>)
    ensures |s.disposals| <= |Process(fx, s, events).state.disposals|
    ensures Process(fx, s, events).state.disposals[..|s.disposals|] == s.disposals
    decreases |events|
  {
    if events != [] {
      OneRecordAtMost(fx, s, events[0]);
      RecordsGrow(fx, ProcessOne(fx, s, events[0]).state, events[1..]);
    }
  }

  lemma OneRecordAtMost(fx: Boundary, s: State, e: Event)
    ensures |s.disposals| <= |ProcessOne(fx, s, e).state.disposals|
    ensures ProcessOne(fx, s, e).state.disposals[..|s.disposals|] == s.disposals
  {
  }

  /** An error-free stream leaves the same units under every method. */
  lemma {:induction false} ProcessUnits(fx: Boundary, s: State, events: seq<Event>, assetId: string)
    requires ValidState(s) && Process(fx, s, events).error.None?
    ensures Units(Process(fx, s, events).state, assetId) == UnitsAfter(Units(s, assetId), events, assetId)
    decreases |events|
  {
    hide ProcessOne, Units;
    if events != [] {
      StepUnits(fx, s, events[0], assetId);
      StepKeepsValid(fx, s, events[0]);
      ProcessUnits(fx, ProcessOne(fx, s, events[0]).state, events[1..], assetId);
    }
  }

  // ------------------------------------------------- what no method changes

  /** The part of a state that does not depend on which lots were chosen. */
  datatype Frame = Frame(assets: seq<string>, currency: Option<string>, lastAtMs: int, books: map<string, Listing>)

  datatype Listing = Listing(scale: nat, book: Book)

  function FrameOf(s: State): Frame {
    Frame(s.assets, s.currency, s.lastAtMs,
          map a | a in s.accounts :: Listing(s.accounts[a].scale, s.accounts[a].ledger.book))
  }

  function TouchFrame(f: Frame, e: Event): Frame {
    if e.assetId in f.books then
      f.(books := f.books[e.assetId := f.books[e.assetId].(scale := e.quantity.decimals)])
    else
      f.(assets := f.assets + [e.assetId],
         books := f.books[e.assetId := Listing(e.quantity.decimals, EmptyLedger(e.assetId).book)])
  }

  /** Why an event is refused, if it is. */
  function RefusalOf(f: Frame, e: Event): Option<Error> {
    if e.atMs < f.lastAtMs then Some(ValidationError)
    else if PricedBy(e).Some? && f.currency.Some? && PricedBy(e).value.currency != f.currency.value then
      Some(CurrencyMismatchError)
    else if e.assetId in f.books && WrongScale(f.books[e.assetId].book, e.quantity) then Some(DecimalsMismatchError)
    else None
  }

  function FixFrame(f: Frame, e: Event): Frame {
    f.(currency := if PricedBy(e).Some? then Some(PricedBy(e).value.currency) else f.currency)
  }

  function BookFrame(f: Frame, e: Event): Frame {
    var g := f.(lastAtMs := e.atMs);
    if e.Acquisition? && e.assetId in g.books then
      g.(books := g.books[e.assetId := g.books[e.assetId].(book := Booked(g.books[e.assetId].book, e))])
    else g
  }

  /** The frame after an event.  One refused for its currency or scale still leaves the
      asset seen at its scale, and one refused for its scale, the currency bound. */
  function NextFrame(f: Frame, e: Event): Frame {
    var refusal := RefusalOf(f, e);
    var t := TouchFrame(f, e);
    if refusal == Some(ValidationError) then f
    else if refusal == Some(CurrencyMismatchError) then t
    else if refusal.Some? then FixFrame(t, e)
    else BookFrame(FixFrame(t, e), e)
  }

  lemma TouchFrames(s: State, e: Event)
    ensures FrameOf(Touch(s, e)) == TouchFrame(FrameOf(s), e)
  {
  }

  lemma FixFrames(s: State, priced: Option<Money>)
    requires FixCurrency(s, priced).Ok?
    ensures FrameOf(FixCurrency(s, priced).value)
         == FrameOf(s).(currency := if priced.Some? then Some(priced.value.currency) else s.currency)
  {
  }

  lemma AccountFrames(s: State, assetId: string, a: Account)
    requires assetId in s.accounts
    ensures FrameOf(s.(accounts := s.accounts[assetId := a]))
         == FrameOf(s).(books := FrameOf(s).books[assetId := Listing(a.scale, a.ledger.book)])
  {
  }

  lemma {:induction false} SellKeepsBook(how: Method, a: Account, currency: string, e: Event)
    ensures Sell(how, a, currency, e).account.ledger.book == a.ledger.book
    ensures Sell(how, a, currency, e).account.scale == a.scale
  {
  }

  lemma SellFrames(fx: Boundary, s: State, e: Event)
    requires ValidState(s) && e.assetId in s.accounts && e.Disposal?
    ensures var r := StepAccount(fx, s, e);
      if WrongScale(s.accounts[e.assetId].ledger.book, e.quantity) then
        r.error == Some(DecimalsMismatchError) && FrameOf(r.state) == FrameOf(s)
      else r.error == None && FrameOf(r.state) == BookFrame(FrameOf(s), e)
  {
    var a := s.accounts[e.assetId];
    SellKeepsValid(s.how, a, e.assetId, s.currency, e);
    SellKeepsBook(s.how, a, CurrencyOf(s), e);
    AccountFrames(s, e.assetId, Sell(s.how, a, CurrencyOf(s), e).account);
    var f := FrameOf(s);
    assert f.books[e.assetId := f.books[e.assetId]] == f.books;
  }

  lemma OpenBooks(how: Method, a: Account, currency: string, e: Event)
    requires e.Acquisition?
    ensures var c := Open(how, a, currency, e);
      && c.account.scale == a.scale
      && (OpenLot(a.ledger, e).Ok? ==> c.account.ledger.book == Booked(a.ledger.book, e))
      && (OpenLot(a.ledger, e).Err? ==> c == Change(a, Err(OpenLot(a.ledger, e).error)))
  {
  }

  lemma OpenFrames(fx: Boundary, s: State, e: Event)
    requires ValidState(s) && e.assetId in s.accounts && e.Acquisition?
    requires e.cost.Some? ==> s.currency == Some(e.cost.value.currency)
    ensures var r := StepAccount(fx, s, e);
      if WrongScale(s.accounts[e.assetId].ledger.book, e.quantity) then
        r.error == Some(DecimalsMismatchError) && FrameOf(r.state) == FrameOf(s)
      else r.error == None && FrameOf(r.state) == BookFrame(FrameOf(s), e)
  {
    hide Sound, Open, Booked;
    var a := s.accounts[e.assetId];
    OpenBooks(s.how, a, CurrencyOf(s), e);
    OpenKeepsValid(s.how, a, e.assetId, s.currency, e);
    AccountFrames(s, e.assetId, Open(s.how, a, CurrencyOf(s), e).account);
  }

  lemma TouchedAndFixed(s: State, e: Event)
    requires ValidState(s) && FixCurrency(Touch(s, e), PricedBy(e)).Ok?
    ensures var t := FixCurrency(Touch(s, e), PricedBy(e)).value;
      && ValidState(t) && e.assetId in t.accounts
      && (PricedBy(e).Some? ==> t.currency == Some(PricedBy(e).value.currency))
  {
    TouchKeeps(s, e);
    FixKeeps(Touch(s, e), PricedBy(e));
  }

  lemma FixFails(s: State, e: Event)
    ensures FixCurrency(Touch(s, e), PricedBy(e)).Err? <==>
      PricedBy(e).Some? && s.currency.Some? && PricedBy(e).value.currency != s.currency.value
    ensures FixCurrency(Touch(s, e), PricedBy(e)).Err? ==>
      FixCurrency(Touch(s, e), PricedBy(e)).error == CurrencyMismatchError
  {
  }

  /** Once the currency is settled, the asset is seen, at its ledger's own scale or not. */
  lemma FixedFrames(s: State, e: Event)
    requires ValidState(s) && FixCurrency(Touch(s, e), PricedBy(e)).Ok?
    ensures var t := FixCurrency(Touch(s, e), PricedBy(e)).value;
      && e.assetId in t.accounts
      && FrameOf(t) == FixFrame(TouchFrame(FrameOf(s), e), e)
      && (WrongScale(t.accounts[e.assetId].ledger.book, e.quantity) <==>
            e.assetId in FrameOf(s).books && WrongScale(FrameOf(s).books[e.assetId].book, e.quantity))
  {
    hide ValidState;
    var t := FixCurrency(Touch(s, e), PricedBy(e)).value;
    TouchFrames(s, e);
    FixFrames(Touch(s, e), PricedBy(e));
    TouchedAndFixed(s, e);
    assert FrameOf(t).books[e.assetId] == Listing(t.accounts[e.assetId].scale, t.accounts[e.assetId].ledger.book);
  }

  /** Whether and how an event raises, and the frame it leaves, depend on the frame alone. */
  lemma StepFrames(fx: Boundary, s: State, e: Event)
    requires ValidState(s)
    ensures ProcessOne(fx, s, e).error == RefusalOf(FrameOf(s), e)
    ensures FrameOf(ProcessOne(fx, s, e).state) == NextFrame(FrameOf(s), e)
  {
    hide ValidState, StepAccount, FixCurrency, Touch, TouchFrame, FixFrame, BookFrame, WrongScale;
    if e.atMs >= s.lastAtMs {
      TouchFrames(s, e);
      FixFails(s, e);
      if FixCurrency(Touch(s, e), PricedBy(e)).Ok? {
        var t := FixCurrency(Touch(s, e), PricedBy(e)).value;
        TouchedAndFixed(s, e);
        FixedFrames(s, e);
        if e.Acquisition? {
          OpenFrames(fx, t, e);
        } else {
          SellFrames(fx, t, e);
        }
      }
    }
  }

  /** A replay seen from outside: its frame, its exception, and how many events went
      through before it. */
  datatype Outline = Outline(frame: Frame, error: Option<Error>, replayed: nat)

  function RunFrame(f: Frame, events: seq<Event>): Outline
    decreases |events|
  {
    if events == [] then Outline(f, None, 0)
    else if RefusalOf(f, events[0]).Some? then Outline(NextFrame(f, events[0]), RefusalOf(f, events[0]), 0)
    else
      var rest := RunFrame(NextFrame(f, events[0]), events[1..]);
      rest.(replayed := rest.replayed + 1)
  }

  function Replayed(fx: Boundary, s: State, events: seq<Event>): nat
    decreases |events|
  {
    if events == [] || ProcessOne(fx, s, events[0]).error.Some? then 0
    else 1 + Replayed(fx, ProcessOne(fx, s, events[0]).state, events[1..])
  }

  /** The exception a stream raises, the event it raises it at, and every fact of the
      replay but the choice of lots, are the same under every method. */
  lemma {:induction false} ProcessFrames(fx: Boundary, s: State, events: seq<Event>)
    requires ValidState(s)
    ensures var r := Process(fx, s, events);
      RunFrame(FrameOf(s), events) == Outline(FrameOf(r.state), r.error, Replayed(fx, s, events))
    decreases |events|
  {
    hide ProcessOne, FrameOf, ValidState, RefusalOf, NextFrame;
    if events != [] {
      StepFrames(fx, s, events[0]);
      StepKeepsValid(fx, s, events[0]);
      ProcessFrames(fx, ProcessOne(fx, s, events[0]).state, events[1..]);
    }
  }
}
