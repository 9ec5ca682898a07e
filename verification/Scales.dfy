/** The scale a report gives an asset's units, and the scale they were acquired at
    (accounting/pnl.py scales, accounting/report.py). */
module Scales {
  import opened Common
  import opened Decimals
  import opened Lots
  import opened Selection
  import opened SelectionSpec
  import opened Basis
  import opened Pnl
  import opened Rounding
  import opened Accounts
  import opened Report
  import opened Replay
  import Refinement

  /** The scale the report uses is the one the asset's lots are held at. */
  predicate AtOwnScale(s: State, a: string) {
    a in s.accounts && s.accounts[a].ledger.book.decimals == Some(s.accounts[a].scale)
  }

  /** Some acquisition of the asset has gone through. */
  predicate Acquired(s: State, a: string) {
    a in s.accounts && s.accounts[a].ledger.book.decimals.Some?
  }

  lemma HeldIsAcquired(s: State, a: string)
    requires ValidState(s) && Units(s, a) > 0
    ensures Acquired(s, a)
  {
    OneAccount(s, a);
    assert s.accounts[a].ledger.lots[0] in s.accounts[a].ledger.lots;
  }

  /** An event of the asset, not too late, at a scale its lots are not held at. */
  predicate OtherScale(s: State, e: Event, a: string)
    requires Acquired(s, a)
  {
    e.assetId == a && e.atMs >= s.lastAtMs && e.quantity.decimals != s.accounts[a].ledger.book.decimals.value
  }

  /** Such an event is always refused, and still moves the scale: nothing else does. */
  lemma StepKeepsScaleIff(fx: Boundary, s: State, e: Event, a: string)
    requires ValidState(s) && Acquired(s, a)
    ensures var r := ProcessOne(fx, s, e);
      && Acquired(r.state, a) && r.state.accounts[a].ledger.book.decimals == s.accounts[a].ledger.book.decimals
      && (OtherScale(s, e, a) ==> r.error.Some? && !AtOwnScale(r.state, a))
      && (AtOwnScale(s, a) ==> (AtOwnScale(r.state, a) <==> !OtherScale(s, e, a)))
  {
    hide ProcessOne, ValidState;
    StepFrames(fx, s, e);
    var t := ProcessOne(fx, s, e).state;
    Listed(s, a);
    Listed(t, a);
  }

  /** An account as its frame lists it. */
  lemma Listed(s: State, a: string)
    ensures a in s.accounts <==> a in FrameOf(s).books
    ensures a in s.accounts ==> FrameOf(s).books[a] == Listing(s.accounts[a].scale, s.accounts[a].ledger.book)
  {
  }

  /** Every asset ever acquired is at its own scale. */
  ghost predicate AllAtOwnScale(s: State) {
    forall a :: Acquired(s, a) ==> AtOwnScale(s, a)
  }

  lemma StepKeepsScales(fx: Boundary, s: State, e: Event)
    requires ValidState(s) && AllAtOwnScale(s) && ProcessOne(fx, s, e).error.None?
    ensures AllAtOwnScale(ProcessOne(fx, s, e).state)
  {
    hide ProcessOne, ValidState;
    StepFrames(fx, s, e);
    var t := ProcessOne(fx, s, e).state;
    forall a | Acquired(t, a)
      ensures AtOwnScale(t, a)
    {
      Listed(s, a);
      Listed(t, a);
      assert Acquired(s, a) ==> AtOwnScale(s, a);
    }
  }

  /** A replay that raised nothing reports every asset it acquired at its own scale. */
  lemma {:induction false} ErrorFreeAtOwnScale(fx: Boundary, s: State, events: seq<Event>)
    requires ValidState(s) && AllAtOwnScale(s) && Process(fx, s, events).error.None?
    ensures AllAtOwnScale(Process(fx, s, events).state)
    decreases |events|
  {
    hide ProcessOne, ValidState, AllAtOwnScale;
    if events != [] {
      StepKeepsScales(fx, s, events[0]);
      StepKeepsValid(fx, s, events[0]);
      ErrorFreeAtOwnScale(fx, ProcessOne(fx, s, events[0]).state, events[1..]);
    }
  }

  /** A replay that is at its own scales stops on an event of another scale. */
  ghost predicate StopsOnOtherScale(fx: Boundary, s: State, events: seq<Event>) {
    var n := Replayed(fx, s, events);
    && n < |events|
    && var (before, e) := (Process(fx, s, events[..n]).state, events[n]);
    Acquired(before, e.assetId) && OtherScale(before, e, e.assetId)
  }

  lemma StopMovesScaleIff(fx: Boundary, s: State, e: Event)
    requires ValidState(s) && AllAtOwnScale(s) && ProcessOne(fx, s, e).error.Some?
    ensures AllAtOwnScale(ProcessOne(fx, s, e).state) <==> !(Acquired(s, e.assetId) && OtherScale(s, e, e.assetId))
  {
    hide ProcessOne, ValidState;
    StepFrames(fx, s, e);
    var t := ProcessOne(fx, s, e).state;
    forall a
      ensures Acquired(t, a) <==> Acquired(s, a)
      ensures Acquired(s, a) ==> (AtOwnScale(t, a) <==> !OtherScale(s, e, a))
    {
      Listed(s, a);
      Listed(t, a);
    }
  }

  /** A replay from a state at its own scales ends at its own scales exactly when it did
      not stop on an in-time event of another scale. */
  lemma {:induction false} ReplayKeepsScalesIff(fx: Boundary, s: State, events: seq<Event>)
    requires ValidState(s) && AllAtOwnScale(s)
    ensures AllAtOwnScale(Process(fx, s, events).state) <==> !StopsOnOtherScale(fx, s, events)
    decreases |events|
  {
    hide ProcessOne, ValidState, AllAtOwnScale, Acquired, OtherScale;
    if events != [] {
      var next := ProcessOne(fx, s, events[0]);
      if next.error.Some? {
        assert events[..0] == [];
        StopMovesScaleIff(fx, s, events[0]);
      } else {
        StepKeepsScales(fx, s, events[0]);
        StepKeepsValid(fx, s, events[0]);
        ReplayKeepsScalesIff(fx, next.state, events[1..]);
        var n := Replayed(fx, s, events);
        assert n <= |events| ==> events[..n][0] == events[0] && events[..n][1..] == events[1..][..n - 1];
      }
    }
  }

  // ------------------------------------------------- the rows and the units

  /** The units of some rows, each at its own scale. */
  function RowUnits(rows: seq<TaxLot>): real {
    if rows == [] then 0.0
    else
      var q := rows[|rows| - 1].quantity;
      RowUnits(rows[..|rows| - 1]) + Value(AsDecimal(q.raw, q.decimals))
  }

  /** What some rows are marked at. */
  function RowValues(rows: seq<TaxLot>): real {
    if rows == [] then 0.0
    else
      var v := rows[|rows| - 1].value;
      RowValues(rows[..|rows| - 1]) + (if v.Some? then v.value.amount else 0.0)
  }

  lemma RowIs(fx: Boundary, l: Lot, mark: Option<Money>, currency: string)
    ensures ToTaxLot(fx, l, mark, currency).quantity == l.remaining
    ensures mark.Some? ==>
      && ToTaxLot(fx, l, mark, currency).value.Some?
      && ToTaxLot(fx, l, mark, currency).value.value.amount
         == mark.value.amount * Value(AsDecimal(l.remaining.raw, l.remaining.decimals))
  {
    hide Faithful, Price;
  }

  /** Rows of lots at one scale hold the lots' units and are marked at the mark's worth of
      them. */
  lemma {:induction false} RowsHold(fx: Boundary, lots: seq<Lot>, mark: Option<Money>, currency: string, decimals: nat)
    requires forall k | 0 <= k < |lots| :: Live(lots[k]) && lots[k].remaining.decimals == decimals
    ensures RowUnits(TaxLots(fx, lots, mark, currency)) == Value(AsDecimal(UnitsHeld(lots), decimals))
    ensures mark.Some? ==>
      RowValues(TaxLots(fx, lots, mark, currency)) == mark.value.amount * RowUnits(TaxLots(fx, lots, mark, currency))
  {
    hide ToTaxLot, Value, Faithful, RowUnits, RowValues, UnitsHeld, AsDecimal;
    if lots == [] {
      NothingHeld();
      NothingIsZero(decimals);
    } else {
      var n := |lots| - 1;
      var rest, row := TaxLots(fx, lots[..n], mark, currency), ToTaxLot(fx, lots[n], mark, currency);
      RowsHold(fx, lots[..n], mark, currency, decimals);
      RowIs(fx, lots[n], mark, currency);
      OneMoreRow(rest, row);
      OneMoreHeld(lots);
      UnitsAdd(UnitsHeld(lots[..n]), lots[n].remaining.raw, decimals);
      if mark.Some? {
        MulAdds(mark.value.amount, RowUnits(rest), Value(AsDecimal(lots[n].remaining.raw, decimals)));
      }
    }
  }

  lemma NothingHeld()
    ensures RowUnits([]) == 0.0 && RowValues([]) == 0.0 && UnitsHeld([]) == 0
  {
  }

  lemma OneMoreRow(rest: seq<TaxLot>, row: TaxLot)
    ensures RowUnits(rest + [row]) == RowUnits(rest) + Value(AsDecimal(row.quantity.raw, row.quantity.decimals))
    ensures RowValues(rest + [row]) == RowValues(rest) + (if row.value.Some? then row.value.value.amount else 0.0)
  {
    assert (rest + [row])[..|rest|] == rest;
  }

  lemma OneMoreHeld(lots: seq<Lot>)
    requires lots != [] && Live(lots[|lots| - 1])
    ensures UnitsHeld(lots) == UnitsHeld(lots[..|lots| - 1]) + lots[|lots| - 1].remaining.raw
  {
  }

  lemma MulAdds(x: real, y: real, z: real)
    ensures x * (y + z) == x * y + x * z
  {
  }

  lemma {:induction false} ScaleTells(raw: int, a: nat, b: nat)
    requires raw > 0
    ensures Value(AsDecimal(raw, a)) == Value(AsDecimal(raw, b)) <==> a == b
  {
    if a < b {
      SmallerScale(raw as real, a, b);
    } else if b < a {
      SmallerScale(raw as real, b, a);
    }
  }

  lemma {:induction false} SmallerScale(x: real, a: nat, b: nat)
    requires x > 0.0 && a < b
    ensures Scale(x, 0 - b) < Scale(x, 0 - a)
  {
    ScaleShrinks(x, a - b);
    ScaleComposes(x, a - b, 0 - a);
    ScaleCompares(x, Scale(x, a - b), 0 - a);
  }

  /** What an asset's rows are made from. */
  lemma OpenAtScale(s: State, a: string)
    requires ValidState(s) && Units(s, a) > 0
    ensures Acquired(s, a)
    ensures var (lots, decimals) := (s.accounts[a].ledger.lots, s.accounts[a].ledger.book.decimals.value);
      var open := OpenLots(lots);
      && UnitsHeld(open) == UnitsLeft(s.accounts[a]) == Units(s, a)
      && forall k | 0 <= k < |open| :: Live(open[k]) && open[k].remaining.decimals == decimals
  {
    hide ValidState;
    HeldIsAcquired(s, a);
    OneAccount(s, a);
    var lots := s.accounts[a].ledger.lots;
    Refinement.OpenLotsAreLive(lots);
    OpenKeepsTotals(lots, Any);
    var open := OpenLots(lots);
    forall k | 0 <= k < |open|
      ensures Live(open[k]) && open[k].remaining.decimals == s.accounts[a].ledger.book.decimals.value
    {
      assert open[k] in open;
    }
  }

  /** The rows of an asset still held add up to the units its slice says are held exactly
      when the slice is at the asset's own scale; then they are marked at what the report
      marks the slice at. */
  lemma RowsAddUpToHeld(fx: Boundary, s: State, a: string, marks: Marks)
    requires ValidState(s) && Units(s, a) > 0
    ensures var (rows, held) := (Rows(fx, s, a, marks), AssetSlice(fx, s, a, marks).held);
      && (RowUnits(rows) == Value(AsDecimal(held.raw, held.decimals)) <==> AtOwnScale(s, a))
      && (a in marks && AtOwnScale(s, a) ==> RowValues(rows) == MarkValue(MarkOf(marks, a), held.raw, held.decimals))
  {
    hide TaxLots, Gap, Value, Faithful, ValidState, UnitsHeld, UnitsLeft, RowUnits, RowValues, OpenLots, AsDecimal;
    OpenAtScale(s, a);
    var account := s.accounts[a];
    var decimals := account.ledger.book.decimals.value;
    RowsHold(fx, OpenLots(account.ledger.lots), MarkOf(marks, a), CurrencyOf(s), decimals);
    ScaleTells(UnitsLeft(account), decimals, account.scale);
  }

  // ------------------------------------------------------------- a witness

  /** Five base units at 18 decimals, and then one at 6, which is refused. */
  function FiveThenOther(): seq<Event> {
    [Acquisition(0, "a", Quantity(5, 18), None, "t"), Acquisition(0, "a", Quantity(1, 6), None, "t")]
  }

  lemma FiveBought(fx: Boundary)
    ensures var r := ProcessOne(fx, NewState(Fifo), FiveThenOther()[0]);
      && r.error.None? && r.state.lastAtMs == 0 && r.state.how == Fifo && r.state.currency.None?
         && "a" in r.state.accounts
      && r.state.accounts["a"].ledger.lots == [NewLot(EmptyLedger("a").book, FiveThenOther()[0])]
      && r.state.accounts["a"].ledger.book.decimals == Some(18) && r.state.accounts["a"].ledger.book.assetId == "a"
  {
    hide Faithful, Sell;
  }

  lemma OtherRefused(fx: Boundary, s: State)
    requires s.lastAtMs == 0 && "a" in s.accounts && s.accounts["a"].ledger.book.decimals == Some(18)
    requires s.accounts["a"].ledger.book.assetId == "a"
    ensures var r := ProcessOne(fx, s, FiveThenOther()[1]);
      && r.error == Some(DecimalsMismatchError) && "a" in r.state.accounts
      && r.state.accounts["a"] == s.accounts["a"].(scale := 6)
  {
    hide Faithful, Sell;
  }

  /** After them the report's slice holds five units at 6 decimals, and its row five at 18. */
  lemma RefusedEventMovesScale(fx: Boundary, marks: Marks)
    ensures var r := Process(fx, NewState(Fifo), FiveThenOther());
      && r.error == Some(DecimalsMismatchError) && "a" in r.state.accounts
      && AssetSlice(fx, r.state, "a", marks).held == Quantity(5, 6)
      && |Rows(fx, r.state, "a", marks)| == 1 && Rows(fx, r.state, "a", marks)[0].quantity == Quantity(5, 18)
  {
    hide ProcessOne, Faithful, Gap, MarkValue, Price;
    var events := FiveThenOther();
    FiveBought(fx);
    var s := ProcessOne(fx, NewState(Fifo), events[0]).state;
    OtherRefused(fx, s);
    assert events[1..][0] == events[1];
    var lots := s.accounts["a"].ledger.lots;
    assert lots[..0] == [];
    assert OpenLots(lots) == OpenLots([]) + lots;
    assert UnitsHeld(lots) == UnitsHeld([]) + 5;
    var t := Process(fx, NewState(Fifo), events).state;
    assert Rows(fx, t, "a", marks) == TaxLots(fx, [], MarkOf(marks, "a"), CurrencyOf(t))
      + [ToTaxLot(fx, lots[0], MarkOf(marks, "a"), CurrencyOf(t))];
  }
}
