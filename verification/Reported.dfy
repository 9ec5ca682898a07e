/** What the report of a replayed stream says, in terms of the stream
    (accounting/report.py). */
module Reported {
  import opened Common
  import opened Lots
  import opened Selection
  import opened Pnl
  import opened Rounding
  import opened Accounts
  import opened Report
  import opened Replay
  import opened ReportFacts
  import opened Scales
  import opened Conservation
  import opened Independence
  import LotBasis

  // ------------------------------------------------------------ any report

  /** The slices' realised amounts, added up. */
  function SlicesRealized(perAsset: map<string, AssetPnL>, assets: seq<string>): real
    requires forall a | a in assets :: a in perAsset
  {
    if assets == [] then 0.0
    else SlicesRealized(perAsset, assets[..|assets| - 1]) + perAsset[assets[|assets| - 1]].realized.amount
  }

  lemma {:induction false} SlicesAdd(perAsset: map<string, AssetPnL>, records: seq<DisposalRecord>, assets: seq<string>)
    requires forall a | a in assets :: a in perAsset && perAsset[a].realized.amount == RealizedOf(records, a)
    ensures SlicesRealized(perAsset, assets) == RealizedAcross(records, assets)
  {
    if assets != [] {
      SlicesAdd(perAsset, records, assets[..|assets| - 1]);
    }
  }

  /** The disposals booked without a gain. */
  ghost function Unknown(records: seq<DisposalRecord>): set<nat> {
    set k: nat | k < |records| && records[k].realized.None?
  }

  lemma {:induction false} MissingAreUnknown(records: seq<DisposalRecord>)
    ensures MissingCount(records) == |Unknown(records)|
  {
    if records == [] {
      assert Unknown(records) == {};
    } else {
      var n := |records| - 1;
      MissingAreUnknown(records[..n]);
      assert Unknown(records) == Unknown(records[..n]) + (if records[n].realized.None? then {n} else {});
    }
  }

  /** In the report of every replay, also one that raised: the realised total is its slices'
      amounts, a slice for each asset seen holds its units, and every disposal left out of the
      total is counted. */
  lemma ReportAddsUp(fx: Boundary, how: Method, events: seq<Event>, asOfMs: int, marks: Marks)
    ensures var s := Process(fx, NewState(how), events).state;
      && (forall a | a in s.assets :: a in s.accounts)
      && (ReportOf(fx, s, asOfMs, marks).Ok? <==>
            forall a | a in marks :: marks[a].currency == if s.currency.Some? then s.currency.value else "USD")
      && (ReportOf(fx, s, asOfMs, marks).Ok? || ReportOf(fx, s, asOfMs, marks) == Err(CurrencyMismatchError))
      && (ReportOf(fx, s, asOfMs, marks).Ok? ==>
            var r := ReportOf(fx, s, asOfMs, marks).value;
            && r.asOfMs == asOfMs && r.how == how
            && (forall a :: a in r.perAsset <==> a in s.assets)
            && r.realized.amount == SlicesRealized(r.perAsset, s.assets)
            && r.missing == |Unknown(s.disposals)|
            && (forall a | a in s.assets ::
                  r.perAsset[a].held.raw == Units(s, a) && r.perAsset[a].realized.currency == r.realized.currency))
  {
    hide Process, Faithful, TotalGap, TotalCosted, PerAsset, AllRows, RealizedAcross, RealizedSum, MissingCount, Gap,
      Rows;
    NewIsValid(how);
    ProcessKeepsValid(fx, NewState(how), events);
    ProcessKeepsHow(fx, NewState(how), events);
    ReportedSlicesAddUp(fx, how, events);
    var s := Process(fx, NewState(how), events).state;
    LotBasis.AssetsHaveAccounts(s);
    LotBasis.SlicesAre(fx, s, s.assets, marks);
    MissingAreUnknown(s.disposals);
    SlicesAdd(PerAsset(fx, s, s.assets, marks), s.disposals, s.assets);
  }

  // --------------------------------------------------------- priced streams

  /** An asset's scale after a stream that raised nothing: its last event's. */
  function ScaleAfter(start: Option<nat>, events: seq<Event>, a: string): Option<nat>
    decreases |events|
  {
    if events == [] then start
    else ScaleAfter(if events[0].assetId == a then Some(events[0].quantity.decimals) else start, events[1..], a)
  }

  function ScaleOf(s: State, a: string): Option<nat> {
    if a in s.accounts then Some(s.accounts[a].scale) else None
  }

  lemma StepScales(fx: Boundary, s: State, e: Event, a: string)
    requires ValidState(s) && ProcessOne(fx, s, e).error.None?
    ensures ScaleOf(ProcessOne(fx, s, e).state, a)
         == if e.assetId == a then Some(e.quantity.decimals) else ScaleOf(s, a)
  {
    hide ProcessOne, ValidState;
    StepFrames(fx, s, e);
    Listed(s, a);
    Listed(ProcessOne(fx, s, e).state, a);
  }

  lemma {:induction false} ScaleIsLast(fx: Boundary, s: State, events: seq<Event>, a: string)
    requires ValidState(s) && Process(fx, s, events).error.None?
    ensures ScaleOf(Process(fx, s, events).state, a) == ScaleAfter(ScaleOf(s, a), events, a)
    decreases |events|
  {
    hide ProcessOne, ValidState, ScaleOf;
    if events != [] {
      StepScales(fx, s, events[0], a);
      StepKeepsValid(fx, s, events[0]);
      ScaleIsLast(fx, ProcessOne(fx, s, events[0]).state, events[1..], a);
    }
  }

  /** A replay of priced acquisitions that raised nothing, and everything held marked. */
  ghost predicate Reportable(fx: Boundary, how: Method, events: seq<Event>, marks: Marks) {
    var (r, start) := (Process(fx, NewState(how), events), NewState(how));
    && CostsKnown(events) && r.error.None? && Marked(r.state, marks)
    && forall a | a in marks :: marks[a].currency == CurrencyOf(r.state)
  }

  lemma ReportableIsReported(fx: Boundary, how: Method, events: seq<Event>, asOfMs: int, marks: Marks)
    requires Reportable(fx, how, events, marks)
    ensures var s := Process(fx, NewState(how), events).state;
      && ValidState(s) && PricedState(s) && s.how == how && (forall a | a in s.assets :: a in s.accounts)
      && ReportOf(fx, s, asOfMs, marks).Ok?
      && (forall a :: a in ReportOf(fx, s, asOfMs, marks).value.perAsset <==> a in s.assets)
      && (forall a | a in s.assets ::
            ReportOf(fx, s, asOfMs, marks).value.perAsset[a] == AssetSlice(fx, s, a, marks))
  {
    hide Process, Faithful, ReportOf, AssetSlice, CostsKnown, ValidState, PricedState, Marked, Charges;
    NewIsValid(how);
    ProcessKeepsValid(fx, NewState(how), events);
    ProcessKeepsHow(fx, NewState(how), events);
    ProcessConservesAll(fx, NewState(how), events);
    var s := Process(fx, NewState(how), events).state;
    LotBasis.AssetsHaveAccounts(s);
    ReportOfMarked(fx, s, asOfMs, marks);
  }

  lemma ReportOfMarked(fx: Boundary, s: State, asOfMs: int, marks: Marks)
    requires forall a | a in s.assets :: a in s.accounts
    requires forall a | a in marks :: marks[a].currency == CurrencyOf(s)
    ensures ReportOf(fx, s, asOfMs, marks).Ok?
    ensures forall a :: a in ReportOf(fx, s, asOfMs, marks).value.perAsset <==> a in s.assets
    ensures forall a | a in s.assets ::
      ReportOf(fx, s, asOfMs, marks).value.perAsset[a] == AssetSlice(fx, s, a, marks)
  {
    hide Faithful, TotalGap, TotalCosted, AllRows, RealizedSum, MissingCount, AssetSlice;
    LotBasis.SlicesAre(fx, s, s.assets, marks);
  }

  /** The report's unrealised figure crosses to money from the marked value of the units held
      less the cost not yet charged; and where nothing was rounded its realised one is proceeds
      less exact bases, so that the two come to proceeds and marked value less cost. */
  lemma ReportedGain(fx: Boundary, how: Method, events: seq<Event>, asOfMs: int, marks: Marks)
    requires Reportable(fx, how, events, marks)
    ensures var s := Process(fx, NewState(how), events).state;
      var charged := Charged(Charges(fx, NewState(how), events));
      && (forall a | a in s.assets :: a in s.accounts) && ReportOf(fx, s, asOfMs, marks).Ok?
      && var r := ReportOf(fx, s, asOfMs, marks).value;
      && r.unrealized.Some?
      && r.unrealized.value.amount == fx(MarkedValue(s, s.assets, marks) - (Costs(events) - charged)).amount
      && (FullyPriced(events) && Unrounded(s.disposals) ==>
            && r.realized.amount == Proceeds(events) - charged
            && (!r.rounded ==> r.realized.amount + r.unrealized.value.amount
                               == Proceeds(events) - Costs(events) + MarkedValue(s, s.assets, marks)))
  {
    hide Process, ReportOf, ValidState, PricedState, AllAtOwnScale, MarkedValue, CostsKnown, FullyPriced, Unrounded,
      Marked, Units, Charges, TotalGap, RealizedSum, Faithful;
    ReportableIsReported(fx, how, events, asOfMs, marks);
    ExactGain(fx, how, events, marks);
    var s := Process(fx, NewState(how), events).state;
    GainSays(fx, s, asOfMs, marks);
    if FullyPriced(events) && Unrounded(s.disposals) {
      NewIsValid(how);
      NothingYet(how, "");
      ProcessRealizes(fx, NewState(how), events);
    }
  }

  /** The basis it names is the cost acquired that no disposal was charged. */
  lemma ReportedBasis(fx: Boundary, how: Method, events: seq<Event>, asOfMs: int, marks: Marks)
    requires Reportable(fx, how, events, marks)
    ensures var s := Process(fx, NewState(how), events).state;
      var charged := Charged(Charges(fx, NewState(how), events));
      && (forall a | a in s.assets :: a in s.accounts) && ReportOf(fx, s, asOfMs, marks).Ok?
      && var r := ReportOf(fx, s, asOfMs, marks).value;
      && r.unrealizedBasis.Some? && r.unrealizedBasis.value.amount == fx(Costs(events) - charged).amount
      && r.unrealizedBasis.value.currency == r.realized.currency
  {
    hide Process, ValidState, PricedState, AllAtOwnScale, CostsKnown, Marked, Charges, TotalGap, PerAsset, AllRows,
      RealizedSum, MissingCount, Faithful;
    ReportableIsReported(fx, how, events, asOfMs, marks);
    ExactGain(fx, how, events, marks);
    NewIsValid(how);
    ProcessConservesAll(fx, NewState(how), events);
    AllReplayed(fx, NewState(how), events);
    assert events[..|events|] == events;
    var s := Process(fx, NewState(how), events).state;
    CostedOfPriced(s, s.assets);
  }

  lemma {:induction false} CostedOfPriced(s: State, assets: seq<string>)
    requires ValidState(s) && PricedState(s) && forall a :: a in assets ==> a in s.accounts
    ensures TotalCosted(s, assets) == LeftSum(s, assets)
  {
    hide Left;
    if assets != [] {
      var last := assets[|assets| - 1];
      CostedOfPriced(s, assets[..|assets| - 1]);
      AssetCosted(s, last);
    }
  }

  lemma AssetCosted(s: State, a: string)
    requires ValidState(s) && PricedState(s) && a in s.accounts
    ensures Costed(s.how, s.accounts[a]) == Left(s, a)
  {
    PricedBasisIsKnown(s.how, s.accounts[a], a, s.currency);
    if UnitsLeft(s.accounts[a]) == 0 {
      FlatHoldsNoBasis(s.how, s.accounts[a], a, s.currency);
    }
  }

  /** The figures of a report. */
  lemma GainSays(fx: Boundary, s: State, asOfMs: int, marks: Marks)
    requires (forall a :: a in s.assets ==> a in s.accounts) && ReportOf(fx, s, asOfMs, marks).Ok?
    requires TotalGap(s, s.assets, marks).Some?
    ensures var (r, gap) := (ReportOf(fx, s, asOfMs, marks).value, TotalGap(s, s.assets, marks).value);
      && r.realized.amount == RealizedSum(s.disposals)
      && r.unrealized.Some? && r.unrealized.value.amount == fx(gap).amount
      && (!r.rounded ==> r.unrealized.value.amount == gap)
  {
    hide TotalGap, TotalCosted, PerAsset, AllRows, MissingCount, RealizedSum, Faithful;
    ExactMeansUnchanged(fx, TotalGap(s, s.assets, marks).value);
  }

  /** One asset's slice of a report. */
  lemma SliceSays(fx: Boundary, s: State, marks: Marks, a: string)
    requires ValidState(s) && PricedState(s) && a in s.accounts && Marked(s, marks)
    ensures var slice := AssetSlice(fx, s, a, marks);
      && slice.held.raw == Units(s, a) && Some(slice.held.decimals) == ScaleOf(s, a)
      && slice.realized.amount == RealizedOf(s.disposals, a)
      && slice.unrealized.Some?
      && slice.unrealized.value.amount == fx(WorthAt(marks, a, slice.held.raw, slice.held.decimals) - Left(s, a)).amount
  {
    hide ValidState, PricedState, Gap, Rows, Faithful, WorthAt, RealizedOf, Left;
    GapOfPriced(s, a, marks);
  }

  /** And so asset by asset, its units and scale those the stream leaves. */
  lemma ReportedSlice(fx: Boundary, how: Method, events: seq<Event>, asOfMs: int, marks: Marks, a: string)
    requires Reportable(fx, how, events, marks) && a in Process(fx, NewState(how), events).state.assets
    ensures var s := Process(fx, NewState(how), events).state;
      var charged := ChargedOn(Charges(fx, NewState(how), events), a);
      && (forall a | a in s.assets :: a in s.accounts) && ReportOf(fx, s, asOfMs, marks).Ok?
      && var r := ReportOf(fx, s, asOfMs, marks).value;
      && a in r.perAsset && var slice := r.perAsset[a];
      && slice.held.raw == UnitsAfter(0, events, a) && Some(slice.held.decimals) == ScaleAfter(None, events, a)
      && slice.unrealized.Some?
      && slice.unrealized.value.amount
         == fx(WorthAt(marks, a, slice.held.raw, slice.held.decimals) - (CostsOn(events, a) - charged)).amount
      && (FullyPriced(events) && Unrounded(s.disposals) ==>
            slice.realized.amount == ProceedsOn(events, a) - charged)
  {
    hide Process, ReportOf, AssetSlice, ValidState, PricedState, Marked, CostsKnown, FullyPriced, Unrounded, Charges,
      Units, Left, WorthAt, Faithful, RealizedOf;
    ReportableIsReported(fx, how, events, asOfMs, marks);
    NewIsValid(how);
    var s := Process(fx, NewState(how), events).state;
    SliceSays(fx, s, marks, a);
    SliceLeft(fx, how, events, a);
    ProcessUnits(fx, NewState(how), events, a);
    NothingYet(how, a);
    ScaleIsLast(fx, NewState(how), events, a);
    if FullyPriced(events) && Unrounded(s.disposals) {
      ProcessRealizesOn(fx, NewState(how), events, a);
    }
  }

  lemma SliceLeft(fx: Boundary, how: Method, events: seq<Event>, a: string)
    requires CostsKnown(events) && Process(fx, NewState(how), events).error.None?
    ensures Left(Process(fx, NewState(how), events).state, a)
         == CostsOn(events, a) - ChargedOn(Charges(fx, NewState(how), events), a)
  {
    hide Process, Faithful;
    NewIsValid(how);
    forall k | 0 <= k < |events|
      ensures CostKnown(events[k], a)
    {
    }
    ProcessConserves(fx, NewState(how), events, a);
    AllReplayed(fx, NewState(how), events);
    assert events[..|events|] == events;
  }
}
