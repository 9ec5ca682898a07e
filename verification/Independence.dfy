/** Realised plus unrealised, and why the method cannot change their sum
    (accounting/report.py). */
module Independence {
  import opened Common
  import opened Lots
  import opened Selection
  import opened Pnl
  import opened Rounding
  import opened Accounts
  import opened Report
  import opened Replay
  import opened Scales
  import opened Conservation
  import Decimals

  /** Every asset still held has a mark. */
  predicate Marked(s: State, marks: Marks) {
    forall a :: a in s.accounts && Units(s, a) > 0 ==> a in marks
  }

  /** What a mark makes of units of its asset. */
  function WorthAt(marks: Marks, assetId: string, units: nat, scale: nat): real {
    if assetId in marks then marks[assetId].amount * (units as real / Decimals.PowInt(10, scale) as real) else 0.0
  }

  lemma MarkIsWorth(marks: Marks, assetId: string, units: nat, scale: nat)
    ensures MarkValue(MarkOf(marks, assetId), units, scale) == WorthAt(marks, assetId, units, scale)
  {
    hide Decimals.Value, Decimals.AsDecimal;
    Decimals.UnitsDivided(units, scale);
  }

  /** The marks' value of everything held. */
  function MarkedValue(s: State, assets: seq<string>, marks: Marks): real
    requires forall a :: a in assets ==> a in s.accounts
  {
    if |assets| == 0 then 0.0
    else
      var last := assets[|assets| - 1];
      MarkedValue(s, assets[..|assets| - 1], marks) + WorthAt(marks, last, Units(s, last), s.accounts[last].scale)
  }

  lemma GapOfPriced(s: State, assetId: string, marks: Marks)
    requires ValidState(s) && PricedState(s) && assetId in s.accounts
    requires Units(s, assetId) > 0 ==> assetId in marks
    ensures Gap(s.how, s.accounts[assetId], MarkOf(marks, assetId))
         == Some(WorthAt(marks, assetId, Units(s, assetId), s.accounts[assetId].scale) - Left(s, assetId))
  {
    var a := s.accounts[assetId];
    MarkIsWorth(marks, assetId, Units(s, assetId), a.scale);
    PricedBasisIsKnown(s.how, a, assetId, s.currency);
    if UnitsLeft(a) == 0 {
      FlatHoldsNoBasis(s.how, a, assetId, s.currency);
      Decimals.NothingIsZero(a.scale);
    }
  }

  lemma PricedBasisIsKnown(how: Method, a: Account, assetId: string, currency: Option<string>)
    requires ValidAccount(how, a, assetId, currency) && Accounts.Priced(how, a)
    ensures BasisLeft(how, a).Some?
  {
  }

  lemma {:induction false} UnrealizedOfPriced(s: State, assets: seq<string>, marks: Marks)
    requires ValidState(s) && PricedState(s) && Marked(s, marks)
    requires forall a :: a in assets ==> a in s.accounts
    ensures TotalGap(s, assets, marks) == Some(MarkedValue(s, assets, marks) - LeftSum(s, assets))
  {
    if |assets| > 0 {
      UnrealizedOfPriced(s, assets[..|assets| - 1], marks);
      GapOfPriced(s, assets[|assets| - 1], marks);
    }
  }

  /** Whatever rounded and whatever was asked for a disposal: what is unrealised, less the
      exact bases charged, is the marked value of the units held less all cost acquired. */
  lemma ExactGain(fx: Boundary, how: Method, events: seq<Event>, marks: Marks)
    requires CostsKnown(events)
    requires var r := Process(fx, NewState(how), events); r.error.None? && Marked(r.state, marks)
    ensures var s := Process(fx, NewState(how), events).state;
      && ValidState(s) && AllAtOwnScale(s)
      && TotalGap(s, s.assets, marks).Some?
      && TotalGap(s, s.assets, marks).value - Charged(Charges(fx, NewState(how), events))
         == MarkedValue(s, s.assets, marks) - Costs(events)
      && (forall a :: Units(s, a) == UnitsAfter(0, events, a))
  {
    hide Process, Faithful, AllAtOwnScale, Units, CostsKnown, Charges;
    ProcessKeepsValid(fx, NewState(how), events);
    ProcessConservesAll(fx, NewState(how), events);
    AllReplayed(fx, NewState(how), events);
    assert events[..|events|] == events;
    NewAtOwnScale(how);
    ErrorFreeAtOwnScale(fx, NewState(how), events);
    var s := Process(fx, NewState(how), events).state;
    UnrealizedOfPriced(s, s.assets, marks);
    forall a
      ensures Units(s, a) == UnitsAfter(0, events, a)
    {
      ProcessUnits(fx, NewState(how), events, a);
      NothingYet(how, a);
    }
  }

  lemma NewIsValid(how: Method)
    ensures ValidState(NewState(how)) && PricedState(NewState(how))
  {
  }

  lemma NothingYet(how: Method, a: string)
    ensures Units(NewState(how), a) == 0
    ensures RealizedSum(NewState(how).disposals) == RealizedOf(NewState(how).disposals, a) == 0.0
  {
  }

  /** Realised plus unrealised is total proceeds less total acquisition cost plus the
      marked value of the units held, each asset's at the scale it was acquired at,
      shortfalls included, whichever method chose the lots. */
  lemma TotalGain(fx: Boundary, how: Method, events: seq<Event>, marks: Marks)
    requires FullyPriced(events)
    requires var r := Process(fx, NewState(how), events);
      r.error.None? && Unrounded(r.state.disposals) && Marked(r.state, marks)
    ensures var s := Process(fx, NewState(how), events).state;
      && ValidState(s) && AllAtOwnScale(s)
      && TotalGap(s, s.assets, marks).Some?
      && RealizedSum(s.disposals) + TotalGap(s, s.assets, marks).value
         == Proceeds(events) - Costs(events) + MarkedValue(s, s.assets, marks)
      && (forall a :: Units(s, a) == UnitsAfter(0, events, a))
  {
    hide Process, Faithful, Unrounded, AllAtOwnScale, ValidState, TotalGap, MarkedValue, Units, Charges;
    NewIsValid(how);
    ExactGain(fx, how, events, marks);
    ProcessRealizes(fx, NewState(how), events);
  }

  lemma NewAtOwnScale(how: Method)
    ensures AllAtOwnScale(NewState(how))
  {
  }

  lemma {:induction false} SameMarkedValue(s: State, t: State, assets: seq<string>, marks: Marks)
    requires FrameOf(s) == FrameOf(t) && forall a :: Units(s, a) == Units(t, a)
    requires forall a :: a in assets ==> a in s.accounts && a in t.accounts
    ensures MarkedValue(s, assets, marks) == MarkedValue(t, assets, marks)
  {
    if |assets| > 0 {
      var last := assets[|assets| - 1];
      SameMarkedValue(s, t, assets[..|assets| - 1], marks);
      assert FrameOf(s).books[last].scale == FrameOf(t).books[last].scale;
    }
  }

  /** FIFO, LIFO, HIFO and ACB raise the same exception at the same event of the same
      streams, and leave the same frame whether they raise or not. */
  lemma RaisesAlike(fx: Boundary, how: Method, other: Method, events: seq<Event>)
    ensures var (r, q) := (Process(fx, NewState(how), events), Process(fx, NewState(other), events));
      && r.error == q.error
      && Replayed(fx, NewState(how), events) == Replayed(fx, NewState(other), events)
      && FrameOf(r.state) == FrameOf(q.state)
  {
    hide Process, Faithful;
    ProcessFrames(fx, NewState(how), events);
    ProcessFrames(fx, NewState(other), events);
    assert FrameOf(NewState(how)) == FrameOf(NewState(other));
  }

  /** What the marks say of a frame and the units in it. */
  lemma MarkedAlike(s: State, t: State, marks: Marks)
    requires FrameOf(s) == FrameOf(t) && forall a :: Units(s, a) == Units(t, a)
    requires ValidState(s) && Marked(s, marks)
    ensures forall a | a in s.assets :: a in s.accounts && a in t.accounts
    ensures s.assets == t.assets && Marked(t, marks)
    ensures MarkedValue(s, s.assets, marks) == MarkedValue(t, t.assets, marks)
  {
    assert s.accounts.Keys == FrameOf(s).books.Keys && t.accounts.Keys == FrameOf(t).books.Keys;
    SameMarkedValue(s, t, s.assets, marks);
  }

  /** On every stream that no method refuses, with its acquisitions priced and what is
      held marked, all methods come to the same total on exact bases: what was charged and
      what is unrealised differ by one number. */
  lemma ExactIndependence(fx: Boundary, how: Method, other: Method, events: seq<Event>, marks: Marks)
    requires CostsKnown(events)
    requires var r := Process(fx, NewState(how), events); r.error.None? && Marked(r.state, marks)
    ensures var (r, q) := (Process(fx, NewState(how), events), Process(fx, NewState(other), events));
      && q.error.None? && ValidState(r.state) && ValidState(q.state) && Marked(q.state, marks)
      && TotalGap(r.state, r.state.assets, marks).Some? && TotalGap(q.state, q.state.assets, marks).Some?
      && Proceeds(events) - Charged(Charges(fx, NewState(how), events)) + TotalGap(r.state, r.state.assets, marks).value
      == Proceeds(events) - Charged(Charges(fx, NewState(other), events))
        + TotalGap(q.state, q.state.assets, marks).value
  {
    hide Process, Faithful, AllAtOwnScale, Units, CostsKnown, Charges, Marked, MarkedValue, FrameOf, ValidState;
    RaisesAlike(fx, how, other, events);
    ExactGain(fx, how, events, marks);
    NewIsValid(other);
    ProcessKeepsValid(fx, NewState(other), events);
    var (s, t) := (Process(fx, NewState(how), events).state, Process(fx, NewState(other), events).state);
    forall a
      ensures Units(s, a) == Units(t, a)
    {
      ProcessUnits(fx, NewState(other), events, a);
      NothingYet(other, a);
    }
    MarkedAlike(s, t, marks);
    ExactGain(fx, other, events, marks);
  }

  /** And on a fully priced, fully marked, unrounded stream every method comes to the
      same realised plus unrealised. */
  lemma MethodIndependence(fx: Boundary, how: Method, other: Method, events: seq<Event>, marks: Marks)
    ensures var (r, q) := (Process(fx, NewState(how), events), Process(fx, NewState(other), events));
      && r.error == q.error
      && (r.error.None? && FullyPriced(events) && Unrounded(r.state.disposals) && Unrounded(q.state.disposals)
          && Marked(r.state, marks) ==>
            && ValidState(r.state) && ValidState(q.state)
            && TotalGap(r.state, r.state.assets, marks).Some? && TotalGap(q.state, q.state.assets, marks).Some?
            && RealizedSum(r.state.disposals) + TotalGap(r.state, r.state.assets, marks).value
            == RealizedSum(q.state.disposals) + TotalGap(q.state, q.state.assets, marks).value)
  {
    var (r, q) := (Process(fx, NewState(how), events), Process(fx, NewState(other), events));
    RaisesAlike(fx, how, other, events);
    if r.error.None? && FullyPriced(events) && Unrounded(r.state.disposals) && Unrounded(q.state.disposals)
       && Marked(r.state, marks) {
      GainsAlike(fx, how, other, events, marks);
    }
  }

  lemma GainsAlike(fx: Boundary, how: Method, other: Method, events: seq<Event>, marks: Marks)
    requires FullyPriced(events)
    requires var (r, q) := (Process(fx, NewState(how), events), Process(fx, NewState(other), events));
      && r.error.None? && q.error.None? && FrameOf(r.state) == FrameOf(q.state)
      && Unrounded(r.state.disposals) && Unrounded(q.state.disposals) && Marked(r.state, marks)
    ensures var (r, q) := (Process(fx, NewState(how), events).state, Process(fx, NewState(other), events).state);
      && ValidState(r) && ValidState(q)
      && TotalGap(r, r.assets, marks).Some? && TotalGap(q, q.assets, marks).Some?
      && RealizedSum(r.disposals) + TotalGap(r, r.assets, marks).value
      == RealizedSum(q.disposals) + TotalGap(q, q.assets, marks).value
  {
    hide FrameOf, Process, Unrounded, ValidState, TotalGap, Marked, Charges;
    NewIsValid(how);
    NewIsValid(other);
    ExactIndependence(fx, how, other, events, marks);
    ProcessRealizes(fx, NewState(how), events);
    ProcessRealizes(fx, NewState(other), events);
  }
}
